/**
 * The cart engine of the storefront: a cart is a sequence of lines, each
 * keyed by the item id and the selected option label. Adding bumps the
 * matching line or appends a new one, a quantity change clamps at 1,
 * removal filters by key, and count and total are folds over the lines.
 */
module CartEngine {
  import opened Optionals
  import opened Types
  import opened Seqs

  /** `option?.label`. */
  function LabelOf(option: Option<MenuItemOption>): Option<string>
  {
    if option.Some? then Some(option.value.optionLabel) else None
  }

  /** The key test the source repeats in every handler: same id and same option label. */
  predicate Matches(line: CartItem, id: string, optionLabel: Option<string>)
  {
    line.item.id == id && line.selectedOptionLabel == optionLabel
  }

  predicate SameKey(a: CartItem, b: CartItem)
  {
    Matches(a, b.item.id, b.selectedOptionLabel)
  }

  predicate HasLine(cart: seq<CartItem>, id: string, optionLabel: Option<string>)
  {
    exists i :: 0 <= i < |cart| && Matches(cart[i], id, optionLabel)
  }

  /** At most one line per (id, option label). */
  predicate KeysUnique(cart: seq<CartItem>)
  {
    forall i, j :: 0 <= i < |cart| && 0 <= j < |cart| && SameKey(cart[i], cart[j]) ==> i == j
  }

  predicate QuantitiesPositive(cart: seq<CartItem>)
  {
    forall i :: 0 <= i < |cart| ==> cart[i].quantity >= 1
  }

  /** The invariant every cart operation keeps. */
  predicate CartValid(cart: seq<CartItem>)
  {
    KeysUnique(cart) && QuantitiesPositive(cart)
  }

  /**
   * A unit price can be resolved: an option was chosen, or the item's price
   * is a number. (The source would call `Number` on a display string.)
   */
  predicate PriceResolvable(item: MenuItem, option: Option<MenuItemOption>)
  {
    option.Some? || item.price.Amount?
  }

  /** `option ? option.price : Number(item.price)` for a numeric price. */
  function FinalPrice(item: MenuItem, option: Option<MenuItemOption>): int
    requires PriceResolvable(item, option)
  {
    if option.Some? then option.value.price else item.price.amount
  }

  /** The line appended for a key the cart does not hold yet. */
  function NewLine(item: MenuItem, option: Option<MenuItemOption>): CartItem
    requires PriceResolvable(item, option)
  {
    CartItem(item, 1, LabelOf(option), FinalPrice(item, option))
  }

  /** The per-line mapping of `handleAddToCart`'s `prev.map`. */
  function Bump(id: string, optionLabel: Option<string>): CartItem -> CartItem
  {
    line => if Matches(line, id, optionLabel) then line.(quantity := line.quantity + 1) else line
  }

  /**
   * `handleAddToCart`. The price is only resolved when a new line is
   * appended, so only then must it be resolvable.
   */
  function AddToCart(cart: seq<CartItem>, item: MenuItem, option: Option<MenuItemOption>): (r: seq<CartItem>)
    requires !HasLine(cart, item.id, LabelOf(option)) ==> PriceResolvable(item, option)
    ensures HasLine(r, item.id, LabelOf(option))
    ensures |r| == if HasLine(cart, item.id, LabelOf(option)) then |cart| else |cart| + 1
  {
    if HasLine(cart, item.id, LabelOf(option)) then
      Map(cart, Bump(item.id, LabelOf(option)))
    else
      assert Matches(NewLine(item, option), item.id, LabelOf(option));
      var r := cart + [NewLine(item, option)];
      assert r[|cart|] == NewLine(item, option);
      r
  }

  /** `Math.max(1, n)`. */
  function AtLeastOne(n: int): int
  {
    if n < 1 then 1 else n
  }

  /** The per-line mapping of `handleUpdateQuantity`. */
  function Adjust(id: string, optionLabel: Option<string>, delta: int): CartItem -> CartItem
  {
    line => if Matches(line, id, optionLabel) then line.(quantity := AtLeastOne(line.quantity + delta)) else line
  }

  /** `handleUpdateQuantity`. */
  function UpdateQuantity(cart: seq<CartItem>, id: string, optionLabel: Option<string>, delta: int): (r: seq<CartItem>)
    ensures |r| == |cart|
    ensures forall i :: 0 <= i < |r| && Matches(cart[i], id, optionLabel) ==>
      r[i] == cart[i].(quantity := AtLeastOne(cart[i].quantity + delta)) &&
      r[i].quantity >= 1 && r[i].quantity >= cart[i].quantity + delta
    ensures forall i :: 0 <= i < |r| && !Matches(cart[i], id, optionLabel) ==> r[i] == cart[i]
  {
    Map(cart, Adjust(id, optionLabel, delta))
  }

  /** The predicate of `handleRemoveItem`'s `prev.filter`. */
  function Keep(id: string, optionLabel: Option<string>): CartItem -> bool
  {
    line => !Matches(line, id, optionLabel)
  }

  /** `handleRemoveItem`. */
  function RemoveItem(cart: seq<CartItem>, id: string, optionLabel: Option<string>): (r: seq<CartItem>)
    ensures !HasLine(r, id, optionLabel)
    ensures forall i :: 0 <= i < |r| ==> r[i] in cart
    ensures forall i :: 0 <= i < |cart| && !Matches(cart[i], id, optionLabel) ==> cart[i] in r
  {
    FilterMembers(cart, Keep(id, optionLabel));
    var r := Filter(cart, Keep(id, optionLabel));
    assert forall i :: 0 <= i < |r| ==> Keep(id, optionLabel)(r[i]);
    r
  }

  function Quantity(line: CartItem): int
  {
    line.quantity
  }

  /** The amount a line contributes: unit price times quantity. */
  function LineSubtotal(line: CartItem): int
  {
    line.finalPrice * line.quantity
  }

  /** `cartCount`: the number of units in the cart. */
  function CartCount(cart: seq<CartItem>): int
  {
    Sum(cart, Quantity)
  }

  /** `totalPrice`: what the cart costs. */
  function TotalPrice(cart: seq<CartItem>): int
  {
    Sum(cart, LineSubtotal)
  }

  // ---------------------------------------------------------------------
  // Lemmas about adding

  /** The position of a line with a given key. */
  lemma FindLine(cart: seq<CartItem>, id: string, optionLabel: Option<string>) returns (i: nat)
    requires HasLine(cart, id, optionLabel)
    ensures i < |cart| && Matches(cart[i], id, optionLabel)
  {
    i :| 0 <= i < |cart| && Matches(cart[i], id, optionLabel);
  }

  /** On an existing key, adding bumps only that line. */
  lemma AddExistingShape(cart: seq<CartItem>, item: MenuItem, option: Option<MenuItemOption>, i: nat)
    requires i < |cart| && Matches(cart[i], item.id, LabelOf(option))
    requires forall j :: 0 <= j < |cart| && j != i ==> !Matches(cart[j], item.id, LabelOf(option))
    ensures AddToCart(cart, item, option) == cart[i := cart[i].(quantity := cart[i].quantity + 1)]
  {
    MapTouchesOne(cart, Bump(item.id, LabelOf(option)), i);
  }

  /**
   * Adding an item whose key already has a line adds 1 to that line's
   * quantity and changes nothing else; count grows by 1 and the total by
   * that line's unit price.
   */
  lemma AddExisting(cart: seq<CartItem>, item: MenuItem, option: Option<MenuItemOption>, i: nat)
    requires KeysUnique(cart)
    requires i < |cart| && Matches(cart[i], item.id, LabelOf(option))
    ensures AddToCart(cart, item, option) == cart[i := cart[i].(quantity := cart[i].quantity + 1)]
    ensures CartCount(AddToCart(cart, item, option)) == CartCount(cart) + 1
    ensures TotalPrice(AddToCart(cart, item, option)) == TotalPrice(cart) + cart[i].finalPrice
  {
    var bumped := cart[i].(quantity := cart[i].quantity + 1);
    forall j | 0 <= j < |cart| && j != i ensures !Matches(cart[j], item.id, LabelOf(option)) {
      assert !SameKey(cart[j], cart[i]);
    }
    AddExistingShape(cart, item, option, i);
    SumUpdate(cart, i, bumped, Quantity);
    SumUpdate(cart, i, bumped, LineSubtotal);
    assert LineSubtotal(bumped) == LineSubtotal(cart[i]) + cart[i].finalPrice by {
      assert cart[i].finalPrice * (cart[i].quantity + 1) == cart[i].finalPrice * cart[i].quantity + cart[i].finalPrice;
    }
  }

  /**
   * Adding an item with a new key appends exactly one line at the end, with
   * quantity 1, the option's label, and the option's price when an option
   * is given, otherwise the item's own price.
   */
  lemma AddNew(cart: seq<CartItem>, item: MenuItem, option: Option<MenuItemOption>)
    requires !HasLine(cart, item.id, LabelOf(option)) && PriceResolvable(item, option)
    ensures var r := AddToCart(cart, item, option);
      && |r| == |cart| + 1 && r[..|cart|] == cart
      && r[|cart|].item == item && r[|cart|].quantity == 1
      && r[|cart|].selectedOptionLabel == (if option.Some? then Some(option.value.optionLabel) else None)
      && r[|cart|].finalPrice == (if option.Some? then option.value.price else item.price.amount)
    ensures CartCount(AddToCart(cart, item, option)) == CartCount(cart) + 1
    ensures TotalPrice(AddToCart(cart, item, option)) == TotalPrice(cart) + FinalPrice(item, option)
  {
    var r := AddToCart(cart, item, option);
    assert r[..|cart|] == cart;
  }

  lemma AddPreservesValid(cart: seq<CartItem>, item: MenuItem, option: Option<MenuItemOption>)
    requires CartValid(cart)
    requires !HasLine(cart, item.id, LabelOf(option)) ==> PriceResolvable(item, option)
    ensures CartValid(AddToCart(cart, item, option))
  {
    var r := AddToCart(cart, item, option);
    if HasLine(cart, item.id, LabelOf(option)) {
      var i := FindLine(cart, item.id, LabelOf(option));
      AddExisting(cart, item, option, i);
      forall a, b | 0 <= a < |r| && 0 <= b < |r| && SameKey(r[a], r[b]) ensures a == b {
        assert SameKey(cart[a], cart[b]);
      }
    } else {
      AddNew(cart, item, option);
      forall k | 0 <= k < |cart| ensures r[k] == cart[k] && !SameKey(r[k], r[|cart|]) && !SameKey(r[|cart|], r[k]) {
        assert r[k] == cart[k];
      }
      forall a, b | 0 <= a < |r| && 0 <= b < |r| && SameKey(r[a], r[b]) ensures a == b {
        if a < |cart| && b < |cart| {
          assert SameKey(cart[a], cart[b]);
        }
      }
    }
  }

  /** `n` successive adds of the same item and option. */
  function AddTimes(cart: seq<CartItem>, item: MenuItem, option: Option<MenuItemOption>, n: nat): seq<CartItem>
    requires PriceResolvable(item, option)
  {
    if n == 0 then cart else AddToCart(AddTimes(cart, item, option, n - 1), item, option)
  }

  /**
   * Adding the same item and option `n` times to a cart without that key
   * yields the cart followed by one line whose quantity is `n`.
   */
  lemma {:induction false} AddTimesOneLine(cart: seq<CartItem>, item: MenuItem, option: Option<MenuItemOption>, n: nat)
    requires PriceResolvable(item, option) && !HasLine(cart, item.id, LabelOf(option)) && n >= 1
    ensures AddTimes(cart, item, option, n) == cart + [NewLine(item, option).(quantity := n)]
  {
    if n > 1 {
      AddTimesOneLine(cart, item, option, n - 1);
      var prev := AddTimes(cart, item, option, n - 1);
      var line := NewLine(item, option).(quantity := n - 1);
      assert prev == cart + [line];
      assert Matches(prev[|cart|], item.id, LabelOf(option));
      forall j | 0 <= j < |prev| && j != |cart| ensures !Matches(prev[j], item.id, LabelOf(option)) {
        assert prev[j] == cart[j];
      }
      AddExistingShape(prev, item, option, |cart|);
      assert prev[|cart| := line.(quantity := n)] == cart + [NewLine(item, option).(quantity := n)];
    }
  }

  /** The same item with two different option labels gives two lines. */
  lemma AddDistinctOptions(cart: seq<CartItem>, item: MenuItem, a: MenuItemOption, b: MenuItemOption)
    requires a.optionLabel != b.optionLabel
    requires !HasLine(cart, item.id, Some(a.optionLabel)) && !HasLine(cart, item.id, Some(b.optionLabel))
    ensures AddToCart(AddToCart(cart, item, Some(a)), item, Some(b)) == cart + [NewLine(item, Some(a)), NewLine(item, Some(b))]
  {
    var first := AddToCart(cart, item, Some(a));
    assert first == cart + [NewLine(item, Some(a))];
    forall k | 0 <= k < |first| ensures !Matches(first[k], item.id, Some(b.optionLabel)) {
      if k < |cart| {
        assert first[k] == cart[k];
      }
    }
  }

  /** On a line that already exists, adding is the same as the "+" control. */
  lemma AddExistingIsPlusOne(cart: seq<CartItem>, item: MenuItem, option: Option<MenuItemOption>)
    requires QuantitiesPositive(cart) && HasLine(cart, item.id, LabelOf(option))
    ensures AddToCart(cart, item, option) == UpdateQuantity(cart, item.id, LabelOf(option), 1)
  {
    var r, u := AddToCart(cart, item, option), UpdateQuantity(cart, item.id, LabelOf(option), 1);
    assert |r| == |u|;
    forall j | 0 <= j < |r| ensures r[j] == u[j] {
      if Matches(cart[j], item.id, LabelOf(option)) {
        assert cart[j].quantity >= 1;
      }
    }
  }

  /** Removing the key a fresh add created restores the cart. */
  lemma AddThenRemove(cart: seq<CartItem>, item: MenuItem, option: Option<MenuItemOption>)
    requires !HasLine(cart, item.id, LabelOf(option)) && PriceResolvable(item, option)
    ensures RemoveItem(AddToCart(cart, item, option), item.id, LabelOf(option)) == cart
  {
    var keep := Keep(item.id, LabelOf(option));
    FilterConcat(cart, [NewLine(item, option)], keep);
    FilterKeepsAll(cart, keep);
    FilterDropsAll([NewLine(item, option)], keep);
  }

  // ---------------------------------------------------------------------
  // Lemmas about changing quantities

  /**
   * The quantity control on the line at `i` sets that line's quantity to
   * `max(1, q + delta)` and leaves every other line as it was.
   */
  lemma UpdateQuantityAt(cart: seq<CartItem>, i: nat, delta: int)
    requires KeysUnique(cart) && i < |cart|
    ensures UpdateQuantity(cart, cart[i].item.id, cart[i].selectedOptionLabel, delta)
      == cart[i := cart[i].(quantity := AtLeastOne(cart[i].quantity + delta))]
  {
    var id, optionLabel := cart[i].item.id, cart[i].selectedOptionLabel;
    var r := UpdateQuantity(cart, id, optionLabel, delta);
    forall j | 0 <= j < |cart| && j != i ensures r[j] == cart[j] {
      assert !SameKey(cart[j], cart[i]);
    }
  }

  /** A quantity change on a key the cart does not hold changes nothing. */
  lemma UpdateQuantityMissing(cart: seq<CartItem>, id: string, optionLabel: Option<string>, delta: int)
    requires !HasLine(cart, id, optionLabel)
    ensures UpdateQuantity(cart, id, optionLabel, delta) == cart
  {
    var r := UpdateQuantity(cart, id, optionLabel, delta);
    forall j | 0 <= j < |cart| ensures r[j] == cart[j] {
      assert !Matches(cart[j], id, optionLabel);
    }
  }

  lemma UpdateQuantityPreservesValid(cart: seq<CartItem>, id: string, optionLabel: Option<string>, delta: int)
    requires CartValid(cart)
    ensures CartValid(UpdateQuantity(cart, id, optionLabel, delta))
  {
    var r := UpdateQuantity(cart, id, optionLabel, delta);
    forall a, b | 0 <= a < |r| && 0 <= b < |r| && SameKey(r[a], r[b]) ensures a == b {
      assert r[a].item == cart[a].item && r[a].selectedOptionLabel == cart[a].selectedOptionLabel;
      assert r[b].item == cart[b].item && r[b].selectedOptionLabel == cart[b].selectedOptionLabel;
      assert SameKey(cart[a], cart[b]);
    }
  }

  // ---------------------------------------------------------------------
  // Lemmas about removing

  /** Removing the key of the line at `i` removes exactly that position. */
  lemma RemoveAt(cart: seq<CartItem>, i: nat)
    requires KeysUnique(cart) && i < |cart|
    ensures RemoveItem(cart, cart[i].item.id, cart[i].selectedOptionLabel) == cart[..i] + cart[i + 1..]
    ensures TotalPrice(RemoveItem(cart, cart[i].item.id, cart[i].selectedOptionLabel)) == TotalPrice(cart) - LineSubtotal(cart[i])
    ensures CartCount(RemoveItem(cart, cart[i].item.id, cart[i].selectedOptionLabel)) == CartCount(cart) - cart[i].quantity
  {
    var keep := Keep(cart[i].item.id, cart[i].selectedOptionLabel);
    forall j | 0 <= j < |cart| && j != i ensures keep(cart[j]) {
      assert !SameKey(cart[j], cart[i]);
    }
    FilterDropsOne(cart, keep, i);
    SumRemove(cart, i, LineSubtotal);
    SumRemove(cart, i, Quantity);
  }

  /** Removing a key the cart does not hold changes nothing. */
  lemma RemoveMissing(cart: seq<CartItem>, id: string, optionLabel: Option<string>)
    requires !HasLine(cart, id, optionLabel)
    ensures RemoveItem(cart, id, optionLabel) == cart
  {
    FilterKeepsAll(cart, Keep(id, optionLabel));
  }

  /** Removal keeps the cart's invariant; what is left is a subsequence of valid lines. */
  lemma {:induction false} RemovePreservesValid(cart: seq<CartItem>, id: string, optionLabel: Option<string>)
    requires CartValid(cart)
    ensures CartValid(RemoveItem(cart, id, optionLabel))
  {
    if HasLine(cart, id, optionLabel) {
      var i := FindLine(cart, id, optionLabel);
      RemoveAt(cart, i);
      var r := cart[..i] + cart[i + 1..];
      forall a, b | 0 <= a < |r| && 0 <= b < |r| && SameKey(r[a], r[b]) ensures a == b {
        var a', b' := if a < i then a else a + 1, if b < i then b else b + 1;
        assert r[a] == cart[a'] && r[b] == cart[b'];
        assert SameKey(cart[a'], cart[b']);
      }
      forall a | 0 <= a < |r| ensures r[a].quantity >= 1 {
        assert r[a] == cart[if a < i then a else a + 1];
      }
    } else {
      RemoveMissing(cart, id, optionLabel);
    }
  }

  // ---------------------------------------------------------------------
  // Lemmas about the totals

  lemma TotalsOfEmpty()
    ensures CartCount([]) == 0 && TotalPrice([]) == 0
  {
  }

  /** Count and total do not depend on the order of the lines. */
  lemma TotalsPermutation(a: seq<CartItem>, b: seq<CartItem>)
    requires multiset(a) == multiset(b)
    ensures CartCount(a) == CartCount(b) && TotalPrice(a) == TotalPrice(b)
  {
    SumPermutation(a, b, Quantity);
    SumPermutation(a, b, LineSubtotal);
  }
}
