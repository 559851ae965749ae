/**
 * The cart drawer: per-line controls that send a quantity delta or a
 * removal for the line's own key, a header that counts lines, and a
 * checkout button shown only for a non-empty cart. Its displayed total is
 * `CartEngine.TotalPrice`, the same fold the storefront computes.
 */
module CartView {
  import opened Optionals
  import opened Types
  import opened Seqs
  import opened CartEngine

  /** What a control hands to the storefront's callbacks. */
  datatype Action =
    | ChangeQuantity(id: string, optionLabel: Option<string>, delta: int)
    | RemoveLine(id: string, optionLabel: Option<string>)

  function MinusControl(line: CartItem): Action
  {
    ChangeQuantity(line.item.id, line.selectedOptionLabel, -1)
  }

  function PlusControl(line: CartItem): Action
  {
    ChangeQuantity(line.item.id, line.selectedOptionLabel, 1)
  }

  function RemoveControl(line: CartItem): Action
  {
    RemoveLine(line.item.id, line.selectedOptionLabel)
  }

  /** The storefront's handler for an action. */
  function Apply(cart: seq<CartItem>, action: Action): seq<CartItem>
  {
    match action
    case ChangeQuantity(id, optionLabel, delta) => UpdateQuantity(cart, id, optionLabel, delta)
    case RemoveLine(id, optionLabel) => RemoveItem(cart, id, optionLabel)
  }

  /** The bag header's number: distinct lines, not units. */
  function HeaderCount(items: seq<CartItem>): nat
  {
    |items|
  }

  predicate CheckoutOffered(items: seq<CartItem>)
  {
    |items| > 0
  }

  /** "−" lowers the line by one but never below 1; on quantity 1 the cart stays as it is. */
  lemma MinusOnLine(cart: seq<CartItem>, i: nat)
    requires CartValid(cart) && i < |cart|
    ensures Apply(cart, MinusControl(cart[i])) ==
      cart[i := cart[i].(quantity := AtLeastOne(cart[i].quantity - 1))]
    ensures cart[i].quantity == 1 ==> Apply(cart, MinusControl(cart[i])) == cart
    ensures CartValid(Apply(cart, MinusControl(cart[i])))
  {
    UpdateQuantityAt(cart, i, -1);
    UpdateQuantityPreservesValid(cart, cart[i].item.id, cart[i].selectedOptionLabel, -1);
    if cart[i].quantity == 1 {
      assert cart[i].(quantity := 1) == cart[i];
    }
  }

  /** "+" raises exactly this line by one, and the total by its unit price. */
  lemma PlusOnLine(cart: seq<CartItem>, i: nat)
    requires CartValid(cart) && i < |cart|
    ensures Apply(cart, PlusControl(cart[i])) == cart[i := cart[i].(quantity := cart[i].quantity + 1)]
    ensures TotalPrice(Apply(cart, PlusControl(cart[i]))) == TotalPrice(cart) + cart[i].finalPrice
  {
    UpdateQuantityAt(cart, i, 1);
    var bumped := cart[i].(quantity := cart[i].quantity + 1);
    SumUpdate(cart, i, bumped, LineSubtotal);
    assert cart[i].finalPrice * (cart[i].quantity + 1) == cart[i].finalPrice * cart[i].quantity + cart[i].finalPrice;
  }

  /** The trash control removes exactly this line. */
  lemma RemoveOnLine(cart: seq<CartItem>, i: nat)
    requires CartValid(cart) && i < |cart|
    ensures Apply(cart, RemoveControl(cart[i])) == cart[..i] + cart[i + 1..]
    ensures HeaderCount(Apply(cart, RemoveControl(cart[i]))) == HeaderCount(cart) - 1
  {
    RemoveAt(cart, i);
  }

  /** The header never shows more than the unit count, and checkout is offered exactly when there is something to buy. */
  lemma HeaderAndCheckout(cart: seq<CartItem>)
    requires QuantitiesPositive(cart)
    ensures HeaderCount(cart) <= CartCount(cart)
    ensures CheckoutOffered(cart) <==> CartCount(cart) > 0
  {
    assert forall i :: 0 <= i < |cart| ==> Quantity(cart[i]) >= 1;
    SumAtLeastLength(cart, Quantity);
  }
}
