/**
 * The admin panel's handlers. Each one computes a new menu, order,
 * category or slide list from the current one and hands it to the
 * storefront. The answers to the browser's `confirm` and `prompt` dialogs
 * are parameters: `confirmed` for `confirm`, and `answer` (None when the
 * dialog was cancelled) for `prompt`.
 */
module AdminPanel {
  import opened Optionals
  import opened Types
  import opened Seqs

  const DefaultCategory: string := "সাধারণ"
  const NewItemName: string := "নতুন খাবার"
  const NewItemDescription: string := "বিস্তারিত এখানে লিখুন"

  /** The placeholder item `handleAddMenuItem` creates; `id` stands for `Date.now().toString()`. */
  function NewMenuItem(id: string, categories: seq<string>): MenuItem
  {
    MenuItem(id, NewItemName, Some(NewItemDescription), Amount(0), None,
      if |categories| > 0 && categories[0] != "" then categories[0] else DefaultCategory,
      Some(""), None, None)
  }

  /** `handleAddMenuItem`. */
  function AddMenuItem(menu: seq<MenuItem>, categories: seq<string>, id: string): (r: seq<MenuItem>)
    ensures |r| == |menu| + 1 && r[1..] == menu
    ensures r[0].id == id && r[0].price == Amount(0) && r[0].options == None
    ensures r[0].category == if |categories| > 0 && categories[0] != "" then categories[0] else DefaultCategory
  {
    [NewMenuItem(id, categories)] + menu
  }

  function OtherId(id: string): MenuItem -> bool
  {
    (item: MenuItem) => item.id != id
  }

  /** `handleDeleteMenuItem`: drop every item with that id once the admin confirms. */
  function DeleteMenuItem(menu: seq<MenuItem>, id: string, confirmed: bool): (r: seq<MenuItem>)
    ensures !confirmed ==> r == menu
    ensures confirmed ==> forall i :: 0 <= i < |r| ==> r[i].id != id && r[i] in menu
    ensures confirmed ==> forall i :: 0 <= i < |menu| && menu[i].id != id ==> menu[i] in r
  {
    if confirmed then
      FilterMembers(menu, OtherId(id));
      var r := Filter(menu, OtherId(id));
      assert forall i :: 0 <= i < |r| ==> OtherId(id)(r[i]);
      r
    else menu
  }

  /**
   * A confirmed delete keeps the menu's order and multiplicities: it
   * distributes over concatenation, and a single item stays exactly when
   * its id differs.
   */
  lemma DeleteMenuItemKeepsOrder(a: seq<MenuItem>, b: seq<MenuItem>, x: MenuItem, id: string)
    ensures DeleteMenuItem(a + b, id, true) == DeleteMenuItem(a, id, true) + DeleteMenuItem(b, id, true)
    ensures DeleteMenuItem([x], id, true) == if x.id != id then [x] else []
    ensures DeleteMenuItem([], id, true) == []
  {
    FilterConcat(a, b, OtherId(id));
    assert [x][1..] == [];
  }

  /** Deleting an id no item carries changes nothing. */
  lemma DeleteMenuItemMissing(menu: seq<MenuItem>, id: string, confirmed: bool)
    requires forall i :: 0 <= i < |menu| ==> menu[i].id != id
    ensures DeleteMenuItem(menu, id, confirmed) == menu
  {
    FilterKeepsAll(menu, OtherId(id));
  }

  /** Deleting an item that was just added with a fresh id restores the menu. */
  lemma AddThenDeleteMenuItem(menu: seq<MenuItem>, categories: seq<string>, id: string)
    requires forall i :: 0 <= i < |menu| ==> menu[i].id != id
    ensures DeleteMenuItem(AddMenuItem(menu, categories, id), id, true) == menu
  {
    FilterConcat([NewMenuItem(id, categories)], menu, OtherId(id));
    FilterDropsAll([NewMenuItem(id, categories)], OtherId(id));
    FilterKeepsAll(menu, OtherId(id));
  }

  function ReplaceWith(edited: MenuItem): MenuItem -> MenuItem
  {
    (item: MenuItem) => if item.id == edited.id then edited else item
  }

  /** `handleSaveItem`: the edited item replaces every item with its id; nothing is being edited, nothing changes. */
  function SaveItem(menu: seq<MenuItem>, editing: Option<MenuItem>): (r: seq<MenuItem>)
    ensures |r| == |menu|
    ensures forall i :: 0 <= i < |r| ==> r[i].id == menu[i].id
    ensures editing.Some? ==> forall i :: 0 <= i < |r| ==>
      r[i] == if menu[i].id == editing.value.id then editing.value else menu[i]
    ensures editing.None? ==> r == menu
  {
    if editing.Some? then Map(menu, ReplaceWith(editing.value)) else menu
  }

  /** Saving the same edit twice is the same as saving it once. */
  lemma SaveItemIdempotent(menu: seq<MenuItem>, editing: Option<MenuItem>)
    ensures SaveItem(SaveItem(menu, editing), editing) == SaveItem(menu, editing)
  {
    var once := SaveItem(menu, editing);
    var twice := SaveItem(once, editing);
    forall i | 0 <= i < |menu| ensures twice[i] == once[i] {
    }
  }

  function ConfirmIfId(id: string): Order -> Order
  {
    (order: Order) => if order.id == id then order.(status := Confirmed) else order
  }

  /**
   * `handleConfirmOrder`: every order with that id becomes confirmed,
   * whatever its status was; its other fields and every other order stay.
   */
  function ConfirmOrder(orders: seq<Order>, id: string): (r: seq<Order>)
    ensures |r| == |orders|
    ensures forall i :: 0 <= i < |r| && orders[i].id == id ==> r[i] == orders[i].(status := Confirmed)
    ensures forall i :: 0 <= i < |r| && orders[i].id != id ==> r[i] == orders[i]
  {
    Map(orders, ConfirmIfId(id))
  }

  /** Confirming twice is the same as confirming once. */
  lemma ConfirmOrderIdempotent(orders: seq<Order>, id: string)
    ensures ConfirmOrder(ConfirmOrder(orders, id), id) == ConfirmOrder(orders, id)
  {
    var once := ConfirmOrder(orders, id);
    var twice := ConfirmOrder(once, id);
    forall i | 0 <= i < |orders| ensures twice[i] == once[i] {
    }
  }

  /** Confirmation leaves the ids in place and can only move a status to confirmed. */
  lemma ConfirmOrderStatuses(orders: seq<Order>, id: string, i: nat)
    requires i < |orders|
    ensures ConfirmOrder(orders, id)[i].id == orders[i].id
    ensures ConfirmOrder(orders, id)[i].status == Confirmed <==> (orders[i].id == id || orders[i].status == Confirmed)
    ensures ConfirmOrder(orders, id)[i].status == Pending ==> orders[i].status == Pending
  {
  }

  function OtherOrderId(id: string): Order -> bool
  {
    (order: Order) => order.id != id
  }

  /** `handleDeleteOrder`: drop every order with that id, whatever its status, once confirmed. */
  function DeleteOrder(orders: seq<Order>, id: string, confirmed: bool): (r: seq<Order>)
    ensures !confirmed ==> r == orders
    ensures confirmed ==> forall i :: 0 <= i < |r| ==> r[i].id != id && r[i] in orders
    ensures confirmed ==> forall i :: 0 <= i < |orders| && orders[i].id != id ==> orders[i] in r
  {
    if confirmed then
      FilterMembers(orders, OtherOrderId(id));
      var r := Filter(orders, OtherOrderId(id));
      assert forall i :: 0 <= i < |r| ==> OtherOrderId(id)(r[i]);
      r
    else orders
  }

  /**
   * A confirmed delete keeps the list's order and multiplicities: it
   * distributes over concatenation, and a single order stays exactly when
   * its id differs.
   */
  lemma DeleteOrderKeepsOrder(a: seq<Order>, b: seq<Order>, x: Order, id: string)
    ensures DeleteOrder(a + b, id, true) == DeleteOrder(a, id, true) + DeleteOrder(b, id, true)
    ensures DeleteOrder([x], id, true) == if x.id != id then [x] else []
    ensures DeleteOrder([], id, true) == []
  {
    FilterConcat(a, b, OtherOrderId(id));
    assert [x][1..] == [];
  }

  /** Deleting an id no order carries changes nothing. */
  lemma DeleteOrderMissing(orders: seq<Order>, id: string, confirmed: bool)
    requires forall i :: 0 <= i < |orders| ==> orders[i].id != id
    ensures DeleteOrder(orders, id, confirmed) == orders
  {
    FilterKeepsAll(orders, OtherOrderId(id));
  }

  predicate NoDuplicates(s: seq<string>)
  {
    forall i, j :: 0 <= i < j < |s| ==> s[i] != s[j]
  }

  /** `handleAddCategory`: append a non-empty name the list does not hold yet. */
  function AddCategory(categories: seq<string>, answer: Option<string>): (r: seq<string>)
    ensures (answer.Some? && answer.value != "" && answer.value !in categories) ==> r == categories + [answer.value]
    ensures !(answer.Some? && answer.value != "" && answer.value !in categories) ==> r == categories
  {
    if answer.Some? && answer.value != "" && answer.value !in categories then categories + [answer.value]
    else categories
  }

  /** A duplicate-free category list stays duplicate-free under adding. */
  lemma AddCategoryNoDuplicates(categories: seq<string>, answer: Option<string>)
    requires NoDuplicates(categories)
    ensures NoDuplicates(AddCategory(categories, answer))
  {
    var r := AddCategory(categories, answer);
    if r != categories {
      forall i, j | 0 <= i < j < |r| ensures r[i] != r[j] {
        if j == |categories| {
          assert r[i] == categories[i];
        }
      }
    }
  }

  function OtherName(name: string): string -> bool
  {
    (c: string) => c != name
  }

  /** `handleDeleteCategory`: drop every occurrence of the name once confirmed. */
  function DeleteCategory(categories: seq<string>, name: string, confirmed: bool): (r: seq<string>)
    ensures !confirmed ==> r == categories
    ensures confirmed ==> name !in r
    ensures confirmed ==> forall c :: c in categories && c != name ==> c in r
    ensures forall i :: 0 <= i < |r| ==> r[i] in categories
  {
    if confirmed then
      FilterMembers(categories, OtherName(name));
      var r := Filter(categories, OtherName(name));
      assert forall i :: 0 <= i < |r| ==> OtherName(name)(r[i]);
      r
    else categories
  }

  /**
   * A confirmed delete keeps the remaining names in their order and
   * multiplicities: it distributes over concatenation, and a single name
   * stays exactly when it differs.
   */
  lemma DeleteCategoryKeepsOrder(a: seq<string>, b: seq<string>, c: string, name: string)
    ensures DeleteCategory(a + b, name, true) == DeleteCategory(a, name, true) + DeleteCategory(b, name, true)
    ensures DeleteCategory([c], name, true) == if c != name then [c] else []
    ensures DeleteCategory([], name, true) == []
  {
    FilterConcat(a, b, OtherName(name));
    assert [c][1..] == [];
  }

  /** Deleting a name the list does not hold changes nothing. */
  lemma DeleteCategoryMissing(categories: seq<string>, name: string, confirmed: bool)
    requires name !in categories
    ensures DeleteCategory(categories, name, confirmed) == categories
  {
    FilterKeepsAll(categories, OtherName(name));
  }

  lemma {:induction false} FilterNoDuplicates(s: seq<string>, p: string -> bool)
    requires NoDuplicates(s)
    ensures NoDuplicates(Filter(s, p))
  {
    if s != [] {
      FilterNoDuplicates(s[1..], p);
      var rest := Filter(s[1..], p);
      FilterMembers(s[1..], p);
      assert s[0] !in s[1..];
      assert s[0] !in rest;
    }
  }

  /** Deleting keeps a duplicate-free list duplicate-free. */
  lemma DeleteCategoryNoDuplicates(categories: seq<string>, name: string, confirmed: bool)
    requires NoDuplicates(categories)
    ensures NoDuplicates(DeleteCategory(categories, name, confirmed))
  {
    FilterNoDuplicates(categories, OtherName(name));
  }

  /** Deleting a category that was just added removes it again. */
  lemma AddThenDeleteCategory(categories: seq<string>, name: string)
    requires name != "" && name !in categories
    ensures DeleteCategory(AddCategory(categories, Some(name)), name, true) == categories
  {
    FilterConcat(categories, [name], OtherName(name));
    FilterKeepsAll(categories, OtherName(name));
    FilterDropsAll([name], OtherName(name));
  }

  /** `handleAddSlide`: append a non-empty URL. */
  function AddSlide(slides: seq<string>, answer: Option<string>): (r: seq<string>)
    ensures (answer.Some? && answer.value != "") ==> r == slides + [answer.value]
    ensures !(answer.Some? && answer.value != "") ==> r == slides
  {
    if answer.Some? && answer.value != "" then slides + [answer.value] else slides
  }

  /** `heroImages.filter((_, i) => i !== idx)`, with `start` the index of `slides[0]`. */
  function DropIndexFrom(slides: seq<string>, idx: int, start: int): seq<string>
    decreases |slides|
  {
    if slides == [] then []
    else (if start != idx then [slides[0]] else []) + DropIndexFrom(slides[1..], idx, start + 1)
  }

  /** The slide delete button: remove exactly position `idx`, or nothing when it is out of range. */
  function DeleteSlide(slides: seq<string>, idx: int): (r: seq<string>)
    ensures 0 <= idx < |slides| ==> r == slides[..idx] + slides[idx + 1..] && |r| == |slides| - 1
    ensures !(0 <= idx < |slides|) ==> r == slides
  {
    if 0 <= idx < |slides| then
      DropIndexFromInside(slides, idx, 0);
      DropIndexFrom(slides, idx, 0)
    else
      DropIndexFromOutside(slides, idx, 0);
      DropIndexFrom(slides, idx, 0)
  }

  /** An index outside the scanned window drops nothing. */
  lemma {:induction false} DropIndexFromOutside(slides: seq<string>, idx: int, start: int)
    requires !(start <= idx < start + |slides|)
    ensures DropIndexFrom(slides, idx, start) == slides
    decreases |slides|
  {
    if slides != [] {
      DropIndexFromOutside(slides[1..], idx, start + 1);
      assert slides == [slides[0]] + slides[1..];
    }
  }

  /** An index inside the scanned window drops exactly that position. */
  lemma {:induction false} DropIndexFromInside(slides: seq<string>, idx: int, start: int)
    requires start <= idx < start + |slides|
    ensures DropIndexFrom(slides, idx, start) == slides[..idx - start] + slides[idx - start + 1..]
    decreases |slides|
  {
    var tail := slides[1..];
    if start == idx {
      DropIndexFromOutside(tail, idx, start + 1);
      assert slides[..0] + slides[1..] == tail;
    } else {
      var k := idx - start;
      DropIndexFromInside(tail, idx, start + 1);
      assert slides[..k] == [slides[0]] + tail[..k - 1];
      assert slides[k + 1..] == tail[k..];
      calc {
        DropIndexFrom(slides, idx, start);
        [slides[0]] + DropIndexFrom(tail, idx, start + 1);
        [slides[0]] + (tail[..k - 1] + tail[k..]);
        ([slides[0]] + tail[..k - 1]) + tail[k..];
        slides[..k] + slides[k + 1..];
      }
    }
  }

  /** Deleting the slide that was just appended restores the list. */
  lemma AddThenDeleteSlide(slides: seq<string>, url: string)
    requires url != ""
    ensures DeleteSlide(AddSlide(slides, Some(url)), |slides|) == slides
  {
    assert (slides + [url])[..|slides|] == slides;
  }
}
