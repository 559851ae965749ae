/**
 * A menu card keeps one piece of state: the option currently selected.
 * It starts at the item's first option, changes when an option button is
 * pressed, and goes with the item to add-to-cart.
 */
module MenuCard {
  import opened Optionals
  import opened Types
  import opened CartEngine

  /** `item.options ? item.options[0] : undefined`; an empty options list gives none. */
  function DefaultOption(item: MenuItem): Option<MenuItemOption>
  {
    if item.options.Some? && |item.options.value| > 0 then Some(item.options.value[0]) else None
  }

  /** The selection is one of the item's options, and there is one whenever the item has options. */
  predicate SelectionValid(item: MenuItem, selected: Option<MenuItemOption>)
  {
    && (selected.Some? ==> item.options.Some? && selected.value in item.options.value)
    && (item.options.Some? && |item.options.value| > 0 ==> selected.Some?)
  }

  /** An option button is highlighted when its label is the selected one's. */
  predicate Highlighted(selected: Option<MenuItemOption>, option: MenuItemOption)
  {
    selected.Some? && selected.value.optionLabel == option.optionLabel
  }

  predicate LabelsDistinct(options: seq<MenuItemOption>)
  {
    forall i, j :: 0 <= i < |options| && 0 <= j < |options| && options[i].optionLabel == options[j].optionLabel ==> i == j
  }

  lemma DefaultOptionValid(item: MenuItem)
    ensures SelectionValid(item, DefaultOption(item))
    ensures item.options.Some? && |item.options.value| > 0 ==> DefaultOption(item) == Some(item.options.value[0])
    ensures item.options.None? ==> DefaultOption(item) == None
  {
  }

  /** With distinct labels, exactly the selected option is highlighted. */
  lemma HighlightExactlySelected(item: MenuItem, selected: Option<MenuItemOption>, k: nat)
    requires item.options.Some? && LabelsDistinct(item.options.value) && k < |item.options.value|
    requires SelectionValid(item, selected)
    ensures Highlighted(selected, item.options.value[k]) <==> selected == Some(item.options.value[k])
  {
    var options := item.options.value;
    if Highlighted(selected, options[k]) {
      var j :| 0 <= j < |options| && options[j] == selected.value;
      assert options[j].optionLabel == options[k].optionLabel;
    }
  }

  /**
   * Whatever the card hands to add-to-cart can be priced, and for an item
   * with options the unit price is one of that item's option prices.
   */
  lemma CardSelectionPriced(item: MenuItem, selected: Option<MenuItemOption>)
    requires SelectionValid(item, selected)
    requires (item.options.Some? && |item.options.value| > 0) || item.price.Amount?
    ensures PriceResolvable(item, selected)
    ensures item.options.Some? && |item.options.value| > 0 ==>
      exists k :: 0 <= k < |item.options.value| && FinalPrice(item, selected) == item.options.value[k].price
  {
    if item.options.Some? && |item.options.value| > 0 {
      var k :| 0 <= k < |item.options.value| && item.options.value[k] == selected.value;
      assert FinalPrice(item, selected) == item.options.value[k].price;
    }
  }

  class Card {
    const item: MenuItem
    var selectedOption: Option<MenuItemOption>

    ghost predicate Valid()
      reads this
    {
      SelectionValid(item, selectedOption)
    }

    constructor (item: MenuItem)
      ensures this.item == item && selectedOption == DefaultOption(item)
      ensures Valid()
    {
      this.item := item;
      selectedOption := DefaultOption(item);
      DefaultOptionValid(item);
    }

    /** An option button was pressed; the buttons are exactly the item's options. */
    method Select(option: MenuItemOption)
      requires Valid()
      requires item.options.Some? && option in item.options.value
      modifies this`selectedOption
      ensures Valid() && selectedOption == Some(option)
    {
      selectedOption := Some(option);
    }

    /** The order button: what goes to add-to-cart. */
    method AddToCartArguments() returns (menuItem: MenuItem, option: Option<MenuItemOption>)
      requires Valid()
      ensures menuItem == item && option == selectedOption
      ensures item.options.Some? && |item.options.value| > 0 ==> option.Some? && option.value in item.options.value
    {
      menuItem, option := item, selectedOption;
    }
  }
}
