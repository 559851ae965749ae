# 98 Hot & Spicy storefront: cart and order model

A Dafny model of the cart and order logic of a single-restaurant ordering
site. Shoppers browse the menu by category and add items to a cart. An item
may have priced options, such as a half or full portion. Shoppers then submit
a delivery booking. An admin panel edits the menu, categories, slideshow
images and bookings.

What the model covers:

- **Cart engine** (`CartEngine`, `cart_engine.dfy`). A cart is a sequence of
  lines keyed by item id and selected option label. `AddToCart` either bumps
  the matching line or appends a line whose unit price is fixed when it is
  added. `UpdateQuantity` clamps at 1 and `RemoveItem` filters by key.
  `CartCount` and `TotalPrice` are folds over the lines. `CartValid` is the
  invariant "one line per key, every quantity at least 1", and every
  operation preserves it.
- **Order submission** (`BookingForm`, `App`). The booking form builds the
  composite address. It passes the cart and total through unchanged and
  copies its other fields verbatim. The storefront stamps the order
  `Pending` and puts it first in the order list. Then it empties the cart.
- **Admin list operations** (`AdminPanel`). These prepend, filter by id,
  replace by id and confirm over the menu and the orders. They add categories
  without duplicates and delete categories. They append slides and delete a
  slide by position.
- **Selection and rotation rules**. `MenuCard.Card` holds the card's selected
  option: the first option by default. `App.FilteredMenu` is the category
  filter. `App.NextHeroImage` is the slideshow step.
- **Data shapes** (`Types`). An option's price is always a number. A menu
  item's price is `Amount(n)` or `Display(text)`. Cart lines carry the whole
  menu item plus quantity, selected label and unit price. An order's status
  is exactly `Pending`, `Confirmed` or `Cancelled`. An order stores its total
  beside its items, and the type does not tie the two together. The
  submitted `OrderData` has no id, status or timestamp; the caller adds
  those.

The storefront root is the class `App.Storefront`. Its fields are the state
the source keeps in the root component. Each handler is a method whose
`modifies` clause names only the fields that handler replaces, and whose
`ensures` ties the new value to the pure function above. Menu card selection
is the class `MenuCard.Card`. `Seqs` defines `filter`, `map` and the summing
`reduce` once, with their laws. `Seed` holds the built-in catalogue, and
`Scenarios` works examples over it. In those examples, momo (id "4", 100)
added twice gives one line of quantity 2 and a total of 200. Nachos (id "8")
as half (30) and full (50) gives two lines and a total of 80.

Prices and quantities are `int` (whole taka, whole units). The answers to
the browser's `confirm` and `prompt` dialogs are parameters. So are the
`Date.now()` ids and timestamps.

Behaviour worth knowing, which the model follows:

- Confirming an order sets it to confirmed whatever its status was. The code
  has no "only when pending" check; it only hides the button.
- The booking form passes the cart by reference, not as a copy. The cart is
  only ever replaced, never mutated in place, so the submitted order is still
  isolated. In the model, values are immutable, and every cart method's frame
  leaves `orders` untouched.
- Submission has no failure path: placing the order, emptying the cart and
  showing the success screen always happen together.

The option field is named `optionLabel` because `label` is a Dafny keyword.

## Model

| member | source | states |
|---|---|---|
| `CartEngine.AddToCart` | App.tsx:76-92 | after an add, the key (id, option label) has a line; the length is unchanged when the key had a line, and one more otherwise |
| `CartEngine.AddExisting` | App.tsx:78-84 | adding an existing key raises that line's quantity by 1 and changes nothing else; the count rises by 1 and the total by that line's unit price |
| `CartEngine.AddNew` | App.tsx:86-91 | adding a new key appends one line at the end: the item, quantity 1, the option's label, and the option's price if an option was given, otherwise the item's price; the earlier lines stay |
| `CartEngine.AddPreservesValid` | App.tsx:76-92 | adding keeps "one line per key, quantities at least 1" |
| `CartEngine.AddTimesOneLine` | App.tsx:76-92 | n adds of the same item and option to a cart without that key give one line, with quantity n |
| `CartEngine.AddDistinctOptions` | App.tsx:78-91 | the same item with two different option labels gives two separate lines |
| `CartEngine.AddExistingIsPlusOne` | App.tsx:76-103 | on an existing line, adding is the same as a quantity change of +1 |
| `CartEngine.AddThenRemove` | App.tsx:76-107 | removing the key that a fresh add created restores the cart |
| `CartEngine.UpdateQuantity` | App.tsx:96-103 | same length; every matching line gets quantity max(1, q + delta), so at least 1 and at least q + delta, with every other field kept; other lines are unchanged |
| `CartEngine.UpdateQuantityAt` | App.tsx:96-103 | in a key-unique cart, changing line i's quantity sets it to max(1, q + delta) and leaves every other line alone |
| `CartEngine.UpdateQuantityMissing` | App.tsx:96-103 | a quantity change on a key the cart lacks changes nothing |
| `CartEngine.UpdateQuantityPreservesValid` | App.tsx:96-103 | quantity changes keep the cart invariant |
| `CartEngine.RemoveItem` | App.tsx:105-107 | after removal no line has the key; every line left was in the cart, and every line with another key is kept |
| `CartEngine.RemoveAt` | App.tsx:105-107 | in a key-unique cart, removing line i's key removes exactly position i, keeps the order, and lowers the total and the count by that line's share |
| `CartEngine.RemoveMissing` | App.tsx:105-107 | removing a key the cart lacks changes nothing |
| `CartEngine.RemovePreservesValid` | App.tsx:105-107 | removal keeps the cart invariant |
| `CartEngine.TotalsOfEmpty` | App.tsx:73-74 | the count and the total of an empty cart are 0 |
| `CartEngine.TotalsPermutation` | App.tsx:73-74 | the count and the total do not depend on the order of the lines |
| `App.FilteredMenu` | App.tsx:68-71 | the shown items are exactly the menu items of the active category |
| `App.FilteredMenuKeepsOrder` | App.tsx:68-71 | the filter keeps the menu's order: filtering a concatenation concatenates the filtered parts |
| `App.FilteredMenuWhole` | App.tsx:68-71 | a menu entirely in the active category is shown whole |
| `App.NextHeroImage` | App.tsx:59-66 | with slides, the next index is in [0, count), one further, or 0 after the last slide; with no slides it stays (an index past the end is covered by `App.HeroImageCycle`) |
| `App.HeroImageCycle` | App.tsx:59-66 | k ticks from any index land on (start + k) mod count once k >= 1, including an index left past the end by a slide deletion; from an index in range this holds for every k, so the show cycles through every slide |
| `App.NewOrder` | App.tsx:114-120 | the new order is pending, has the given id and timestamp, and carries the submitted items, total and customer fields unchanged |
| `App.PlaceOrder` | App.tsx:121 | the new order comes first and every earlier order follows in place |
| `App.PlaceThenDeleteOrder` | App.tsx:114-121 | deleting an order placed under a fresh id gives the earlier order list back |
| `App.CheckoutSnapshot` | components/BookingForm.tsx:27-36 | an order placed from the form holds the cart as it was, a total equal to that cart's total, the composite address, and status pending |
| `App.Storefront.constructor` | App.tsx:14-40 | each collection is its saved value or the built-in default; the active category is the first category or ""; the cart is empty; the slideshow starts at 0 |
| `App.Storefront.AddToCart` | App.tsx:76-94 | the cart becomes the add result, the invariant holds, the unit count rises by 1, and the drawer opens; no other field changes |
| `App.Storefront.UpdateQuantity` | App.tsx:96-103 | the cart becomes the quantity-change result and keeps the invariant; no other field changes |
| `App.Storefront.RemoveItem` | App.tsx:105-107 | the cart becomes the removal result and keeps the invariant; no other field changes |
| `App.Storefront.CheckoutClick` | App.tsx:109-112 | the drawer closes and the booking form opens |
| `App.Storefront.OrderSubmit` | App.tsx:114-125 | a new pending order is prepended with the earlier orders after it, the cart is emptied, the form closes and success shows; catalogue untouched |
| `App.Storefront.SelectCategory` | App.tsx:271-278 | the pressed category becomes active |
| `App.Storefront.HeroTick` | App.tsx:59-66 | the slide index takes one step modulo the slide count, and lands in range when there are slides |
| `App.Storefront.UpdateMenu` | App.tsx:147 | the menu becomes the admin panel's list; nothing else changes |
| `App.Storefront.UpdateCategories` | App.tsx:148 | the categories become the admin panel's list; nothing else changes |
| `App.Storefront.UpdateHeroImages` | App.tsx:149 | the slides become the admin panel's list; nothing else changes |
| `App.Storefront.UpdateOrders` | App.tsx:150 | the orders become the admin panel's list; nothing else changes |
| `AdminPanel.AddMenuItem` | components/AdminPanel.tsx:26-35 | one item is prepended, with the given id, price 0 and no options; its category is the first category, or "সাধারণ" when there is none or it is empty; the old menu follows unchanged |
| `AdminPanel.DeleteMenuItem` | components/AdminPanel.tsx:39-43 | once confirmed, no item has the id, and every other item is kept; unconfirmed, nothing changes |
| `AdminPanel.DeleteMenuItemKeepsOrder` | components/AdminPanel.tsx:41 | the confirmed delete distributes over concatenation, keeps a single item exactly when its id differs, and maps [] to [], so the remaining items keep their order and multiplicity |
| `AdminPanel.DeleteMenuItemMissing` | components/AdminPanel.tsx:39-43 | deleting an id no item carries changes nothing |
| `AdminPanel.AddThenDeleteMenuItem` | components/AdminPanel.tsx:26-43 | deleting an item just added under a fresh id restores the menu |
| `AdminPanel.SaveItem` | components/AdminPanel.tsx:45-50 | same length and ids; items with the edited id become the edited item and all others are unchanged; with nothing being edited the menu is unchanged |
| `AdminPanel.SaveItemIdempotent` | components/AdminPanel.tsx:45-50 | saving the same edit twice equals saving it once |
| `AdminPanel.ConfirmOrder` | components/AdminPanel.tsx:53-55 | orders with the id get status confirmed and keep every other field; other orders are unchanged; the length is kept |
| `AdminPanel.ConfirmOrderIdempotent` | components/AdminPanel.tsx:53-55 | confirming twice equals confirming once |
| `AdminPanel.ConfirmOrderStatuses` | components/AdminPanel.tsx:53-55 | ids stay in place; an order ends up confirmed exactly when it had the id or was already confirmed; a pending result was pending before |
| `AdminPanel.DeleteOrder` | components/AdminPanel.tsx:57-61 | once confirmed, every order with the id is gone whatever its status, and all others are kept; unconfirmed, nothing changes |
| `AdminPanel.DeleteOrderKeepsOrder` | components/AdminPanel.tsx:59 | the confirmed delete distributes over concatenation, keeps a single order exactly when its id differs, and maps [] to [], so the remaining orders keep their order and multiplicity |
| `AdminPanel.DeleteOrderMissing` | components/AdminPanel.tsx:57-61 | deleting an id no order carries changes nothing |
| `AdminPanel.AddCategory` | components/AdminPanel.tsx:69-74 | a non-empty name not yet present is appended; anything else leaves the list unchanged |
| `AdminPanel.AddCategoryNoDuplicates` | components/AdminPanel.tsx:69-74 | a duplicate-free category list stays duplicate-free under adding |
| `AdminPanel.DeleteCategory` | components/AdminPanel.tsx:77-81 | once confirmed, the name no longer occurs and every other name is kept; the result only holds names that were there |
| `AdminPanel.DeleteCategoryKeepsOrder` | components/AdminPanel.tsx:79 | the confirmed delete distributes over concatenation, keeps a single name exactly when it differs, and maps [] to [], so the remaining names keep their order and multiplicity |
| `AdminPanel.DeleteCategoryMissing` | components/AdminPanel.tsx:77-81 | deleting a name the list does not hold changes nothing |
| `AdminPanel.DeleteCategoryNoDuplicates` | components/AdminPanel.tsx:77-81 | deleting keeps a duplicate-free list duplicate-free |
| `AdminPanel.AddThenDeleteCategory` | components/AdminPanel.tsx:69-81 | deleting a category just added restores the list |
| `AdminPanel.AddSlide` | components/AdminPanel.tsx:85-90 | a non-empty URL is appended at the end; a cancelled or empty answer changes nothing |
| `AdminPanel.DeleteSlide` | components/AdminPanel.tsx:292 | an in-range index removes exactly that position, so the length drops by 1; an out-of-range index changes nothing |
| `AdminPanel.AddThenDeleteSlide` | components/AdminPanel.tsx:85-90 | deleting the slide just appended restores the list |
| `BookingForm.ChoosePaymentMethod` | components/BookingForm.tsx:142-146 | the pressed button's method becomes the payment method, which is one of the offered four; no other field changes |
| `BookingForm.PaymentMethodAlwaysOffered` | components/BookingForm.tsx:14-21 | the form opens on bKash, and after any button presses the method is one of bKash, Nagad, mCash and Islami Bank |
| `BookingForm.FullAddress` | components/BookingForm.tsx:27 | the address is "বাসা নং: ", then the house number, then ", ঠিকানা: ", then the address, each at its own position |
| `BookingForm.FullAddressInjective` | components/BookingForm.tsx:27 | when house numbers contain no comma, the composite address determines both the house number and the address |
| `BookingForm.HandleSubmit` | components/BookingForm.tsx:23-37 | with the required fields filled, the data carries the cart and the total as passed, the composite address, and the name, phone, timing and payment method verbatim |
| `CartView.MinusOnLine` | components/Cart.tsx:51 | "−" on a line lowers its quantity by 1 but not below 1; on quantity 1 the cart is unchanged; the invariant holds |
| `CartView.PlusOnLine` | components/Cart.tsx:53 | "+" on a line raises exactly that line by 1, and the total by its unit price |
| `CartView.RemoveOnLine` | components/Cart.tsx:46 | the trash control removes exactly that line, so the header count drops by 1 |
| `CartView.HeaderAndCheckout` | components/Cart.tsx:27-63 | the header's line count never exceeds the unit count; checkout is offered exactly when the cart holds some unit |
| `MenuCard.DefaultOptionValid` | components/MenuCard.tsx:12-14 | the initial selection is the first option when there are options, none otherwise, and it is a valid selection |
| `MenuCard.HighlightExactlySelected` | components/MenuCard.tsx:58-66 | with distinct labels, an option button is highlighted exactly when it is the selected option |
| `MenuCard.CardSelectionPriced` | components/MenuCard.tsx:12-79 | what a card sends to add-to-cart can be priced; for an item with options, the unit price is one of its option prices |
| `MenuCard.Card.constructor` | components/MenuCard.tsx:12-14 | the card starts with the default selection and a valid state |
| `MenuCard.Card.Select` | components/MenuCard.tsx:61 | pressing an option selects it, and the state stays valid |
| `MenuCard.Card.AddToCartArguments` | components/MenuCard.tsx:79 | the order button passes the card's item and current selection; an item with options always passes one of them |
| `Scenarios.SeedItemsPriceable` | constants.tsx:4-61 | every built-in item, added from its card with the default selection, has a unit price |
| `Scenarios.MomoTwice` | constants.tsx:28-34 | momo added twice gives one line of quantity 2 and a total of 200 |
| `Scenarios.NachosBothSizes` | constants.tsx:43-52 | nachos as half and full gives two lines (30 and 50) and a total of 80 |
| `Scenarios.QuantityClampsAtOne` | App.tsx:96-103 | a line of quantity 1 lowered by 5 stays at 1 |
| `Scenarios.ConfirmTwice` | components/AdminPanel.tsx:53-55 | a placed order confirmed twice is confirmed |
| `Scenarios.TickAfterSlideDeleted` | components/AdminPanel.tsx:292 | with slide 3 of 4 showing, deleting a slide leaves 3, and the next tick shows slide 1 |

## Left out

- Browser storage. The `localStorage` reads at start-up and the saves after each change are left out. Start-up is modelled as "the saved value or the default"; JSON parsing and serialising are not modelled.
- Rendering, CSS, animations and the scroll listener. These are presentation only.
- The `setInterval` timer. Only the index step it performs is modelled, not its timing.
- `confirm`, `prompt`, `alert` and the `tel:` link. These are browser dialogs and navigation. The user's answer is a parameter.
- `Date.now()`. Ids and timestamps are parameters, and the model claims nothing about their uniqueness, because the code does not guarantee it.
- CartEngine.AddToCart: JavaScript's `Number(item.price)` parsing is not modelled. A price the admin typed into the editor is stored as a string (components/AdminPanel.tsx:337); when `Number` parses it (such as "120"), the model represents it as `Amount(n)` with the number `Number` gives. `Display` is kept only for strings `Number` cannot parse (such as "৩০/৫০"), where the code would store NaN. The function requires an option or an `Amount` price, but only when a new line is appended.
- JavaScript numbers are floating point. Prices and quantities are modelled as unbounded integers, since every seeded price is a whole number.
- The admin login check and the admin flag. This is a fixed credential comparison outside the cart and order logic.
- Field editing in the item edit modal, the booking form's text inputs, and the active admin tab. These are UI form state. Only saving the edited item is modelled.
- components/Logo.tsx is not part of this model. It is purely presentational.
- The `Cancelled` status. It exists in the type, but no operation produces it.
- MenuCard.Card: cards are keyed by `item.id` (App.tsx:295), so an item with another id always gets a new card. When the item with the same id is replaced (after an edit), React keeps the card and its earlier selection, which may then no longer be one of the item's options. The model fixes the item for the card's lifetime and does not capture that replacement.
