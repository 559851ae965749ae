/**
 * The data shapes of the storefront: menu items with optional priced
 * variants, cart lines and orders. Prices and quantities are whole taka
 * and whole units, so they are `int`.
 */
module Types {
  import opened Optionals

  /** A purchase variant of a menu item (a size, say); its price is always a number. */
  datatype MenuItemOption = MenuItemOption(optionLabel: string, price: int)

  /**
   * A menu item's price is either a number or a display string such as
   * "৩০/৫০" shown for an item that is bought through its options.
   */
  datatype Price = Amount(amount: int) | Display(text: string)

  datatype MenuItem = MenuItem(
    id: string,
    name: string,
    description: Option<string>,
    price: Price,
    options: Option<seq<MenuItemOption>>,
    category: string,
    image: Option<string>,
    isSpicy: Option<bool>,
    isBestSeller: Option<bool>)

  /**
   * A cart line: every field of the menu item it was added from, plus the
   * quantity, the label of the chosen option (if any) and the unit price
   * resolved when the line was created.
   */
  datatype CartItem = CartItem(
    item: MenuItem,
    quantity: int,
    selectedOptionLabel: Option<string>,
    finalPrice: int)

  /** An order's status takes exactly these three values. */
  datatype Status = Pending | Confirmed | Cancelled

  /**
   * A submitted order. Its total is stored beside its items; nothing in the
   * type ties the one to the other.
   */
  datatype Order = Order(
    id: string,
    customerName: string,
    address: string,
    phone: string,
    items: seq<CartItem>,
    total: int,
    timing: string,
    paymentMethod: string,
    status: Status,
    createdAt: int)

  /** What the booking form hands on: an order without `id`, `status` and `createdAt`. */
  datatype OrderData = OrderData(
    customerName: string,
    address: string,
    phone: string,
    items: seq<CartItem>,
    total: int,
    timing: string,
    paymentMethod: string)
}
