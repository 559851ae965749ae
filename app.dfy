/**
 * The storefront's root component: the catalogue, the cart and the order
 * list it owns, the handlers that replace them, the category filter and the
 * hero slideshow step. Persistence is reduced to "the saved value or the
 * built-in default"; `Date.now()` ids and timestamps are parameters.
 */
module App {
  import opened Optionals
  import opened Types
  import opened Seqs
  import opened CartEngine
  import Seed
  import AdminPanel
  import BookingForm

  /** `saved ? JSON.parse(saved) : fallback`, with parsing left out. */
  function LoadOr<T>(saved: Option<T>, fallback: T): T
  {
    if saved.Some? then saved.value else fallback
  }

  function InCategory(category: string): MenuItem -> bool
  {
    (item: MenuItem) => item.category == category
  }

  /** `filteredMenu`: the items of the active category. */
  function FilteredMenu(menu: seq<MenuItem>, activeCategory: string): (r: seq<MenuItem>)
    ensures forall i :: 0 <= i < |r| ==> r[i].category == activeCategory && r[i] in menu
    ensures forall i :: 0 <= i < |menu| && menu[i].category == activeCategory ==> menu[i] in r
  {
    FilterMembers(menu, InCategory(activeCategory));
    var r := Filter(menu, InCategory(activeCategory));
    assert forall i :: 0 <= i < |r| ==> InCategory(activeCategory)(r[i]);
    r
  }

  /** The filter keeps the menu's order: filtering a concatenation concatenates the filtered parts. */
  lemma FilteredMenuKeepsOrder(a: seq<MenuItem>, b: seq<MenuItem>, activeCategory: string)
    ensures FilteredMenu(a + b, activeCategory) == FilteredMenu(a, activeCategory) + FilteredMenu(b, activeCategory)
    ensures FilteredMenu([], activeCategory) == []
  {
    FilterConcat(a, b, InCategory(activeCategory));
  }

  /** A menu whose items all belong to the active category is shown whole. */
  lemma FilteredMenuWhole(menu: seq<MenuItem>, activeCategory: string)
    requires forall i :: 0 <= i < |menu| ==> menu[i].category == activeCategory
    ensures FilteredMenu(menu, activeCategory) == menu
  {
    FilterKeepsAll(menu, InCategory(activeCategory));
  }

  /** One tick of the slideshow timer: advance modulo the number of slides, if there are any. */
  function NextHeroImage(current: nat, slideCount: nat): (r: nat)
    ensures slideCount > 0 ==> r < slideCount
    ensures slideCount == 0 ==> r == current
    ensures current + 1 < slideCount ==> r == current + 1
    ensures current + 1 == slideCount ==> r == 0
  {
    if slideCount > 0 then (current + 1) % slideCount else current
  }

  /**
   * `k` ticks from index `start` show slide `(start + k) mod count`. This
   * holds for any `start`, including an index left past the end after slides
   * were deleted, once at least one tick has happened; with `start` in range
   * it holds from the start, so `slideCount` ticks come back to that slide.
   */
  lemma {:induction false} HeroImageCycle(start: nat, slideCount: nat, k: nat)
    requires slideCount > 0
    ensures (k >= 1 || start < slideCount) ==> HeroTicks(start, slideCount, k) == (start + k) % slideCount
  {
    if k == 0 {
      if start < slideCount {
        ModOfSum(start, slideCount, 0, start);
      }
    } else if k == 1 {
      assert HeroTicks(start, slideCount, 1) == NextHeroImage(start, slideCount);
    } else {
      HeroImageCycle(start, slideCount, k - 1);
      var before := HeroTicks(start, slideCount, k - 1);
      assert before == (start + k - 1) % slideCount;
      HeroStep(start + k - 1, slideCount);
      assert HeroTicks(start, slideCount, k) == NextHeroImage(before, slideCount);
    }
  }

  /** One tick from the slide `a mod count` shows slide `(a + 1) mod count`. */
  lemma HeroStep(a: nat, slideCount: nat)
    requires slideCount > 0
    ensures NextHeroImage(a % slideCount, slideCount) == (a + 1) % slideCount
  {
    var d, r := a / slideCount, a % slideCount;
    assert a == d * slideCount + r;
    if r + 1 < slideCount {
      ModOfSum(a + 1, slideCount, d, r + 1);
    } else {
      assert (d + 1) * slideCount == d * slideCount + slideCount;
      ModOfSum(a + 1, slideCount, d + 1, 0);
    }
  }

  /** `n % m` is the remainder of any decomposition `n == q * m + rem` with `0 <= rem < m`. */
  lemma ModOfSum(n: int, m: int, q: int, rem: int)
    requires m > 0 && n == q * m + rem && 0 <= rem < m
    ensures n % m == rem
  {
    var d, r := n / m, n % m;
    assert n == d * m + r;
    assert (q - d) * m == q * m - d * m;
    assert (q - d) * m == r - rem;
    if q > d {
      MulAtLeast(q - d, m);
    } else if q < d {
      MulAtLeast(d - q, m);
    }
  }

  lemma {:induction false} MulAtLeast(a: nat, m: nat)
    requires a >= 1
    ensures a * m >= m
  {
    if a > 1 {
      MulAtLeast(a - 1, m);
      assert a * m == (a - 1) * m + m;
    }
  }

  function HeroTicks(current: nat, slideCount: nat, k: nat): nat
  {
    if k == 0 then current else NextHeroImage(HeroTicks(current, slideCount, k - 1), slideCount)
  }

  /** The order `handleOrderSubmit` builds from the form's data. */
  function NewOrder(data: OrderData, id: string, createdAt: int): (o: Order)
    ensures o.status == Pending && o.id == id && o.createdAt == createdAt
    ensures o.items == data.items && o.total == data.total
    ensures o.customerName == data.customerName && o.address == data.address && o.phone == data.phone
    ensures o.timing == data.timing && o.paymentMethod == data.paymentMethod
  {
    Order(id, data.customerName, data.address, data.phone, data.items, data.total,
      data.timing, data.paymentMethod, Pending, createdAt)
  }

  /** `[newOrder, ...orders]`: the new order first, every earlier one after it in place. */
  function PlaceOrder(orders: seq<Order>, data: OrderData, id: string, createdAt: int): (r: seq<Order>)
    ensures |r| == |orders| + 1 && r[0] == NewOrder(data, id, createdAt) && r[1..] == orders
  {
    [NewOrder(data, id, createdAt)] + orders
  }

  /** Deleting an order just placed under a fresh id gives the earlier list back. */
  lemma PlaceThenDeleteOrder(orders: seq<Order>, data: OrderData, id: string, createdAt: int)
    requires forall i :: 0 <= i < |orders| ==> orders[i].id != id
    ensures AdminPanel.DeleteOrder(PlaceOrder(orders, data, id, createdAt), id, true) == orders
  {
    var keep := AdminPanel.OtherOrderId(id);
    FilterConcat([NewOrder(data, id, createdAt)], orders, keep);
    FilterDropsAll([NewOrder(data, id, createdAt)], keep);
    FilterKeepsAll(orders, keep);
  }

  /**
   * Checkout end to end: the order placed from the form holds the cart as it
   * was and a total equal to that cart's total, and starts out pending.
   */
  lemma CheckoutSnapshot(orders: seq<Order>, form: BookingForm.FormData, cart: seq<CartItem>, id: string, createdAt: int)
    requires BookingForm.RequiredFilled(form)
    ensures var o := PlaceOrder(orders, BookingForm.HandleSubmit(form, cart, TotalPrice(cart)), id, createdAt)[0];
      o.items == cart && o.total == TotalPrice(o.items) && o.status == Pending
      && o.address == BookingForm.FullAddress(form.houseNumber, form.address)
  {
  }

  class Storefront {
    var menu: seq<MenuItem>
    var categories: seq<string>
    var heroImages: seq<string>
    var orders: seq<Order>
    var activeCategory: string
    var cart: seq<CartItem>
    var isCartOpen: bool
    var showBookingForm: bool
    var isOrderSuccess: bool
    var currentHeroImage: nat

    ghost predicate Valid()
      reads this
    {
      CartValid(cart)
    }

    /** Start-up: each collection is its saved value or the built-in default; the cart starts empty. */
    constructor (savedMenu: Option<seq<MenuItem>>, savedCategories: Option<seq<string>>,
                 savedSlides: Option<seq<string>>, savedOrders: Option<seq<Order>>)
      ensures Valid()
      ensures menu == LoadOr(savedMenu, Seed.InitialMenu)
      ensures categories == LoadOr(savedCategories, Seed.InitialCategories)
      ensures heroImages == LoadOr(savedSlides, Seed.InitialHeroImages)
      ensures orders == LoadOr(savedOrders, [])
      ensures activeCategory == if |categories| > 0 then categories[0] else ""
      ensures cart == [] && currentHeroImage == 0
      ensures !isCartOpen && !showBookingForm && !isOrderSuccess
    {
      menu := LoadOr(savedMenu, Seed.InitialMenu);
      var loadedCategories := LoadOr(savedCategories, Seed.InitialCategories);
      categories := loadedCategories;
      heroImages := LoadOr(savedSlides, Seed.InitialHeroImages);
      orders := LoadOr(savedOrders, []);
      activeCategory := if |loadedCategories| > 0 then loadedCategories[0] else "";
      cart := [];
      isCartOpen, showBookingForm, isOrderSuccess := false, false, false;
      currentHeroImage := 0;
    }

    /** `handleAddToCart`, which also opens the cart drawer. */
    method AddToCart(item: MenuItem, option: Option<MenuItemOption>)
      requires Valid()
      requires !HasLine(cart, item.id, LabelOf(option)) ==> PriceResolvable(item, option)
      modifies this`cart, this`isCartOpen
      ensures Valid()
      ensures cart == CartEngine.AddToCart(old(cart), item, option)
      ensures CartCount(cart) == CartCount(old(cart)) + 1
      ensures isCartOpen
    {
      AddPreservesValid(cart, item, option);
      if HasLine(cart, item.id, LabelOf(option)) {
        var i := FindLine(cart, item.id, LabelOf(option));
        AddExisting(cart, item, option, i);
      } else {
        AddNew(cart, item, option);
      }
      cart := CartEngine.AddToCart(cart, item, option);
      isCartOpen := true;
    }

    /** `handleUpdateQuantity`. */
    method UpdateQuantity(id: string, optionLabel: Option<string>, delta: int)
      requires Valid()
      modifies this`cart
      ensures Valid()
      ensures cart == CartEngine.UpdateQuantity(old(cart), id, optionLabel, delta)
    {
      UpdateQuantityPreservesValid(cart, id, optionLabel, delta);
      cart := CartEngine.UpdateQuantity(cart, id, optionLabel, delta);
    }

    /** `handleRemoveItem`. */
    method RemoveItem(id: string, optionLabel: Option<string>)
      requires Valid()
      modifies this`cart
      ensures Valid()
      ensures cart == CartEngine.RemoveItem(old(cart), id, optionLabel)
    {
      RemovePreservesValid(cart, id, optionLabel);
      cart := CartEngine.RemoveItem(cart, id, optionLabel);
    }

    /** `handleCheckoutClick`: close the drawer, open the booking form. */
    method CheckoutClick()
      modifies this`isCartOpen, this`showBookingForm
      ensures !isCartOpen && showBookingForm
    {
      isCartOpen, showBookingForm := false, true;
    }

    /**
     * `handleOrderSubmit`: prepend the new pending order, close the form,
     * show the success message and empty the cart. The menu, categories and
     * slides are untouched.
     */
    method OrderSubmit(data: OrderData, id: string, createdAt: int)
      requires Valid()
      modifies this`orders, this`cart, this`showBookingForm, this`isOrderSuccess
      ensures Valid()
      ensures orders == PlaceOrder(old(orders), data, id, createdAt)
      ensures orders[0].status == Pending && orders[1..] == old(orders)
      ensures cart == [] && !showBookingForm && isOrderSuccess
    {
      orders := PlaceOrder(orders, data, id, createdAt);
      showBookingForm, isOrderSuccess := false, true;
      cart := [];
    }

    /** A category button. */
    method SelectCategory(category: string)
      modifies this`activeCategory
      ensures activeCategory == category
    {
      activeCategory := category;
    }

    /** The slideshow timer's callback. */
    method HeroTick()
      modifies this`currentHeroImage
      ensures currentHeroImage == NextHeroImage(old(currentHeroImage), |heroImages|)
      ensures |heroImages| > 0 ==> currentHeroImage < |heroImages|
    {
      if |heroImages| > 0 {
        currentHeroImage := (currentHeroImage + 1) % |heroImages|;
      }
    }

    /** `onUpdateMenu`, called with a list the admin panel computed. */
    method UpdateMenu(newMenu: seq<MenuItem>)
      modifies this`menu
      ensures menu == newMenu
    {
      menu := newMenu;
    }

    /** `onUpdateCategories`. */
    method UpdateCategories(newCategories: seq<string>)
      modifies this`categories
      ensures categories == newCategories
    {
      categories := newCategories;
    }

    /** `onUpdateHeroImages`. */
    method UpdateHeroImages(newImages: seq<string>)
      modifies this`heroImages
      ensures heroImages == newImages
    {
      heroImages := newImages;
    }

    /** `onUpdateOrders`. */
    method UpdateOrders(newOrders: seq<Order>)
      modifies this`orders
      ensures orders == newOrders
    {
      orders := newOrders;
    }
  }
}
