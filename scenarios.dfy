/** Worked examples over the built-in catalogue. */
module Scenarios {
  import opened Optionals
  import opened Types
  import opened CartEngine
  import opened Seed
  import opened Seqs
  import AdminPanel
  import MenuCard
  import App

  /** Every built-in item can be added straight from its card: its default selection prices it. */
  lemma SeedItemsPriceable()
    ensures forall i :: 0 <= i < |InitialMenu| ==> PriceResolvable(InitialMenu[i], MenuCard.DefaultOption(InitialMenu[i]))
  {
    forall i | 0 <= i < |InitialMenu|
      ensures PriceResolvable(InitialMenu[i], MenuCard.DefaultOption(InitialMenu[i]))
    {
      assert InitialMenu[i].options.Some? ==> i == 5;
    }
  }

  /** Momo (id "4", 100 taka) added twice: one line of quantity 2, total 200. */
  lemma MomoTwice()
    ensures AddToCart(AddToCart([], Momo, None), Momo, None) == [CartItem(Momo, 2, None, 100)]
    ensures TotalPrice(AddToCart(AddToCart([], Momo, None), Momo, None)) == 200
  {
    AddTimesOneLine([], Momo, None, 2);
    var r := AddToCart(AddToCart([], Momo, None), Momo, None);
    assert r == AddTimes([], Momo, None, 2);
    var line := CartItem(Momo, 2, None, 100);
    SumSingleton(line, LineSubtotal);
  }

  /** Nachos (id "8") as half (30) and full (50): two lines, total 80. */
  lemma NachosBothSizes()
    ensures AddToCart(AddToCart([], Nachos, Some(Half)), Nachos, Some(Full))
      == [CartItem(Nachos, 1, Some("হাফ"), 30), CartItem(Nachos, 1, Some("ফুল"), 50)]
    ensures TotalPrice(AddToCart(AddToCart([], Nachos, Some(Half)), Nachos, Some(Full))) == 80
  {
    AddDistinctOptions([], Nachos, Half, Full);
    var r := AddToCart(AddToCart([], Nachos, Some(Half)), Nachos, Some(Full));
    var half, full := CartItem(Nachos, 1, Some("হাফ"), 30), CartItem(Nachos, 1, Some("ফুল"), 50);
    assert r == [half, full];
    assert [half, full][..1] == [half];
    SumSingleton(half, LineSubtotal);
  }

  /** A line of quantity 1 lowered by 5 stays at 1. */
  lemma QuantityClampsAtOne(item: MenuItem)
    ensures UpdateQuantity([CartItem(item, 1, None, 150)], item.id, None, -5) == [CartItem(item, 1, None, 150)]
  {
    UpdateQuantityAt([CartItem(item, 1, None, 150)], 0, -5);
  }

  /** Confirming a freshly placed order twice leaves it confirmed. */
  lemma ConfirmTwice(data: OrderData, id: string, createdAt: int)
    ensures var placed := App.PlaceOrder([], data, id, createdAt);
      AdminPanel.ConfirmOrder(AdminPanel.ConfirmOrder(placed, id), id)[0].status == Confirmed
  {
    AdminPanel.ConfirmOrderIdempotent(App.PlaceOrder([], data, id, createdAt), id);
  }

  /**
   * Slide 3 of 4 is showing when the admin deletes a slide: the index is not
   * reset, and the next tick shows slide 1 of the remaining 3.
   */
  lemma TickAfterSlideDeleted(slides: seq<string>, idx: nat)
    requires |slides| == 4 && idx < 4
    ensures |AdminPanel.DeleteSlide(slides, idx)| == 3
    ensures App.HeroTicks(3, |AdminPanel.DeleteSlide(slides, idx)|, 1) == 1
  {
    App.HeroImageCycle(3, 3, 1);
  }
}
