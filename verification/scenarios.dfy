/** Small example runs of the engine on concrete carts. */
module Scenarios {
  import opened Cart
  import opened Operations
  import opened Persistence

  const Shoe := Metadata(1, "Tenis de Caminhada", 179.9, "shoe.jpg")
  const Boot := Metadata(2, "Bota", 139.9, "boot.jpg")

  /** An empty cart and stock 5: the product is appended with amount 1 and
      stored (src/hooks/useCart.tsx:78-87). */
  lemma AddToEmptyCart()
    ensures Step(Start(None), Add(1, Some(5), Some(Shoe)), true)
            == (Engine([NewEntry(Shoe)], Some([NewEntry(Shoe)])), Committed)
  {
    assert AddProduct([], 1, Some(5), Some(Shoe)) == ([NewEntry(Shoe)], Committed);
  }

  /** One unit in the cart and one in stock: a second add is refused
      (src/hooks/useCart.tsx:67-73). */
  lemma AddBeyondStock()
    ensures var e := Start(Some([NewEntry(Shoe)]));
            Step(e, Add(1, Some(1), Some(Shoe)), true) == (e, Rejected(OutOfStock))
  {
  }

  /** Removing the only entry empties the cart and stores the empty cart
      (src/hooks/useCart.tsx:97-102). */
  lemma RemoveOnlyEntry()
    ensures Step(Start(Some([NewEntry(Shoe).(amount := 2)])), Remove(1), true) == (Engine([], Some([])), Committed)
  {
    assert RemoveAt([NewEntry(Shoe).(amount := 2)], 0) == [];
  }

  /** Three units in the cart, ten in stock: setting five commits five
      (src/hooks/useCart.tsx:120-134). */
  lemma UpdateWithinStock()
    ensures Step(Start(Some([NewEntry(Boot).(amount := 3)])), Update(2, 5, Some(10)), true)
            == (Engine([NewEntry(Boot).(amount := 5)], Some([NewEntry(Boot).(amount := 5)])), Committed)
  {
    assert SetAmount([NewEntry(Boot).(amount := 3)], 0, 5) == [NewEntry(Boot).(amount := 5)];
  }

  /** Removing from an empty cart reports the removal failure
      (src/hooks/useCart.tsx:97-107). */
  lemma RemoveFromEmptyCart()
    ensures Step(Start(None), Remove(99), true) == (Start(None), Rejected(RemoveFailed))
  {
  }

  /** Setting a quantity of zero does nothing and reports nothing, whatever
      the cart (src/hooks/useCart.tsx:116-118). */
  lemma UpdateToZeroIgnored(e: Engine, stock: Option<int>, saved: bool)
    ensures Step(e, Update(1, 0, stock), saved) == (e, Ignored)
  {
  }
}
