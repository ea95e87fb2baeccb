/** Cart entries, the lookups the cart engine performs on them, and an
    abstract view of a cart as a finite map from product id to quantity. */
module Cart {

  datatype Option<+T> = None | Some(value: T)

  /** Product data as the catalogue endpoint `products/{id}` serves it. */
  datatype Metadata = Metadata(id: int, title: string, price: real, image: string)

  /** One cart entry: the catalogue data plus the selected quantity. */
  datatype Product = Product(id: int, title: string, price: real, image: string, amount: int)

  /** The cart is an ordered sequence of entries, in insertion order. */
  type Cart = seq<Product>

  /** The catalogue part of an entry, everything but the quantity. */
  function MetadataOf(p: Product): (m: Metadata)
  {
    Metadata(p.id, p.title, p.price, p.image)
  }

  /** The entry a first add builds: the catalogue record with amount 1. */
  function NewEntry(m: Metadata): (p: Product)
    ensures MetadataOf(p) == m
    ensures p.amount == 1
  {
    Product(m.id, m.title, m.price, m.image, 1)
  }

  /** Some entry of the cart carries product id `id`. */
  predicate Contains(cart: Cart, id: int)
  {
    exists i :: 0 <= i < |cart| && cart[i].id == id
  }

  /** Position of the FIRST entry whose id is `id`, like `Array.find`/`findIndex`. */
  function FindIndex(cart: Cart, id: int): (r: Option<nat>)
    ensures r.None? <==> !Contains(cart, id)
    ensures r.Some? ==> r.value < |cart| && cart[r.value].id == id
    ensures r.Some? ==> forall j :: 0 <= j < r.value ==> cart[j].id != id
  {
    if |cart| == 0 then None
    else if cart[0].id == id then Some(0)
    else
      match FindIndex(cart[1..], id)
      case None => None
      case Some(k) => Some(k + 1)
  }

  /** Quantity currently selected for `id`: the first matching entry's amount, or 0. */
  function CurrentAmount(cart: Cart, id: int): (r: int)
    ensures !Contains(cart, id) ==> r == 0
    ensures UniqueIds(cart) ==> forall i :: 0 <= i < |cart| && cart[i].id == id ==> r == cart[i].amount
  {
    match FindIndex(cart, id)
    case Some(i) => cart[i].amount
    case None => 0
  }

  /** At most one entry per product id. */
  predicate UniqueIds(cart: Cart)
  {
    forall i, j :: 0 <= i < j < |cart| ==> cart[i].id != cart[j].id
  }

  /** Every entry has a quantity of at least one. */
  predicate PositiveAmounts(cart: Cart)
  {
    forall i :: 0 <= i < |cart| ==> cart[i].amount >= 1
  }

  /** The cart invariant the engine maintains from a valid starting cart. */
  predicate Valid(cart: Cart)
  {
    UniqueIds(cart) && PositiveAmounts(cart)
  }

  /** `after` is `before` with exactly the entry at `i` given amount `a`. */
  predicate OnlyAmountChanged(before: Cart, after: Cart, i: nat, a: int)
  {
    && i < |before|
    && |after| == |before|
    && after[i] == before[i].(amount := a)
    && forall j :: 0 <= j < |before| && j != i ==> after[j] == before[j]
  }

  /** `after` is `before` with `p` added at the end. */
  predicate AppendedAtEnd(before: Cart, after: Cart, p: Product)
  {
    && |after| == |before| + 1
    && after[..|before|] == before
    && after[|before|] == p
  }

  /** `after` is `before` without the entry at `i`, the rest in their order. */
  predicate RemovedAt(before: Cart, after: Cart, i: nat)
  {
    && i < |before|
    && |after| == |before| - 1
    && (forall j :: 0 <= j < i ==> after[j] == before[j])
    && (forall j :: i <= j < |after| ==> after[j] == before[j + 1])
  }

  /** Copy-on-write replacement of one entry's amount. */
  function SetAmount(cart: Cart, i: nat, a: int): (r: Cart)
    requires i < |cart|
    ensures OnlyAmountChanged(cart, r, i, a)
  {
    cart[i := cart[i].(amount := a)]
  }

  /** The sequence without the entry at `i` (`splice(i, 1)`). */
  function RemoveAt(cart: Cart, i: nat): (r: Cart)
    requires i < |cart|
    ensures RemovedAt(cart, r, i)
  {
    cart[..i] + cart[i + 1..]
  }

  /** The cart seen as a map from product id to selected quantity; an earlier
      entry hides a later one with the same id, as the first-match lookup does. */
  function View(cart: Cart): (m: map<int, int>)
  {
    if |cart| == 0 then map[]
    else View(cart[1..])[cart[0].id := cart[0].amount]
  }

  /** The view holds a key exactly for each id in the cart, mapped to the
      quantity the first-match lookup reports. */
  lemma {:induction false} ViewMeaning(cart: Cart, id: int)
    ensures id in View(cart) <==> Contains(cart, id)
    ensures id in View(cart) ==> View(cart)[id] == CurrentAmount(cart, id)
  {
    if |cart| > 0 && cart[0].id != id {
      ViewMeaning(cart[1..], id);
      if Contains(cart, id) {
        var j :| 0 <= j < |cart| && cart[j].id == id;
        assert cart[1..][j - 1] == cart[j];
      }
      if Contains(cart[1..], id) {
        var j :| 0 <= j < |cart[1..]| && cart[1..][j].id == id;
        assert cart[j + 1] == cart[1..][j];
      }
    }
  }

  /** Appending a product whose id is absent keeps the invariant. */
  lemma AppendKeepsValid(cart: Cart, p: Product)
    requires Valid(cart) && !Contains(cart, p.id) && p.amount >= 1
    ensures Valid(cart + [p])
  {
    var c := cart + [p];
    forall i, j | 0 <= i < j < |c|
      ensures c[i].id != c[j].id
    {
      if j == |cart| {
        assert c[i] == cart[i];
      }
    }
  }

  /** Giving the first entry with some id a new quantity rewrites exactly that
      key of the view. */
  lemma {:induction false} ViewSetAmount(cart: Cart, i: nat, a: int)
    requires i < |cart| && FindIndex(cart, cart[i].id) == Some(i)
    ensures View(SetAmount(cart, i, a)) == View(cart)[cart[i].id := a]
  {
    var c := SetAmount(cart, i, a);
    if i == 0 {
      assert c[1..] == cart[1..];
    } else {
      assert c[1..] == SetAmount(cart[1..], i - 1, a);
      assert cart[1..][i - 1] == cart[i];
      assert cart[0].id != cart[i].id;
      ViewSetAmount(cart[1..], i - 1, a);
      MapUpdatesCommute(View(cart[1..]), cart[0].id, cart[0].amount, cart[i].id, a);
    }
  }

  /** With unique ids, the first entry's id occurs nowhere in the rest, and the
      rest has unique ids. */
  lemma UniqueTail(cart: Cart)
    requires UniqueIds(cart) && |cart| > 0
    ensures UniqueIds(cart[1..])
    ensures !Contains(cart[1..], cart[0].id)
  {
    forall j | 0 <= j < |cart| - 1
      ensures cart[1..][j].id != cart[0].id
    {
      assert cart[1..][j] == cart[j + 1];
    }
  }

  /** Removing the entry at `i` removes exactly its id from the view. */
  lemma {:induction false} ViewRemoveAt(cart: Cart, i: nat)
    requires UniqueIds(cart) && i < |cart|
    ensures View(RemoveAt(cart, i)) == View(cart) - {cart[i].id}
  {
    UniqueTail(cart);
    if i == 0 {
      ViewRemoveHead(cart);
    } else {
      var tail := cart[1..];
      assert tail[i - 1] == cart[i];
      ViewRemoveAt(tail, i - 1);
      ViewRemoveLater(cart, i);
    }
  }

  /** Removing the first entry, whose id occurs nowhere else, drops its key. */
  lemma ViewRemoveHead(cart: Cart)
    requires |cart| > 0 && !Contains(cart[1..], cart[0].id)
    ensures View(RemoveAt(cart, 0)) == View(cart) - {cart[0].id}
  {
    assert RemoveAt(cart, 0) == cart[1..];
    ViewMeaning(cart[1..], cart[0].id);
    assert View(cart) == View(cart[1..])[cart[0].id := cart[0].amount];
    MapUpdateRemove(View(cart[1..]), cart[0].id, cart[0].amount);
  }

  /** Writing a fresh key and removing it again gives back the map. */
  lemma MapUpdateRemove(m: map<int, int>, k: int, v: int)
    requires k !in m
    ensures m[k := v] - {k} == m
  {
  }

  /** One inductive step of `ViewRemoveAt` past a first entry with another id. */
  lemma ViewRemoveLater(cart: Cart, i: nat)
    requires 0 < i < |cart| && cart[0].id != cart[i].id
    requires View(RemoveAt(cart[1..], i - 1)) == View(cart[1..]) - {cart[i].id}
    ensures View(RemoveAt(cart, i)) == View(cart) - {cart[i].id}
  {
    var tail := cart[1..];
    var c := RemoveAt(cart, i);
    assert c[0] == cart[0];
    assert c[1..] == RemoveAt(tail, i - 1);
    MapRemoveUpdate(View(tail), cart[i].id, cart[0].id, cart[0].amount);
  }

  /** Removing one key and writing a different key commute. */
  lemma MapRemoveUpdate(m: map<int, int>, x: int, k: int, v: int)
    requires x != k
    ensures (m - {x})[k := v] == m[k := v] - {x}
  {
  }

  /** Writing two different keys commutes. */
  lemma MapUpdatesCommute(m: map<int, int>, k1: int, v1: int, k2: int, v2: int)
    requires k1 != k2
    ensures m[k2 := v2][k1 := v1] == m[k1 := v1][k2 := v2]
  {
  }

  /** Appending a product whose id is absent adds exactly that key to the view. */
  lemma {:induction false} ViewAppend(cart: Cart, p: Product)
    requires !Contains(cart, p.id)
    ensures View(cart + [p]) == View(cart)[p.id := p.amount]
  {
    if |cart| == 0 {
      assert [] + [p] == [p];
    } else {
      var c := cart + [p];
      assert c[1..] == cart[1..] + [p];
      assert !Contains(cart[1..], p.id) by {
        forall j | 0 <= j < |cart[1..]|
          ensures cart[1..][j].id != p.id
        {
          assert cart[1..][j] == cart[j + 1];
        }
      }
      ViewAppend(cart[1..], p);
      assert cart[0].id != p.id;
      MapUpdatesCommute(View(cart[1..]), cart[0].id, cart[0].amount, p.id, p.amount);
    }
  }
}
