/** The three cart transitions of the cart engine, as pure functions from the
    current cart and the answers of the inventory service to the next cart and
    an outcome tag. A result whose outcome is not `Committed` carries the cart
    it was given. */
module Operations {
  import opened Cart

  /** The four user-facing failure messages. */
  datatype Message = OutOfStock | AddFailed | RemoveFailed | UpdateFailed

  /** The notification text shown for each message. */
  function Text(m: Message): (r: string)
    ensures m == OutOfStock <==> r == "Quantidade solicitada fora de estoque"
    ensures m == AddFailed <==> r == "Erro na adição do produto"
    ensures m == RemoveFailed <==> r == "Erro na remoção do produto"
    ensures m == UpdateFailed <==> r == "Erro na alteração de quantidade do produto"
  {
    match m
    case OutOfStock => "Quantidade solicitada fora de estoque"
    case AddFailed => "Erro na adição do produto"
    case RemoveFailed => "Erro na remoção do produto"
    case UpdateFailed => "Erro na alteração de quantidade do produto"
  }

  /** How an operation ended: a new cart to commit, a silent no-op, or a
      rejection reported through the notifier. */
  datatype Outcome = Committed | Ignored | Rejected(reason: Message)

  /** The catalogue answered with the record of the product that was asked for
      (or did not answer). The new entry takes its id from that record. */
  predicate CatalogueAnswers(productId: int, meta: Option<Metadata>)
  {
    meta.None? || meta.value.id == productId
  }

  /** `addProduct(productId)`. `stock` is the answer of `stock/{productId}`
      (`None` when the request fails); `meta` is what `products/{productId}`
      would answer, consulted only for a product not yet in the cart. */
  function AddProduct(cart: Cart, productId: int, stock: Option<int>, meta: Option<Metadata>): (r: (Cart, Outcome))
    // Anything but a commit leaves the cart as it was.
    ensures !r.1.Committed? ==> r.0 == cart
    ensures !r.1.Ignored?
    // A failed stock lookup.
    ensures stock.None? ==> r.1 == Rejected(AddFailed)
    // One more unit than the stock holds.
    ensures stock.Some? && CurrentAmount(cart, productId) + 1 > stock.value ==> r.1 == Rejected(OutOfStock)
    // Stock allows it and the product is in the cart: that entry goes up by one.
    ensures stock.Some? && CurrentAmount(cart, productId) + 1 <= stock.value && Contains(cart, productId) ==>
              r.1 == Committed
              && OnlyAmountChanged(cart, r.0, FindIndex(cart, productId).value, CurrentAmount(cart, productId) + 1)
    // Stock allows it and the product is new: appended with amount 1, or a failed catalogue lookup.
    ensures stock.Some? && 1 <= stock.value && !Contains(cart, productId) ==>
              if meta.Some? then r.1 == Committed && AppendedAtEnd(cart, r.0, NewEntry(meta.value))
              else r.1 == Rejected(AddFailed)
    // Every entry written is within the stock this call observed.
    ensures r.1.Committed? ==> stock.Some? && forall j :: 0 <= j < |r.0| && (j >= |cart| || r.0[j] != cart[j]) ==> r.0[j].amount <= stock.value
  {
    var found := FindIndex(cart, productId);
    match stock
    case None => (cart, Rejected(AddFailed))
    case Some(available) =>
      var current := if found.Some? then cart[found.value].amount else 0;
      var desired := current + 1;
      if desired > available then (cart, Rejected(OutOfStock))
      else
        match found
        case Some(i) => (SetAmount(cart, i, desired), Committed)
        case None =>
          match meta
          case None => (cart, Rejected(AddFailed))
          case Some(m) => (cart + [NewEntry(m)], Committed)
  }

  /** `removeProduct(productId)`: delete the first entry with that id. */
  function RemoveProduct(cart: Cart, productId: int): (r: (Cart, Outcome))
    ensures !r.1.Committed? ==> r.0 == cart
    ensures r.1.Committed? || r.1 == Rejected(RemoveFailed)
    ensures r.1.Committed? <==> Contains(cart, productId)
    ensures r.1.Committed? ==> RemovedAt(cart, r.0, FindIndex(cart, productId).value)
  {
    match FindIndex(cart, productId)
    case None => (cart, Rejected(RemoveFailed))
    case Some(i) => (RemoveAt(cart, i), Committed)
  }

  /** `updateProductAmount({productId, amount})`. `stock` is the answer of
      `stock/{productId}`, `None` when the request fails. */
  function UpdateProductAmount(cart: Cart, productId: int, amount: int, stock: Option<int>): (r: (Cart, Outcome))
    ensures !r.1.Committed? ==> r.0 == cart
    // A non-positive amount is a silent no-op, and the only one.
    ensures r.1.Ignored? <==> amount <= 0
    ensures amount > 0 && stock.None? ==> r.1 == Rejected(UpdateFailed)
    // The stock check comes before the presence check.
    ensures amount > 0 && stock.Some? && amount > stock.value ==> r.1 == Rejected(OutOfStock)
    ensures 0 < amount && stock.Some? && amount <= stock.value ==>
              if Contains(cart, productId)
              then r.1 == Committed && OnlyAmountChanged(cart, r.0, FindIndex(cart, productId).value, amount)
              else r.1 == Rejected(UpdateFailed)
    ensures r.1.Committed? ==> stock.Some? && 1 <= amount <= stock.value
  {
    if amount <= 0 then (cart, Ignored)
    else
      match stock
      case None => (cart, Rejected(UpdateFailed))
      case Some(available) =>
        if amount > available then (cart, Rejected(OutOfStock))
        else
          match FindIndex(cart, productId)
          case None => (cart, Rejected(UpdateFailed))
          case Some(i) => (SetAmount(cart, i, amount), Committed)
  }

  /** Adding keeps the invariant: unique ids and positive amounts. */
  lemma AddKeepsValid(cart: Cart, productId: int, stock: Option<int>, meta: Option<Metadata>)
    requires Valid(cart) && CatalogueAnswers(productId, meta)
    ensures Valid(AddProduct(cart, productId, stock, meta).0)
  {
    var r := AddProduct(cart, productId, stock, meta);
    if r.1.Committed? && !Contains(cart, productId) {
      assert r.0 == cart + [NewEntry(meta.value)];
      AppendKeepsValid(cart, NewEntry(meta.value));
    }
  }

  /** Removing keeps the invariant. */
  lemma RemoveKeepsValid(cart: Cart, productId: int)
    requires Valid(cart)
    ensures Valid(RemoveProduct(cart, productId).0)
  {
    var r := RemoveProduct(cart, productId);
    if r.1.Committed? {
      var i := FindIndex(cart, productId).value;
      forall a, b | 0 <= a < b < |r.0|
        ensures r.0[a].id != r.0[b].id
      {
        var a' := if a < i then a else a + 1;
        var b' := if b < i then b else b + 1;
        assert r.0[a] == cart[a'] && r.0[b] == cart[b'];
      }
      forall a | 0 <= a < |r.0|
        ensures r.0[a].amount >= 1
      {
        assert r.0[a] == cart[if a < i then a else a + 1];
      }
    }
  }

  /** Updating keeps the invariant. */
  lemma UpdateKeepsValid(cart: Cart, productId: int, amount: int, stock: Option<int>)
    requires Valid(cart)
    ensures Valid(UpdateProductAmount(cart, productId, amount, stock).0)
  {
  }

  /** Seen as a map from id to quantity, a committed add raises the product's
      quantity by one (from 0 when new) and leaves every other product alone. */
  lemma AddView(cart: Cart, productId: int, stock: Option<int>, meta: Option<Metadata>)
    requires CatalogueAnswers(productId, meta)
    requires AddProduct(cart, productId, stock, meta).1.Committed?
    ensures View(AddProduct(cart, productId, stock, meta).0)
            == View(cart)[productId := CurrentAmount(cart, productId) + 1]
  {
    var r := AddProduct(cart, productId, stock, meta);
    match FindIndex(cart, productId)
    case Some(i) =>
      assert r.0 == SetAmount(cart, i, cart[i].amount + 1);
      ViewSetAmount(cart, i, cart[i].amount + 1);
    case None =>
      assert r.0 == cart + [NewEntry(meta.value)];
      ViewAppend(cart, NewEntry(meta.value));
  }

  /** As a map, remove deletes exactly the product's key (absent keys included). */
  lemma RemoveView(cart: Cart, productId: int)
    requires UniqueIds(cart)
    ensures View(RemoveProduct(cart, productId).0) == View(cart) - {productId}
  {
    match FindIndex(cart, productId)
    case Some(i) =>
      ViewRemoveAt(cart, i);
    case None =>
      ViewMeaning(cart, productId);
      assert View(cart) - {productId} == View(cart);
  }

  /** As a map, a committed update sets exactly the product's quantity. */
  lemma UpdateView(cart: Cart, productId: int, amount: int, stock: Option<int>)
    requires UpdateProductAmount(cart, productId, amount, stock).1.Committed?
    ensures View(UpdateProductAmount(cart, productId, amount, stock).0) == View(cart)[productId := amount]
  {
    ViewSetAmount(cart, FindIndex(cart, productId).value, amount);
  }

  /** Updating an entry to the quantity it already has changes nothing in the
      cart, whatever the stock service answers. For an absent product the
      current quantity is 0, so the update is the silent no-op. */
  lemma UpdateIdempotent(cart: Cart, productId: int, stock: Option<int>)
    ensures UpdateProductAmount(cart, productId, CurrentAmount(cart, productId), stock).0 == cart
  {
    if Contains(cart, productId) {
      var i := FindIndex(cart, productId).value;
      assert cart[i := cart[i].(amount := cart[i].amount)] == cart;
    }
  }

  /** Removing a product that was just added to the cart for the first time
      gives back the cart from before the add. */
  lemma {:induction false} RemoveUndoesAdd(cart: Cart, productId: int, stock: Option<int>, meta: Option<Metadata>)
    requires !Contains(cart, productId) && CatalogueAnswers(productId, meta)
    requires AddProduct(cart, productId, stock, meta).1.Committed?
    ensures RemoveProduct(AddProduct(cart, productId, stock, meta).0, productId) == (cart, Committed)
  {
    var added := AddProduct(cart, productId, stock, meta).0;
    assert added == cart + [NewEntry(meta.value)];
    FindIndexAfterAbsent(cart, NewEntry(meta.value));
    assert added[..|cart|] + added[|cart| + 1..] == cart;
  }

  /** The first match in `cart + [p]` of an id absent from `cart` is the new last entry. */
  lemma FindIndexAfterAbsent(cart: Cart, p: Product)
    requires !Contains(cart, p.id)
    ensures FindIndex(cart + [p], p.id) == Some(|cart|)
  {
    var c := cart + [p];
    assert c[|cart|].id == p.id;
    forall j | 0 <= j < |cart|
      ensures c[j].id != p.id
    {
      assert c[j] == cart[j];
    }
  }
}
