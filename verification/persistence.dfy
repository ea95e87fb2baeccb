/** The cart engine as a state machine: the in-memory cart together with the
    value stored under `@RocketShoes:cart`, hydration at start, and one step
    per operation that commits to both or to neither. */
module Persistence {
  import opened Cart
  import opened Operations

  /** Engine state: the in-memory cart and the stored copy (`None` when the
      store holds no value for the key). */
  datatype Engine = Engine(cart: Cart, stored: Option<Cart>)

  /** Hydration: the stored cart if there is one, otherwise the empty cart. */
  function Hydrate(stored: Option<Cart>): (c: Cart)
    ensures stored.None? ==> c == []
    ensures stored.Some? ==> c == stored.value
  {
    match stored
    case Some(c) => c
    case None => []
  }

  /** Reloading from the store would give back the in-memory cart. */
  predicate InSync(e: Engine)
  {
    Hydrate(e.stored) == e.cart
  }

  /** The engine as it starts: hydrated from whatever the store holds. */
  function Start(stored: Option<Cart>): (e: Engine)
    ensures InSync(e)
    ensures e.stored == stored
    ensures stored.None? ==> e.cart == []
  {
    Engine(Hydrate(stored), stored)
  }

  /** One call into the engine, carrying the answers its collaborators give. */
  datatype Op =
    | Add(productId: int, stock: Option<int>, meta: Option<Metadata>)
    | Remove(productId: int)
    | Update(productId: int, amount: int, stock: Option<int>)

  /** The collaborator answers are the ones the engine relies on. */
  predicate WellFormed(op: Op)
  {
    op.Add? ==> CatalogueAnswers(op.productId, op.meta)
  }

  /** The pure transition an operation performs on the cart. */
  function Transition(cart: Cart, op: Op): (r: (Cart, Outcome))
  {
    match op
    case Add(id, stock, meta) => AddProduct(cart, id, stock, meta)
    case Remove(id) => RemoveProduct(cart, id)
    case Update(id, amount, stock) => UpdateProductAmount(cart, id, amount, stock)
  }

  /** The message the operation's catch-all handler reports. */
  function FailureMessage(op: Op): (m: Message)
    ensures m != OutOfStock
    ensures op.Add? <==> m == AddFailed
    ensures op.Remove? <==> m == RemoveFailed
    ensures op.Update? <==> m == UpdateFailed
  {
    match op
    case Add(_, _, _) => AddFailed
    case Remove(_) => RemoveFailed
    case Update(_, _, _) => UpdateFailed
  }

  /** One operation, with `saved` telling whether writing the store succeeds.
      A commit updates the cart and the store together; a failed write is
      reported with the operation's failure message and changes neither. */
  function Step(e: Engine, op: Op, saved: bool): (r: (Engine, Outcome))
    ensures r.1.Committed? <==> saved && Transition(e.cart, op).1.Committed?
    ensures r.1.Committed? ==> r.0.cart == Transition(e.cart, op).0 && r.0.stored == Some(r.0.cart)
    ensures !r.1.Committed? ==> r.0 == e
    // A rejection or a silent no-op of the operation is reported as it is.
    ensures !Transition(e.cart, op).1.Committed? ==> r == (e, Transition(e.cart, op).1)
    ensures !saved && Transition(e.cart, op).1.Committed? ==> r.1 == Rejected(FailureMessage(op))
    ensures InSync(e) ==> InSync(r.0)
  {
    var (next, outcome) := Transition(e.cart, op);
    if !outcome.Committed? then (e, outcome)
    else if saved then (Engine(next, Some(next)), Committed)
    else (e, Rejected(FailureMessage(op)))
  }

  /** The step as the source orders it: the in-memory cart is set before the
      store is written, so a failing write still changes the in-memory cart. */
  function StepAsWritten(e: Engine, op: Op, saved: bool): (r: (Engine, Outcome))
    ensures r.1.Committed? <==> saved && Transition(e.cart, op).1.Committed?
    ensures r.1.Committed? ==> r.0.cart == Transition(e.cart, op).0 && r.0.stored == Some(r.0.cart)
    ensures !Transition(e.cart, op).1.Committed? ==> r == (e, Transition(e.cart, op).1)
    ensures !saved && Transition(e.cart, op).1.Committed? ==>
              r.1 == Rejected(FailureMessage(op)) && r.0.cart == Transition(e.cart, op).0 && r.0.stored == e.stored
  {
    var (next, outcome) := Transition(e.cart, op);
    if !outcome.Committed? then (e, outcome)
    else if saved then (Engine(next, Some(next)), Committed)
    else (Engine(next, e.stored), Rejected(FailureMessage(op)))
  }

  /** Whenever the store write succeeds, the source's ordering and the
      corrected step agree. */
  lemma AsWrittenAgreesWhenSaved(e: Engine, op: Op)
    ensures StepAsWritten(e, op, true) == Step(e, op, true)
  {
  }

  /** A first add into an empty cart whose store write fails leaves the source's
      engine with a one-entry cart in memory and nothing stored, while the add
      is reported as failed. */
  lemma AsWrittenLosesSync()
    ensures var e := Start(None);
            var op := Add(1, Some(5), Some(Metadata(1, "Tenis", 179.9, "tenis.jpg")));
            var r := StepAsWritten(e, op, false);
            InSync(e) && r.1 == Rejected(AddFailed) && !InSync(r.0) && |r.0.cart| == 1
  {
    var m := Metadata(1, "Tenis", 179.9, "tenis.jpg");
    assert AddProduct([], 1, Some(5), Some(m)) == ([NewEntry(m)], Committed);
  }

  /** Every step keeps the cart invariant. */
  lemma StepKeepsValid(e: Engine, op: Op, saved: bool)
    requires Valid(e.cart) && WellFormed(op)
    ensures Valid(Step(e, op, saved).0.cart)
  {
    match op
    case Add(id, stock, meta) => AddKeepsValid(e.cart, id, stock, meta);
    case Remove(id) => RemoveKeepsValid(e.cart, id);
    case Update(id, amount, stock) => UpdateKeepsValid(e.cart, id, amount, stock);
  }

  /** Updating an entry to the quantity it already has leaves the whole
      engine state, in memory and in the store, as it was. */
  lemma StepUpdateIdempotent(e: Engine, id: int, stock: Option<int>, saved: bool)
    requires InSync(e)
    ensures Step(e, Update(id, CurrentAmount(e.cart, id), stock), saved).0 == e
  {
    UpdateIdempotent(e.cart, id, stock);
  }

  /** The same holds with the source's step ordering, a failed store write
      included: the cart it installs in memory is the cart already there. */
  lemma StepAsWrittenUpdateIdempotent(e: Engine, id: int, stock: Option<int>, saved: bool)
    requires InSync(e)
    ensures StepAsWritten(e, Update(id, CurrentAmount(e.cart, id), stock), saved).0 == e
  {
    UpdateIdempotent(e.cart, id, stock);
  }

  /** A call together with the outcome of its store write. */
  datatype Call = Call(op: Op, saved: bool)

  /** The engine after a sequence of calls, one after another. */
  function Run(e: Engine, calls: seq<Call>): (r: Engine)
    ensures InSync(e) ==> InSync(r)
    ensures |calls| == 0 ==> r == e
    decreases |calls|
  {
    if |calls| == 0 then e
    else Run(Step(e, calls[0].op, calls[0].saved).0, calls[1..])
  }

  /** The engine after a sequence of calls with the source's step ordering.
      It stays in sync with the store only while every store write succeeds. */
  function RunAsWritten(e: Engine, calls: seq<Call>): (r: Engine)
    ensures InSync(e) && (forall k :: 0 <= k < |calls| ==> calls[k].saved) ==> InSync(r)
    ensures |calls| == 0 ==> r == e
    decreases |calls|
  {
    if |calls| == 0 then e
    else RunAsWritten(StepAsWritten(e, calls[0].op, calls[0].saved).0, calls[1..])
  }

  /** As long as every store write succeeds, the source's engine runs exactly
      as the corrected one, so every property of `Run` holds of it. */
  lemma {:induction false} AsWrittenRunAgrees(e: Engine, calls: seq<Call>)
    requires forall k :: 0 <= k < |calls| ==> calls[k].saved
    ensures RunAsWritten(e, calls) == Run(e, calls)
    decreases |calls|
  {
    if |calls| > 0 {
      AsWrittenAgreesWhenSaved(e, calls[0].op);
      var e' := Step(e, calls[0].op, calls[0].saved).0;
      assert forall k :: 0 <= k < |calls[1..]| ==> calls[1..][k] == calls[k + 1];
      AsWrittenRunAgrees(e', calls[1..]);
    }
  }

  /** From a valid cart, any sequence of well-formed calls leaves a valid cart:
      no two entries share an id and every amount is at least one. */
  lemma {:induction false} RunKeepsValid(e: Engine, calls: seq<Call>)
    requires Valid(e.cart)
    requires forall k :: 0 <= k < |calls| ==> WellFormed(calls[k].op)
    ensures Valid(Run(e, calls).cart)
    decreases |calls|
  {
    if |calls| > 0 {
      StepKeepsValid(e, calls[0].op, calls[0].saved);
      var e' := Step(e, calls[0].op, calls[0].saved).0;
      assert forall k :: 0 <= k < |calls[1..]| ==> calls[1..][k] == calls[k + 1];
      RunKeepsValid(e', calls[1..]);
    }
  }

  /** Starting from the store and running any calls, the store always reloads
      to the cart in memory. */
  lemma RunFromStartInSync(stored: Option<Cart>, calls: seq<Call>)
    ensures InSync(Run(Start(stored), calls))
  {
  }

  /** The engine with the source's step ordering also keeps the cart invariant,
      failed store writes included. */
  lemma {:induction false} RunAsWrittenKeepsValid(e: Engine, calls: seq<Call>)
    requires Valid(e.cart)
    requires forall k :: 0 <= k < |calls| ==> WellFormed(calls[k].op)
    ensures Valid(RunAsWritten(e, calls).cart)
    decreases |calls|
  {
    if |calls| > 0 {
      StepKeepsValid(e, calls[0].op, true);
      var e' := StepAsWritten(e, calls[0].op, calls[0].saved).0;
      assert forall k :: 0 <= k < |calls[1..]| ==> calls[1..][k] == calls[k + 1];
      RunAsWrittenKeepsValid(e', calls[1..]);
    }
  }
}
