# Shopping-cart engine, modelled in Dafny

This project models the cart engine of a browser shopping cart (the
`useCart` hook). The cart is an ordered sequence of entries. Each entry has
an `id`, `title`, `price`, `image` and `amount`. The engine has three
operations:

- `addProduct` raises an existing entry's amount by one, or appends a new
  entry with amount 1. It is guarded by the stock the inventory service
  reports.
- `removeProduct` deletes the entry with the given id.
- `updateProductAmount` sets an entry's amount. It is guarded by positivity
  and by the stock.

Each operation ends in one of three ways:

- it commits the new cart to memory and to the `@RocketShoes:cart` store;
- it leaves the cart as it was and reports one of four fixed messages;
- for `updateProductAmount` with an amount of zero or less, it returns
  silently and changes nothing.

In the code, a failing store write happens after the in-memory cart has
been set, so memory changes even though the failure message is shown (see
Findings).

The model has four modules:

- `Cart` (`cart.dfy`) holds the entry datatypes and the first-match lookup
  the source uses (`Array.find` / `findIndex`). It also defines the cart
  invariant `Valid`: unique ids and amounts of at least one. Finally it
  defines `View`, a reference reading of the cart as a finite map from
  product id to quantity.
- `Operations` (`operations.dfy`) holds the three operations as pure
  functions `Cart × answers → (Cart, Outcome)`. The inventory and catalogue
  answers are `Option` parameters, where `None` means the request failed.
  Notifications become the `Outcome` tag, and `Text` gives each message's
  exact wording.
- `Persistence` (`persistence.dfy`) holds the engine state. That state is
  the in-memory cart plus the stored copy, kept as a plain field of the
  state. This module also covers hydration
  at start, one `Step` per call, and `Run` over any sequence of calls.
- `Scenarios` (`scenarios.dfy`) holds small example runs on concrete carts.

Inputs that come from outside the engine are parameters:

- the stock answer (`Option<int>`);
- the catalogue record (`Option<Metadata>`);
- whether the store write succeeds (`saved`).

Points where the model and the code need a word:

- The engine of `Persistence` (`Step`, `Run` and the lemmas and scenarios
  built on them) is the corrected engine named in Findings. It writes the
  store and memory together or not at all. The comment at
  src/hooks/useCart.tsx:38 asks that every updated cart be kept in
  localStorage. A cart that changes in memory while the store keeps the old
  one does not meet that. `StepAsWritten` and `RunAsWritten` follow the
  code's ordering. `AsWrittenAgreesWhenSaved` and `AsWrittenRunAgrees`
  prove that the two agree whenever every store write succeeds.
- A new entry's id is the id inside the catalogue's answer (`...product.data`
  is spread), not the requested id. The properties that depend on it say
  so with `CatalogueAnswers`.
- `updateProductAmount` checks stock before it checks that the entry is
  present. So if the id is absent and the amount is above stock, the
  outcome is the out-of-stock message, not the update-failure message.

## Model

| member | source | states |
|---|---|---|
| Cart.FindIndex | src/hooks/useCart.tsx:97 | the index returned is the first entry carrying the id; `None` exactly when no entry carries it |
| Cart.CurrentAmount | src/hooks/useCart.tsx:64 | 0 when no entry has the id; with unique ids, the amount of the one entry that has it |
| Cart.NewEntry | src/hooks/useCart.tsx:80-83 | the new entry carries the catalogue record unchanged (its projection back to metadata is the record) with amount 1 |
| Cart.ViewMeaning | src/hooks/useCart.tsx:64 | the id-to-quantity view has a key exactly for the ids present in the cart, and each key maps to the amount the first-match lookup reports |
| Cart.SetAmount | src/hooks/useCart.tsx:132 | copy-on-write amount assignment: same length, only the chosen entry's amount differs |
| Cart.RemoveAt | src/hooks/useCart.tsx:100 | `splice(i, 1)`: one entry fewer, entries before `i` in place, later ones shifted down by one in order |
| Cart.AppendKeepsValid | src/hooks/useCart.tsx:78-84 | appending an entry with a fresh id and amount 1 keeps ids unique and amounts positive |
| Cart.ViewSetAmount | src/hooks/useCart.tsx:76-77 | changing the amount of the first entry with some id changes exactly that product's quantity in the map view, even when the cart holds later duplicates |
| Cart.ViewRemoveAt | src/hooks/useCart.tsx:99-100 | with unique ids, removing an entry removes exactly its id from the map view |
| Cart.ViewAppend | src/hooks/useCart.tsx:84 | appending an entry whose id is absent adds exactly that id, with its amount, to the map view |
| Operations.AddProduct | src/hooks/useCart.tsx:50-91 | lookup failure gives "Erro na adição do produto"; current+1 over stock gives the out-of-stock message; otherwise a present entry goes up by exactly one with all else unchanged, or a new entry with amount 1 is appended at the end (or the catalogue failure is reported); every entry written is within the observed stock; no commit means the cart is unchanged |
| Operations.RemoveProduct | src/hooks/useCart.tsx:94-109 | commits exactly when the id is present, deleting only the first such entry and keeping the others in order; otherwise "Erro na remoção do produto" with the cart unchanged |
| Operations.UpdateProductAmount | src/hooks/useCart.tsx:111-141 | amount ≤ 0 is the one silent no-op; lookup failure and absent id give "Erro na alteração de quantidade do produto"; amount over stock gives the out-of-stock message before presence is checked; otherwise exactly that entry's amount becomes `amount` |
| Operations.Text | src/hooks/useCart.tsx:71-139 | each message maps to its verbatim notification text, and each text belongs to that message only |
| Operations.AddKeepsValid | src/hooks/useCart.tsx:56-87 | from a valid cart, add keeps unique ids and positive amounts |
| Operations.RemoveKeepsValid | src/hooks/useCart.tsx:96-102 | from a valid cart, remove keeps unique ids and positive amounts |
| Operations.UpdateKeepsValid | src/hooks/useCart.tsx:116-134 | from a valid cart, update keeps unique ids and positive amounts |
| Operations.AddView | src/hooks/useCart.tsx:64-84 | in the map view a committed add sets the product's quantity to its previous quantity plus one (1 when new) and changes no other product |
| Operations.RemoveView | src/hooks/useCart.tsx:97-102 | with unique ids, in the map view remove deletes the product's key and nothing else; for an absent product the view is already without it |
| Operations.UpdateView | src/hooks/useCart.tsx:128-134 | in the map view a committed update sets the product's quantity to the requested amount and nothing else |
| Operations.UpdateIdempotent | src/hooks/useCart.tsx:116-134 | updating any product to its current amount leaves the cart unchanged, whatever the stock answer: a present entry keeps its amount, and an absent one (current amount 0) is the silent no-op |
| Operations.RemoveUndoesAdd | src/hooks/useCart.tsx:79-102 | removing a product right after its first add restores the previous cart and commits |
| Persistence.Start | src/hooks/useCart.tsx:25-35 | hydration yields the stored cart, or the empty cart when nothing is stored, and starts in sync with the store |
| Persistence.Hydrate | src/hooks/useCart.tsx:28-34 | a stored cart is loaded as it is; nothing stored gives the empty cart |
| Persistence.FailureMessage | src/hooks/useCart.tsx:88-139 | the catch message of each operation: add, remove and update failures respectively, never the out-of-stock message |
| Persistence.Step | src/hooks/useCart.tsx:86-139 | corrected engine step: a commit writes the same new cart to memory and to the store; a rejection or silent no-op of the operation is passed through with its own outcome and state unchanged; a failed write reports the operation's catch message and changes neither; sync with the store is preserved |
| Persistence.StepAsWritten | src/hooks/useCart.tsx:86-139 | as the code orders it: a successful write commits the operation's cart to both; rejections and no-ops pass through unchanged; a failed store write still installs the new in-memory cart while reporting the operation's catch message |
| Persistence.AsWrittenLosesSync | src/hooks/useCart.tsx:86-89 | a concrete first add whose store write fails leaves memory holding one entry and the store empty, so reloading would lose it |
| Persistence.AsWrittenAgreesWhenSaved | src/hooks/useCart.tsx:86-87 | when the store write succeeds, the code's ordering and the corrected step give the same state and outcome, for every state and call |
| Persistence.AsWrittenRunAgrees | src/hooks/useCart.tsx:86-134 | when every store write succeeds, the code's engine runs any call sequence exactly as the corrected one |
| Persistence.RunAsWrittenKeepsValid | src/hooks/useCart.tsx:50-141 | with the code's step ordering, failed store writes included, any sequence of calls from a valid cart keeps ids unique and amounts ≥ 1, provided each add's catalogue answer carries the requested id |
| Persistence.StepKeepsValid | src/hooks/useCart.tsx:50-141 | each of the three operations keeps the cart invariant, provided an add's catalogue answer carries the requested id (`WellFormed`) |
| Persistence.StepUpdateIdempotent | src/hooks/useCart.tsx:116-134 | from a state in sync with the store, updating any product to its current amount leaves memory and store as they were, whatever the stock answer or write result |
| Persistence.StepAsWrittenUpdateIdempotent | src/hooks/useCart.tsx:116-139 | with the code's step ordering too, failed store writes included, updating any product to its current amount from a state in sync with the store leaves memory and store as they were |
| Persistence.Run | src/hooks/useCart.tsx:86-134 | corrected engine: any sequence of calls keeps memory and store in sync, through the commits of all three operations (lines 86-87, 101-102 and 133-134) |
| Persistence.RunAsWritten | src/hooks/useCart.tsx:86-134 | the code's engine over any sequence of calls stays in sync with the store as long as every store write succeeds (AsWrittenLosesSync shows that one failed write breaks this) |
| Persistence.RunKeepsValid | src/hooks/useCart.tsx:50-141 | from a valid cart, any sequence of calls keeps ids unique and amounts ≥ 1 |
| Persistence.RunFromStartInSync | src/hooks/useCart.tsx:25-35 | corrected engine: from hydration onward, the store always reloads to the in-memory cart |
| Scenarios.AddToEmptyCart | src/hooks/useCart.tsx:78-87 | empty cart, stock 5: the product is stored and held with amount 1 |
| Scenarios.AddBeyondStock | src/hooks/useCart.tsx:67-73 | amount 1 in the cart, stock 1: the add is refused as out of stock, state unchanged |
| Scenarios.RemoveOnlyEntry | src/hooks/useCart.tsx:99-102 | removing the sole entry empties the cart and the store |
| Scenarios.UpdateWithinStock | src/hooks/useCart.tsx:120-134 | amount 3, stock 10, update to 5: the entry holds 5 in memory and store |
| Scenarios.RemoveFromEmptyCart | src/hooks/useCart.tsx:97-107 | removing from an empty cart reports "Erro na remoção do produto" and changes nothing |
| Scenarios.UpdateToZeroIgnored | src/hooks/useCart.tsx:116-118 | an update to 0 is ignored without a message on any state |

## Left out

- The React plumbing is left out: `createContext`, `useState`, `useContext` and the `CartProvider`/`useCart` wrappers (src/hooks/useCart.tsx:1-24, 143-155). The engine state is an explicit value instead.
- The HTTP calls, toasts and JSON are left out. They become parameters and the `Outcome` tag.
  - The stock and catalogue answers are parameters.
  - A failed request is `None`.
  - A stock answer with no numeric `amount` is not modelled. In the source, `amount > undefined` is false, so the add or update would go ahead.
  - JSON serialisation and a stored string that does not parse are not modelled. The stored value is `Option<Cart>`, and `None` also covers the empty string.
- Concurrent, overlapping calls are left out. Each operation is one atomic transition, and the lost update a read-modify-write race can cause is not modelled.
- In the source, `productExists.amount = amount` changes an entry object that the previous state also shares. The model replaces the entry in a new sequence (copy-on-write) instead.
- Numbers are integers for ids, amounts and stock. Fractional amounts are not modelled. `price` is a `real` that is only carried along.
- The cart page (src/pages/Cart/index.tsx) is left out. It holds rendering, price formatting, the floating-point subtotal and total, the one-line increment/decrement handlers, and the disabled decrement button.
- Hydrated data is not validated. `Valid` is shown to be preserved from a valid starting cart, not established by hydration.
- AddKeepsValid: assumes the catalogue answers with the record of the requested id (`CatalogueAnswers`). The source spreads the answer's own `id` into the new entry and does not check it.
- AddView: assumes `CatalogueAnswers` for the same reason.
- RemoveUndoesAdd: assumes `CatalogueAnswers` for the same reason.
- StepKeepsValid: requires `WellFormed(op)`, i.e. `CatalogueAnswers` for an add, for the same reason.
- RunAsWrittenKeepsValid: requires every add in the sequence to satisfy `CatalogueAnswers`, for the same reason.
- RunKeepsValid: requires every add in the sequence to satisfy `CatalogueAnswers`.

## Findings

| source | as written | input that shows it | evidently intended | confidence | as-written member | corrected member |
|---|---|---|---|---|---|---|
| src/hooks/useCart.tsx:86-87 | `setCart` runs before `localStorage.setItem`, inside the `try` whose `catch` reports failure. The same happens at lines 101-102 and 133-134. | empty cart; `addProduct(1)` with stock 5; `setItem` throws (storage quota) | memory and store change together or not at all, so that every cart held in memory is also kept in localStorage as the comment at line 38 asks | medium; not executed | Persistence.StepAsWritten, Persistence.AsWrittenLosesSync | Persistence.Step |
