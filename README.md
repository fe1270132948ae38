# RocketShoes cart store, modelled in Dafny

The storefront keeps the shopper's cart in a React provider
(`src/hooks/useCart.tsx`). The cart is an ordered list of product records,
each with a selected `amount`. Three operations change it:

- `addProduct` raises an existing line's amount by one, or appends a new line with amount 1.
- `removeProduct` drops a line.
- `updateProductAmount` sets a line's amount.

Each operation checks the stock that the catalog API reports. A successful
change writes the new list to the `@RocketShoes:cart` storage slot and then to
React state. A failure shows one error toast and changes nothing.

The model has three modules.

- `CartLogic` (`cart_logic.dfy`) holds the values and the list transforms
  (`Find` for `cart.find`, `SetAmount` for `cart.map`, `Without` for
  `cart.filter`). It also states each operation as a pure transition on a
  `Snapshot`, which is the cart, the slot and the notifications together.
  Sequences of calls are given by `Run`.
- `CartProperties` (`cart_properties.dfy`) holds the lemmas:
  - guards and failure paths;
  - the exact effect of each success;
  - that every step is all-or-nothing;
  - that ids stay unique, amounts stay at least 1 and at most the stock
    observed, and the slot mirrors memory, for one call and for any sequence
    of calls.
- `Store` (`cart_store.dfy`) holds the class `CartStore`. Its fields `cart`,
  `persisted` and `notes` are overwritten by its methods. Each method's new
  state is the matching `CartLogic` transition of its old state. Each method
  keeps `Valid()`: unique ids, positive amounts, and a mirrored slot.

Catalog lookups are parameters.

- `stock: Option<nat>` is the stock request's answer. `None` means the request threw.
- `product: ProductReply` is the product request's answer: it threw, it had no body, or it carried a record.
- `addProduct` on an id already in the cart calls `updateProductAmount`, which makes its own stock request. Its answer is the separate parameter `updateStock`.

Toasts are appended to `notes` as a `Msg`:

| `Msg` | toast text |
|---|---|
| `OutOfStock` | 'Quantidade solicitada fora de estoque' |
| `AddFailed` | 'Erro na adição do produto' |
| `RemoveFailed` | 'Erro na remoção do produto' |
| `UpdateFailed` | 'Erro na alteração de quantidade do produto' |

The model follows the code as written, including three behaviours a reader
might not expect:

- When the product request of `addProduct` succeeds with an empty body, the code does nothing: no toast and no change (`EmptyBody`, src/hooks/useCart.tsx:60).
- A stored cart is taken as it is, without any validation (src/hooks/useCart.tsx:28-29). So `Valid()` holds after construction only when the stored cart is well formed.
- The record appended by `addProduct` keeps the id the catalog returned. Uniqueness therefore depends on that id matching the one requested.

## Model

| member | source | states |
|---|---|---|
| CartLogic.Find | src/hooks/useCart.tsx:41 | finds nothing exactly when no line has the id; otherwise returns a line with that id that no earlier line shares |
| CartLogic.SetAmount | src/hooks/useCart.tsx:118-121 | lines with the id get the new amount; all other lines, the length and the order are unchanged |
| CartLogic.Without | src/hooks/useCart.tsx:91 | the result holds exactly the lines whose id differs; it is never longer; an absent id leaves the list equal |
| CartLogic.UpdateProductAmount | src/hooks/useCart.tsx:100-128 | the update is all-or-nothing (no change, or one notification and no change, or a silent commit to slot and memory) and never changes the cart's length |
| CartLogic.RemoveProduct | src/hooks/useCart.tsx:83-98 | the removal is all-or-nothing and never lengthens the cart |
| CartLogic.AddProduct | src/hooks/useCart.tsx:35-81 | the add is all-or-nothing and grows the cart by at most one line |
| CartProperties.WithoutConcat | src/hooks/useCart.tsx:91 | filtering distributes over concatenation, so the surviving lines keep their relative order |
| CartProperties.RemovesExactlyOneLine | src/hooks/useCart.tsx:91 | with unique ids, filtering out the id at index k gives the cart with exactly line k dropped |
| CartProperties.WithoutKeepsUnique | src/hooks/useCart.tsx:91 | filtering keeps ids unique |
| CartProperties.SetAmountKeepsUnique | src/hooks/useCart.tsx:118-121 | rewriting amounts keeps ids unique |
| CartProperties.UpdateIgnoresNonPositive | src/hooks/useCart.tsx:105-107 | an amount of zero or less leaves cart, slot and notifications unchanged |
| CartProperties.UpdateFailures | src/hooks/useCart.tsx:109-127 | a failed stock lookup appends the update error, an amount above stock appends out-of-stock; cart and slot are unchanged |
| CartProperties.UpdateSucceeds | src/hooks/useCart.tsx:118-124 | within stock, exactly the lines with the id get the amount, other lines, length and order stay, an absent id leaves the list equal, and the slot equals the cart |
| CartProperties.UpdateRespectsStock | src/hooks/useCart.tsx:113-121 | whenever an update changes the cart, every line with the id has an amount between 1 and the stock that call observed |
| CartProperties.UpdateKeepsWellformed | src/hooks/useCart.tsx:105-124 | an update keeps ids unique and amounts at least 1 |
| CartProperties.UpdateKeepsWithinStock | src/hooks/useCart.tsx:109-124 | when the observed stock agrees with a stock table, an update keeps every amount within that table |
| CartProperties.RemoveAbsent | src/hooks/useCart.tsx:84-97 | removing an absent id appends the removal error and changes nothing else |
| CartProperties.RemovePresent | src/hooks/useCart.tsx:91-94 | removing a present id commits exactly the lines with other ids, in order (with unique ids: the cart minus that line) and the slot equals the cart |
| CartProperties.RemoveKeepsWellformed | src/hooks/useCart.tsx:91-94 | a removal keeps ids unique and amounts at least 1 |
| CartProperties.RemoveKeepsWithinStock | src/hooks/useCart.tsx:91-94 | a removal keeps every amount within a stock table |
| CartProperties.AddStockLookupFails | src/hooks/useCart.tsx:35-80 | a failed first stock lookup appends the generic add error and changes nothing else |
| CartProperties.AddNew | src/hooks/useCart.tsx:55-77 | for a new id: failed product lookup gives the add error, an empty reply does nothing, zero stock gives out-of-stock, otherwise the cart becomes the old cart plus the record with amount 1, mirrored to the slot |
| CartProperties.AddExisting | src/hooks/useCart.tsx:41-54 | for an id in the cart: one more than its amount above stock gives out-of-stock and no change; otherwise the effect equals updateProductAmount with that amount |
| CartProperties.AddRespectsStock | src/hooks/useCart.tsx:41-72 | on any cart, whenever an add changes it, every line with the id has an amount between 1 and the stock observed by the add, and by the delegated update when there was one |
| CartProperties.AddKeepsWellformed | src/hooks/useCart.tsx:41-75 | an add keeps ids unique and amounts at least 1, when the catalog record carries the requested id |
| CartProperties.AppendKeepsUnique | src/hooks/useCart.tsx:66-72 | appending a line whose id is not in the cart keeps ids unique |
| CartProperties.AddKeepsWithinStock | src/hooks/useCart.tsx:41-75 | when both observed stocks agree with a stock table, an add keeps every amount within that table |
| CartProperties.AllOrNothingKeepsMirror | src/hooks/useCart.tsx:74-75 | a step that does nothing, only notifies, or commits to slot and memory keeps the slot mirroring memory |
| CartProperties.ReloadAfterCommit | src/hooks/useCart.tsx:25-33 | running the state initialiser on a slot a commit has just written gives back the committed cart |
| CartProperties.StepKeepsMirror | src/hooks/useCart.tsx:35-128 | any single call, whatever the catalog answers, keeps the slot mirroring memory |
| CartProperties.RunKeepsMirror | src/hooks/useCart.tsx:35-128 | after any sequence of calls, whatever the catalog answers, reloading the slot gives back the cart in memory |
| CartProperties.StepKeepsInvariants | src/hooks/useCart.tsx:35-128 | any single call keeps ids unique and amounts positive, and keeps amounts within a stock table it observes, when a catalog record carries the requested id |
| CartProperties.RunKeepsInvariants | src/hooks/useCart.tsx:35-128 | the same two invariants hold after any sequence of calls whose catalog records carry the requested ids |
| CartProperties.RunOnlyAppendsNotes | src/hooks/useCart.tsx:35-128 | notifications are only appended, at most one per call |
| Store.CartStore.constructor | src/hooks/useCart.tsx:25-33 | the cart is the stored cart, or empty when the slot is absent; the slot mirrors memory; no notifications |
| Store.CartStore.UpdateProductAmount | src/hooks/useCart.tsx:100-128 | the new fields are the update transition of the old ones, and `Valid()` is kept |
| Store.CartStore.RemoveProduct | src/hooks/useCart.tsx:83-98 | the new fields are the remove transition of the old ones, and `Valid()` is kept |
| Store.CartStore.AddProduct | src/hooks/useCart.tsx:35-81 | the new fields are the add transition of the old ones; `Valid()` is kept when the catalog record carries the requested id |

## Left out

- React wiring is not modelled: `createContext`, the provider element and `useCart` (src/hooks/useCart.tsx:22, 130-143). `setCart` is modelled only as the assignment of the `cart` field.
- The storage slot is a value, not text. JSON encoding and decoding are not modelled. A malformed stored string would make `JSON.parse` throw during initialisation; that is not modelled either, and neither is an empty string read as "absent".
- Writes to storage always succeed. In the source, a `setItem` that throws would skip `setCart` and show the operation's error toast.
- HTTP calls are not made; their answers are parameters. A stock reply without an `amount` field is not modelled, and stock is a natural number.
- Every operation is one atomic step. The model does not capture the un-awaited delegated update in `addProduct` (src/hooks/useCart.tsx:51). It does not capture two concurrent calls that both read the same stale cart either.
- Toast rendering is not modelled. Only which message is raised is recorded.
- A product's fields other than `id` and `amount` are carried along as opaque `Details`. `src/types` is not part of this model.
- Numbers are unbounded integers. Fractional or non-numeric amounts are not modelled.
- CartProperties.AddKeepsWellformed: requires the catalog record's id to equal the requested id. The source appends whatever record the catalog returns, so a record with another id could duplicate a line.
- CartProperties.AddKeepsWithinStock: requires the same agreement between the record's id and the requested id, for the same reason.
- CartProperties.StepKeepsInvariants: requires a catalog record to carry the requested id, for the same reason; its mirror conclusion is stated without that assumption by CartProperties.StepKeepsMirror.
- CartProperties.RunKeepsInvariants: requires every catalog record in the sequence to carry the requested id, for the same reason; mirroring over any sequence is stated without it by CartProperties.RunKeepsMirror.
- Store.CartStore.AddProduct: keeps `Valid()` only under the same agreement between the record's id and the requested id.
