# Shopping-cart store (useCart)

A model of the cart store of the RocketShoes front end, `src/hooks/useCart.tsx`.
The store holds an ordered list of line items (a product record plus the cart-local
`amount`) and a persisted copy of it under a fixed storage key. It offers three
mutations:

- `addProduct(productId)` fetches the product and its stock, then raises the amount of
  the existing line item by one or appends the product with amount 1, unless the stock
  is at most the amount already held.
- `removeProduct(productId)` removes the first line item with that id, or reports failure.
- `updateProductAmount({productId, amount})` sets the line item's amount, unless the
  amount is 0 (silent no-op), the id is absent or the stock is below the amount.

Every committed mutation replaces the in-memory cart and writes the same cart to the
persisted slot. On start the cart is the stored cart, or empty when nothing is stored.

`cart_spec.dfy` (module `CartSpec`) gives the values and, for each mutation, a pure
step function: `Commit(next)` for a committed cart, or `Stay(returnsFalse, message)`
when nothing changes. `returnsFalse` is whether the hook returns `false`. `message` is
the notification it shows. The lemmas there state the properties of each mutation.
`cart_store.dfy` (module `UseCart`) is the store as a class. Its fields are `cart` and
`persisted`. Its methods copy the cart, scan it with a loop, change the copy and commit
it. Each method is proved against the step function. The methods keep the invariant
`Valid()`: the slot holds the cart, or the slot is empty and the cart is empty.

The two HTTP requests become parameters of the methods. The product request is
`product: Option<Product>` and the stock request is `stock: Option<int>`. `None` stands
for a request that fails and lands in the `catch` block.

## Model

| member | source | states |
|---|---|---|
| `CartSpec.Position` | src/hooks/useCart.tsx:41-43 | the index of the first line item with the id, or -1 exactly when no item has it |
| `CartSpec.HeldAmount` | src/hooks/useCart.tsx:45 | the amount already held for the id: that of the first item carrying it, 0 when no item does |
| `CartSpec.AddStep` | src/hooks/useCart.tsx:35-69 | add, branch by branch: a failed product fetch, then a failed stock fetch (add-error notification), then stock at most the held amount (out-of-stock notification), else increment the first match or append the fetched record with amount 1; it never returns `false` and every failure notifies; a commit needs stock above the held amount, contains the requested id when it was already present and the fetched record's id otherwise, and grows the cart by one only when the id was absent |
| `CartSpec.RemoveStep` | src/hooks/useCart.tsx:71-91 | remove: an absent id returns `false` with the remove-error notification, else the first match is spliced out; it stays exactly when the id is absent, and a commit is one item shorter |
| `CartSpec.UpdateStep` | src/hooks/useCart.tsx:93-125 | update, branch by branch: amount 0 (the only silent no-op), then an absent id (`false`, update-error), then a failed stock fetch (update-error, no `false`), then stock below the amount (`false`, out-of-stock), else set the first match's amount; a commit keeps the length and needs a non-zero amount within stock |
| `UseCart.FindIndex` | src/hooks/useCart.tsx:75-77 | the linear scan returns the first index with the id (`Position`), non-negative exactly when the id is present |
| `UseCart.CartStore.constructor` | src/hooks/useCart.tsx:25-33 | the cart is empty when nothing is stored and equals the stored cart otherwise; the slot is as stored, so `Valid()` holds |
| `CartSpec.AddCommitsIffInStock` | src/hooks/useCart.tsx:45-52 | add commits iff both fetches succeed and the stock exceeds the held amount (0 when absent); a failed fetch gives the add-error notification and an exhausted stock the out-of-stock one, with the cart unchanged |
| `CartSpec.AddExisting` | src/hooks/useCart.tsx:54-56 | adding a present id raises that item's amount by exactly 1; length, order and all other items unchanged; unique ids preserved; total quantity +1 |
| `CartSpec.AddNew` | src/hooks/useCart.tsx:57-62 | adding an absent id with stock > 0 appends exactly one item (fetched record, amount 1) after the unchanged old items; ids stay unique when the fetched record has the requested id |
| `UseCart.CartStore.AddProduct` | src/hooks/useCart.tsx:35-69 | cart, slot and notification follow `AddStep`; a commit writes the new cart to the slot; unique ids are preserved when the fetched record has the requested id |
| `CartSpec.RemoveRejectsIffAbsent` | src/hooks/useCart.tsx:75-82 | remove returns `false` with the remove-error notification and no change exactly when the id is absent, and commits otherwise |
| `CartSpec.RemovePresent` | src/hooks/useCart.tsx:84-87 | removing a present id shortens the cart by exactly 1, keeps the other items in their order, and in a cart with unique ids leaves the id absent |
| `CartSpec.AddThenRemove` | src/hooks/useCart.tsx:57-87 | removing an id just appended by add restores the cart exactly |
| `UseCart.CartStore.RemoveProduct` | src/hooks/useCart.tsx:71-91 | cart, slot, return value and notification follow `RemoveStep`; it returns `false` iff the id was absent; in a cart with unique ids, ids stay unique and the id is gone afterwards |
| `CartSpec.UpdateStays` | src/hooks/useCart.tsx:98-117 | amount 0 is a silent no-op; an absent id returns `false` with the update-error notification; a failed stock fetch notifies without returning `false`; stock below the amount returns `false` with the out-of-stock notification; it commits iff none of these applies |
| `CartSpec.UpdatePresent` | src/hooks/useCart.tsx:112-121 | a committed update sets that item's amount to exactly the requested value and changes nothing else; unique ids preserved |
| `CartSpec.UpdateIdempotent` | src/hooks/useCart.tsx:93-125 | repeating an update with the same arguments leaves the cart as the first one did |
| `UseCart.CartStore.UpdateProductAmount` | src/hooks/useCart.tsx:93-125 | cart, slot, return value and notification follow `UpdateStep`; unique ids are preserved |

`Quantity`, the total number of units in the cart, is a measure derived for the lemmas;
the hook never computes it and makes no promise about it.

## Left out

- React plumbing (context, `useState`, the provider render and `useCart`): framework code with no cart logic.
- The HTTP client: each request is a method parameter, with `None` for a request that fails.
- JSON and `localStorage`: the slot holds the cart itself (`Option<seq<Item>>`), not a serialised string, so the serialise/parse round trip is the identity by construction.
- A `localStorage.setItem` that throws after `setCart` leaves the in-memory cart updated and the slot stale. This is not modelled: every commit writes both.
- The catalog fields of a product are an uninspected map (`Details`); the type definitions file is not part of this model.
- Notifications are returned as a `Message` value instead of being shown.
- Interleaving of concurrent calls across the `await` points is not modelled; each method runs to completion.
- Shared object references: the hook copies the array shallowly and then mutates the found item in place, which also changes the previous state's object. Line items here are values.
- `removeProduct` and `updateProductAmount` return `undefined` on success and `false` on rejection; the model returns `rejected = false` and `rejected = true` for these.
- `updateProductAmount` is `async`, so its caller receives a promise that resolves to `false` or `undefined`, and its declared type is `void`. The model returns the resolved value directly.
- `UseCart.CartStore.AddProduct`: unique ids are preserved only when the fetched product record carries the requested id. The source appends the fetched record without checking this.
- Amounts are unbounded integers. In the hook they are JavaScript numbers: a fractional or `NaN` amount passes both guards of `updateProductAmount` and is committed. Only integers are modelled. `updateProductAmount` does not reject negative amounts, and neither does the model.
