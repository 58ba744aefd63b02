# Shopping cart state, verified in Dafny

This project models the cart state of the storefront's `ShoppingCartProvider`
(`src/contexts/ShoppingCartContext.tsx`). The provider owns two state cells:

- `cartItems`, an ordered list of `CartItem {id, quantity}` entries;
- `isOpen`, the flag that says whether the cart panel is shown.

It exposes `getItemQuantity`, `increaseCartQuantity`, `decreaseCartQuantity`,
`removeFromCart`, `openCart`, `closeCart` and the derived total `cartQuantity`.

Two modules:

- `Cart` (`cart.dfy`) holds the pure side. It has the `CartItem` datatype and
  the array primitives the updaters are built from: `find` is `Find`, the
  `map` callback is `MapQuantity`, `filter` is `FilterOut` and `reduce` is
  `ReduceQuantity`. On top of these come one function per updater and the
  lemmas about them. The cart invariant `Valid` says two things: ids are
  pairwise distinct, and every quantity is at least 1.
- `ShoppingCartContext` (`shopping_cart_context.dfy`) holds the class
  `ShoppingCartProvider`. Its two fields are the two state cells. Each method
  overwrites a cell with the value the matching pure updater computes.

The model follows the code literally:

- `find` returns the *first* match.
- The `map` branches of increase and decrease change *every* entry carrying
  the id.
- The `filter` drops *every* entry carrying the id.
- Decrease on an absent id goes down the `map` branch, so the list comes back
  unchanged.
- `?.quantity || 0` returns 0 for a missing entry and also for a stored 0. In
  both cases the result equals the first match's quantity, or 0.

Because of these literal semantics, the totals move by exactly 1 only when ids
are unique. With duplicate ids, the `map` branch would bump every duplicate.
So the total lemmas, and the total clauses of the provider's methods, take
`IdsUnique` as a precondition. The invariant lemmas show that every operation
preserves it. The reads are stated on every list, with no precondition.

## Model

| member | source | states |
|---|---|---|
| `Cart.Find` | src/contexts/ShoppingCartContext.tsx:40 | `find`: `None` exactly when no entry carries the id; otherwise the value is the entry at the first position carrying it |
| `Cart.GetItemQuantity` | src/contexts/ShoppingCartContext.tsx:39-41 | `getItemQuantity`: 0 when no entry carries the id, otherwise the quantity of the first entry that does |
| `Cart.QuantityAt` | src/contexts/ShoppingCartContext.tsx:39-41 | with unique ids, the read for an id is the quantity of the entry carrying it, wherever it sits |
| `Cart.ReduceQuantity` | src/contexts/ShoppingCartContext.tsx:89-91 | the `reduce` left fold `item.quantity + quantity` from any accumulator equals the accumulator plus the sum of all quantities |
| `Cart.CartQuantity` | src/contexts/ShoppingCartContext.tsx:89-91 | `cartQuantity` (the fold from 0) equals the sum of all quantities |
| `Cart.MapQuantity` | src/contexts/ShoppingCartContext.tsx:51-57 | the `map` callback keeps length and ids, moves the quantity of every entry carrying the id by the delta, and leaves every other entry identical |
| `Cart.MapQuantityGet` | src/contexts/ShoppingCartContext.tsx:51-57 | after the `map`, the read for the id moves by the delta when the id is present; the read for every other id is unchanged |
| `Cart.FilterOut` | src/contexts/ShoppingCartContext.tsx:85 | `filter`: an entry is in the result exactly when it was in the list and carries another id |
| `Cart.FilterOutAt` | src/contexts/ShoppingCartContext.tsx:85 | with unique ids, filtering the id of the entry at `k` gives the list with exactly that entry cut out, the others in their order |
| `Cart.FilterOutGet` | src/contexts/ShoppingCartContext.tsx:85 | after the `filter`, the filtered id reads 0 and every other id reads as before |
| `Cart.IncreaseCartQuantity` | src/contexts/ShoppingCartContext.tsx:43-61 | increase: the read for the id afterwards is one more than before |
| `Cart.IncreaseAbsent` | src/contexts/ShoppingCartContext.tsx:45-47 | on an absent id, the result is the old list with `{id, 1}` appended at the end |
| `Cart.IncreasePresent` | src/contexts/ShoppingCartContext.tsx:49-57 | on a present id, length, order and ids are kept; entries with the id gain exactly 1; all other entries are identical |
| `Cart.IncreaseGet` | src/contexts/ShoppingCartContext.tsx:43-61 | after increase, the id reads one more and every other id reads as before |
| `Cart.IncreaseValid` | src/contexts/ShoppingCartContext.tsx:43-61 | increase preserves unique ids and quantities of at least 1 |
| `Cart.IncreaseTotal` | src/contexts/ShoppingCartContext.tsx:43-61 | with unique ids, increase raises `cartQuantity` by exactly 1 |
| `Cart.DecreaseCartQuantity` | src/contexts/ShoppingCartContext.tsx:63-81 | decrease: on every list, the read for the id afterwards is one less when the id was present and stays 0 when it was absent |
| `Cart.DecreaseAbsent` | src/contexts/ShoppingCartContext.tsx:69-79 | on an absent id, decrease returns the list unchanged: no entry is created and no quantity goes negative |
| `Cart.DecreaseLast` | src/contexts/ShoppingCartContext.tsx:65-67 | with unique ids, when the id's entry holds 1, the result is the list with exactly that entry removed, the rest in order |
| `Cart.DecreaseMore` | src/contexts/ShoppingCartContext.tsx:69-79 | when the first entry for the id holds something other than 1, length, order and ids are kept; entries with the id lose exactly 1; all others are identical |
| `Cart.DecreaseGet` | src/contexts/ShoppingCartContext.tsx:63-81 | on every list, decrease takes 1 off the read for a present id, leaves an absent id at 0, and leaves every other id's read unchanged |
| `Cart.DecreaseValid` | src/contexts/ShoppingCartContext.tsx:63-81 | decrease preserves unique ids and quantities of at least 1 |
| `Cart.DecreaseTotal` | src/contexts/ShoppingCartContext.tsx:63-81 | with unique ids, decrease lowers `cartQuantity` by 1 when the id is present and leaves it unchanged otherwise |
| `Cart.RemoveFromCart` | src/contexts/ShoppingCartContext.tsx:83-87 | remove: no entry carries the id afterwards, its read is 0, and the entries kept are exactly those with other ids |
| `Cart.RemoveAbsent` | src/contexts/ShoppingCartContext.tsx:83-87 | removing an absent id is a no-op |
| `Cart.RemovePresent` | src/contexts/ShoppingCartContext.tsx:83-87 | with unique ids, removing a present id cuts out exactly its entry; the others keep their order |
| `Cart.RemoveGet` | src/contexts/ShoppingCartContext.tsx:83-87 | after remove, every other id reads as before |
| `Cart.RemoveValid` | src/contexts/ShoppingCartContext.tsx:83-87 | remove preserves unique ids and quantities of at least 1 |
| `Cart.RemoveTotal` | src/contexts/ShoppingCartContext.tsx:83-87 | with unique ids, remove lowers `cartQuantity` by the removed id's quantity |
| `ShoppingCartContext.ShoppingCartProvider.constructor` | src/contexts/ShoppingCartContext.tsx:33-34 | the cart starts empty (so it satisfies the invariant) and the panel starts closed |
| `ShoppingCartContext.ShoppingCartProvider.OpenCart` | src/contexts/ShoppingCartContext.tsx:36 | `openCart`: `isOpen` is true afterwards whatever it was before (so it is idempotent); the cart is untouched |
| `ShoppingCartContext.ShoppingCartProvider.CloseCart` | src/contexts/ShoppingCartContext.tsx:37 | `closeCart`: `isOpen` is false afterwards whatever it was before (so it is idempotent); the cart is untouched |
| `ShoppingCartContext.ShoppingCartProvider.GetItemQuantity` | src/contexts/ShoppingCartContext.tsx:39-41 | the read over the current cart: 0 when absent, otherwise the first matching entry's quantity |
| `ShoppingCartContext.ShoppingCartProvider.CartQuantity` | src/contexts/ShoppingCartContext.tsx:89-91 | the total over the current cart equals the sum of its quantities |
| `ShoppingCartContext.ShoppingCartProvider.IncreaseCartQuantity` | src/contexts/ShoppingCartContext.tsx:43-61 | the cart becomes the increase result; the flag is kept; the id reads one more; other ids read as before; the invariant is kept; with unique ids the total rises by 1 |
| `ShoppingCartContext.ShoppingCartProvider.DecreaseCartQuantity` | src/contexts/ShoppingCartContext.tsx:63-81 | the cart becomes the decrease result; the flag is kept; an absent id leaves the cart as it was; a present id reads one less and other ids read as before; the invariant is kept; with unique ids the total drops by 1 exactly when the id was present |
| `ShoppingCartContext.ShoppingCartProvider.RemoveFromCart` | src/contexts/ShoppingCartContext.tsx:83-87 | the cart becomes the remove result; the flag is kept; the id reads 0; other ids read as before; an absent id is a no-op; the invariant is kept; with unique ids the total drops by the removed quantity |

## Left out

- React plumbing is not modelled: `createContext`, `useContext`,
  `useShoppingCart`, the provider's JSX value and the rendered
  `<ShoppingCart isOpen={isOpen}/>`. The `ShoppingCart` component
  (`src/components/ShoppingCart`) is not part of this model.
- `setState` scheduling is not modelled. Each `setCartItems` and `setIsOpen`
  call is modelled as applying its updater at once, atomically and in call
  order. React's batching and re-rendering are left out.
- JavaScript `number` semantics are left out. Ids and quantities are
  unbounded integers. NaN, fractional values and floating-point rounding are
  not modelled.
- Reference identity of the new arrays is not modelled. React uses it to
  detect changes. Dafny sequences are values, so "a new list, the old one
  untouched" holds by construction.
