# Local shopping-cart store of the storefront client

This project models the shopping cart of the storefront app. The cart lives in
the browser's local storage as one serialised object under the key `'cart'`.
The object maps each product id to `{product, quantity}`. Two page controllers
change it:

- the home page (product list) adds one unit of a product, takes a quantity
  of a product out, and drops a deleted product from its in-memory list;
- the cart page shows the stored entries, clears the cart, and removes whole
  entries.

Modules:

- `CartStore` (`CartStore.dfy`) holds the data model: `Product`, `Entry`,
  `Cart` (a `map<string, Entry>`), the invariant `WellFormed`, and `Load` (the
  home page's `getCart`). It also holds `Storage`, a class standing for local
  storage whose field `cart: Option<Cart>` is `None` when the key is absent.
  Last, it defines `ValuesMultiset`, the values of a cart counted with
  multiplicity, with lemmas showing that it does not depend on key order.
- `Home` (`Home.dfy`) holds the cart functions `Add` and `Remove`, the list
  filter `WithoutId`, and the class `HomePage`, whose methods read the
  storage, change the parsed cart and write it back.
- `CartView` (`CartView.dfy`) holds `ValuesOf` (the model of
  `Object.values`), `DropEntry`, and the class `CartPage` with its fields
  `cartProducts` and `loading`.
- `CartHistory` (`CartHistory.dfy`) applies any sequence of the four
  cart-changing actions to the stored blob. It proves that the cart invariant
  survives every sequence, that adding n units and then removing n units gives
  back the original cart, and exactly when the two pages' removals agree.

Serialising and parsing the blob are modelled as an exact round trip, so the
storage slot holds the map itself. Each handler runs atomically, one after
another.

`Storage.cart` stands for the `'cart'` slot of local storage. `CartHistory.Run`
only chains handler runs. Both are scaffolding, and the Model table has no
rows for them.

Points about the code's behaviour:

- The home page adds exactly one unit per call
  (`cart[product.id].quantity += 1`, home.page.ts:143). "Add n units" is
  therefore n repeated adds (`CartHistory.AddRepeatedly`).
- The cart page deletes the whole key and never reads its `quantity`
  argument (`delete cartObject[product.id]`, cart.page.ts:69).
  `CartHistory.RemovalsAgree` states exactly when the two pages' removals
  give the same result.
- Removing the last entry, on either page, leaves the blob present and
  holding `{}` (home.page.ts:182-184, cart.page.ts:69-70). It does not make
  the blob absent. Both states read back as the empty cart.

## Model

| member | source | states |
|---|---|---|
| `CartStore.Load` | src/app/pages/main/home/home.page.ts:167-170 | with no blob the cart read is empty, otherwise it is exactly the stored map; a well-formed blob reads as a well-formed cart |
| `Home.Add` | src/app/pages/main/home/home.page.ts:142-146 | `p.id` becomes a key; an existing entry keeps its stored product snapshot and gains exactly one unit; a new one is `{p, 1}`; no other key is added, removed or changed; the invariant (quantity ≥ 1, key = `product.id`) is preserved |
| `Home.Remove` | src/app/pages/main/home/home.page.ts:179-183 | an absent id leaves the cart unchanged; a quantity falling to ≤ 0 deletes the key; otherwise the entry keeps its product with quantity old − q; other keys unchanged; the invariant is preserved |
| `Home.AddThenRemoveOne` | src/app/pages/main/home/home.page.ts:140-187 | on a well-formed cart, adding a product and then removing one unit of it gives back the same cart |
| `Home.HomePage.AddToCart` | src/app/pages/main/home/home.page.ts:140-147 | the stored blob afterwards is exactly the loaded cart with the product added, and it is well formed if it was before |
| `Home.HomePage.RemoveFromCart` | src/app/pages/main/home/home.page.ts:177-187 | a product not in the cart leaves the storage untouched (nothing written); otherwise the blob becomes the loaded cart with `quantity` units removed; the invariant is preserved |
| `Home.WithoutId` | src/app/pages/main/home/home.page.ts:97 | a product is in the filtered list exactly when it was in the list and has another id; the list never grows |
| `Home.WithoutIdAppend` | src/app/pages/main/home/home.page.ts:97 | filtering distributes over concatenation, so the kept products keep their relative order |
| `Home.WithoutIdCounts` | src/app/pages/main/home/home.page.ts:97 | every product with another id is kept as many times as it occurred, and none with the deleted id is kept |
| `Home.WithoutIdNoMatch` | src/app/pages/main/home/home.page.ts:97 | a list with no product of the deleted id is left unchanged |
| `Home.HomePage.ForgetDeletedProduct` | src/app/pages/main/home/home.page.ts:97 | after a successful delete, `products` is the filtered old list and holds no product with the deleted id |
| `Home.HomePage.constructor` | src/app/pages/main/home/home.page.ts:18 | the product list starts empty |
| `CartStore.ValuesMultisetSize` | src/app/pages/main/cart/cart.page.ts:33 | a cart has as many values as keys |
| `CartStore.ValuesMultisetHas` | src/app/pages/main/cart/cart.page.ts:33 | an entry is counted among the values exactly when some key maps to it |
| `CartStore.ValuesMultisetUnique` | src/app/pages/main/cart/cart.page.ts:33 | in a well-formed cart each value occurs exactly once |
| `CartView.ValuesOf` | src/app/pages/main/cart/cart.page.ts:33 | the list of values has the map's size and the same multiset of values as the map; the order is unspecified |
| `CartView.ListsValuesHas` | src/app/pages/main/cart/cart.page.ts:33 | an entry is listed exactly when it is a value of the cart |
| `CartView.ListsValuesDistinct` | src/app/pages/main/cart/cart.page.ts:33 | listing a well-formed cart shows no product twice |
| `CartView.DropEntry` | src/app/pages/main/cart/cart.page.ts:69 | the id is no longer a key; every other key keeps its entry; the invariant is preserved |
| `CartView.CartPage.constructor` | src/app/pages/main/cart/cart.page.ts:16-17 | the page starts with no entries and not loading |
| `CartView.CartPage.GetCart` | src/app/pages/main/cart/cart.page.ts:27-38 | with no blob `cartProducts` is empty; with a blob it lists exactly the map's values; `loading` is false on return; storage is not written |
| `CartView.CartPage.ClearCart` | src/app/pages/main/cart/cart.page.ts:59-62 | the blob is removed, so a following load reads the empty cart, and `cartProducts` is empty |
| `CartView.CartPage.RemoveFromCart` | src/app/pages/main/cart/cart.page.ts:65-73 | with no blob nothing is written or refreshed; otherwise the whole entry of `product.id` is deleted whatever `quantity` is, other entries are untouched, and `cartProducts` lists the new map |
| `CartHistory.Step` | src/app/pages/main/home/home.page.ts:140-187 | each of the four actions (home add and home remove from these lines; cart-page remove and clear from cart.page.ts:59-70, through the same `DropEntry` and blob removal that `CartPage.RemoveFromCart` and `CartPage.ClearCart` use) keeps a well-formed blob well formed; an add leaves the product's key present; a home remove of an absent product writes nothing; a cart-page remove leaves the key absent; a clear reads back empty |
| `CartHistory.RunPreservesWellFormed` | src/app/pages/main/home/home.page.ts:140-187 | after any sequence of actions from both pages, every entry still has quantity ≥ 1 and sits under its own product id |
| `CartHistory.AddRepeatedly` | src/app/pages/main/home/home.page.ts:142-145 | n adds of a product leave a single entry for its id, with the first snapshot and n more units, and no other key changed |
| `CartHistory.AddNThenRemoveN` | src/app/pages/main/home/home.page.ts:140-187 | for every n ≥ 0, n adds followed by a home-page removal of n units give back the cart that was loaded; in particular a product not in the cart before has no entry afterwards |
| `CartHistory.RemovalsAgree` | src/app/pages/main/cart/cart.page.ts:65-70 | for any stored state, the home page's removal of q units and the cart page's removal leave the same blob exactly when the product is not in the cart or q covers the stored quantity |

## Left out

- The remote side of both pages is not modelled. This covers fetching products, the file and document deletion in `deleteProduct`, and its failure branch. These go through the backend service, whose behaviour is not visible here. `ForgetDeletedProduct` models only the list update that runs after a successful delete.
- UI plumbing is not modelled: alerts, confirmations, modals, toasts, loading indicators, `itemSliding.close()`, the pull-to-refresh timer and console logging. A confirmed add is modelled as the handler running.
- The home page's `loading` flag is not modelled. It is only set around the remote product fetch.
- `ngOnInit` of the cart page is not modelled separately. It only calls `getCart`.
- The home page's `printCart` is not modelled, because it only logs. The `getCart()` call at the end of its `removeFromCart` discards its result and changes nothing, so the model leaves it out.
- The `user()` lookup is not modelled. It only builds remote paths.
- JSON text encoding and parsing are not modelled, and neither is the unhandled failure when a stored blob is malformed. The storage slot holds the parsed map.
- Quantities are JavaScript numbers. They are modelled as unbounded integers, because they only change by integer steps. Float precision beyond 2^53 is not modelled.
- Product ids are modelled as plain keys. The model does not cover an id that clashes with an inherited property of JavaScript objects (such as `toString`), where `cart[product.id]` would be truthy without an entry.
- The product record's own definition file is not part of this model. `Product` carries the id and the display fields that the pages use, and only the id matters to the cart.
- Overlapping handlers that interleave their read-modify-write of the blob, and so lose updates, are not modelled. Every handler runs atomically.
- The order in which `Object.values` lists the entries is left unspecified. `ValuesOf` takes the keys in an arbitrary order.
