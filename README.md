# E'Crist Commerce: store, cart and navigation model

This project models the sequential core of an eco-products shop in Dafny.

- **Server store.** `MemStorage` keeps three tables: users, products and cart items. Each table is a JavaScript `Map`, which iterates in insertion order.
  - A product search filters the catalogue by lowercased, trimmed substring tests on name, description, material and category.
  - The cart operations are insert, update, delete and a selective clear. Each applies small defaulting rules (`||` against `??`).
- **Route handlers.** The decision logic of `POST /api/products/search`, `POST /api/cart`, `PUT /api/cart/:id`, `DELETE /api/cart/:id` and `DELETE /api/cart`.
  - Each handler is a method over the store that returns a reply or an error status.
  - Adding a product already in the looked-up cart raises that entry's quantity instead of inserting a new item.
- **Client cart store** (`useCartStore`). It holds a list of cart items joined with their products, and whether the cart panel is open.
  - `addItem` merges by product id or appends.
  - `removeItem` filters.
  - `updateQuantity` removes on a quantity of zero or less, and sets the quantity otherwise.
  - `clearCart`, `toggleCart` and `getTotalItems` complete the store.
- **Header.** The `isActive` rule that highlights a navigation link.

Files:

- `options.dfy`: `Option`, and JavaScript truthiness of optional strings.
- `seqs.dfy`: `filter`, `find` and their facts.
- `js_string.dfy`: `toLowerCase`, `trim`, `startsWith`, `includes`.
- `js_map.dfy`: `Map` as keys in insertion order plus entries.
- `schema.dfy`: the records.
- `storage.dfy`: `MemStorage` and the search.
- `routes.dfy`: the handlers.
- `cart_store.dfy`: the client store.
- `header.dfy`: `isActive`.

The search is a plain substring filter. It does no diacritic folding, similarity scoring or suggestion-making. `Storage.NoAccentFolding` states the consequence.

State-changing code is imperative Dafny whose postconditions tie the new state to pure functions:
- `MemStorage` is a class over three tables. `clearCart`'s collect-then-delete loop (`DeleteOwned`) is proved against `ClearedFor`.
- The client store is a class `ClientCart.CartStore`. Each action's new state is given by a pure transition function (`Added`, `Removed`, `QuantityUpdated`, `Cleared`, `Toggled`).
- `getTotalItems` is a loop proved against `TotalItems`.

Ids are parameters:
- `randomUUID()` ids must be fresh;
- the client's `Date.now().toString()` id has no freshness requirement, because the code does not ensure one.

## Model

| member | source | states |
|---|---|---|
| Seqs.Filter | server/storage.ts:150-160 | `filter` keeps exactly the elements satisfying the predicate and never lengthens the list |
| Seqs.FilterIsSubsequence | server/storage.ts:150-160 | the result of `filter` is an order-preserving sub-sequence of its input |
| Seqs.Find | server/storage.ts:107-109 | `find` returns an element satisfying the predicate with none before it, and returns nothing iff no element satisfies it |
| JsString.Lower | server/storage.ts:147 | lowercasing keeps the length, leaves no ASCII capital, keeps every other character, and turns each capital into the same letter in lower case |
| JsString.LowerIdempotent | server/storage.ts:147-148 | lowercasing an already lowercased text changes nothing |
| JsString.TrimIsInnerSlice | server/storage.ts:147-148 | `trim` returns a slice of its input with only whitespace outside it |
| JsString.TrimLeavesNoEdgeWhitespace | server/storage.ts:147-148 | the result of `trim` neither starts nor ends with whitespace |
| JsString.IncludesIff | server/storage.ts:152-157 | `includes` holds iff the query occurs at some position |
| JsMap.GetAfterUpdate | server/storage.ts:182-192 | after `set(k, v)`, `get(k)` is `v`; after `delete(k)`, `get(k)` is undefined; `get` of every other key is unchanged |
| JsMap.Values | server/storage.ts:119-121 | `Array.from(values())` lists one value per key, in insertion order, and every stored value appears in it |
| JsMap.SetFresh | server/storage.ts:177 | setting a fresh key appends it to the order, adds exactly that entry and changes no other |
| JsMap.SetPresent | server/storage.ts:185 | setting a present key keeps the order and every other entry, replacing only that value |
| JsMap.DeleteEffect | server/storage.ts:192 | `delete` removes exactly the key, changes no other entry, keeps the order of the remaining keys, and is a no-op on an absent key |
| JsMap.RemoveKeys | server/storage.ts:201 | deleting a set of keys keeps exactly the other keys and their values, and the remaining key order is a sub-sequence of the old one |
| JsMap.Empty | server/storage.ts:203 | `clear` leaves a well-formed table with no entries |
| Storage.SearchUnfiltered | server/storage.ts:141-145 | an empty query with no category (or both empty after trimming) returns the whole catalogue in insertion order |
| Storage.SearchIsFilter | server/storage.ts:143-160 | the early return agrees with the filter, so the result is always the filter |
| Storage.SearchIsSubsequence | server/storage.ts:150-160 | the search result is an order-preserving sub-sequence of the catalogue |
| Storage.SearchMembership | server/storage.ts:147-159 | a product is returned iff it is in the catalogue and passes both the query test and the category test, each written out |
| Storage.NullMaterialNeverMatches | server/storage.ts:154 | a product without material is matched only by name or description |
| Storage.NoAccentFolding | server/storage.ts:152 | a text without 'u' or 'U' (such as "Cepillo de Bambú") never contains "bambu": accents are not folded |
| Storage.SeedNameNotFoundWithoutAccent | server/storage.ts:48 | the seed name "Cepillo de Bambú" does not contain the query "bambu" |
| Storage.QuantityOrOne | server/storage.ts:174 | the stored quantity is never 0: a missing or zero quantity becomes 1, any other value is kept as given |
| Storage.NewProductDefaults | server/storage.ts:129-135 | `createProduct` copies every field, nulls only absent optional fields, and keeps an `inStock` of 0 |
| Storage.NewCartItemDefaults | server/storage.ts:171-176 | `addToCart` stores a missing or zero quantity as 1 and any other as given, and stores a missing user id as null and a given one unchanged |
| Storage.ItemsForSpec | server/storage.ts:163-166 | `getCartItems(u)` keeps exactly the items owned by `u` in order, or every item when `u` is falsy |
| Storage.ClearedForSpec | server/storage.ts:195-204 | clearing for `u` removes exactly `u`'s items and keeps the others unchanged, clearing for no user empties the table, the surviving keys keep their order, and afterwards `getCartItems(u)` is empty |
| Storage.OwnedKeys | server/storage.ts:197-199 | the collected ids are exactly the keys of the owner's items, in insertion order |
| Storage.DeleteOwned | server/storage.ts:196-201 | deleting the collected ids one by one leaves the table without exactly the owner's items |
| Storage.MemStorage.constructor | server/storage.ts:28-33 | the store starts with three empty tables |
| Storage.MemStorage.GetUser | server/storage.ts:102-104 | returns the user stored under the id, if any |
| Storage.MemStorage.GetUserByUsername | server/storage.ts:106-110 | returns the first user in insertion order with that username, and nothing iff no user has it |
| Storage.MemStorage.CreateUser | server/storage.ts:112-117 | stores the new user under its fresh id and changes nothing else |
| Storage.MemStorage.GetProducts | server/storage.ts:119-121 | lists every product once, in insertion order |
| Storage.MemStorage.GetProduct | server/storage.ts:123-125 | returns the product stored under the id, if any |
| Storage.MemStorage.CreateProduct | server/storage.ts:127-138 | stores the defaulted product under its fresh id and changes nothing else |
| Storage.MemStorage.SearchProducts | server/storage.ts:140-161 | the result is an order-preserving sub-sequence of the catalogue, holding exactly the kept products, and is the whole catalogue when unfiltered |
| Storage.MemStorage.GetCartItems | server/storage.ts:163-167 | the owner's items in order, or all items for a falsy owner |
| Storage.MemStorage.AddToCart | server/storage.ts:169-179 | inserts exactly one new entry, the defaulted item, under the fresh id |
| Storage.MemStorage.UpdateCartItemQuantity | server/storage.ts:181-189 | an absent id returns nothing and changes nothing; a present id gets exactly the given quantity, with no range check, and nothing else changes |
| Storage.MemStorage.RemoveFromCart | server/storage.ts:191-193 | the cart table becomes the table without that key |
| Storage.MemStorage.ClearCart | server/storage.ts:195-205 | the cart table becomes `ClearedFor(old cart, userId)`, and the other tables are unchanged |
| Routes.ExistingItemIsStored | server/routes.ts:70-71 | an existing entry found by the lookup is a stored item, under its own id, holding the product |
| Routes.ExistingItemCandidates | server/routes.ts:70-71 | without a user id the lookup spans every item, whoever owns it; there is no existing entry iff no candidate holds the product |
| Routes.LookUpExisting | server/routes.ts:70-71 | the lookup returns the first matching candidate |
| Routes.SearchProductsRoute | server/routes.ts:36-47 | a rejected body replies 400 "Invalid search parameters"; otherwise the search runs with the product filter as query, "" when missing, and the category unchanged |
| Routes.AddToCartEffect | server/routes.ts:69-86 | an existing entry gets its quantity raised by the requested quantity, defaulted to 1 when missing or zero, with no item added; otherwise exactly one new item is appended under the fresh id; no other entry changes |
| Routes.AddToCartRoute | server/routes.ts:65-90 | a rejected body replies 400 and changes nothing; otherwise the cart becomes the bumped or extended table, and the reply is that item with its product |
| Routes.BumpExisting | server/routes.ts:73-80 | the existing item's quantity is raised by the requested quantity, defaulted to 1 when missing or zero, and the reply is that item with its product |
| Routes.AddNew | server/routes.ts:81-86 | the new item is stored under the fresh id, and the reply is that item with its product |
| Routes.UpdateCartRoute | server/routes.ts:92-113 | a non-number or negative quantity gives 400 and no change; 0 deletes and succeeds even for an unknown id; a positive quantity on an unknown id gives 404 and no change, otherwise it sets that item's quantity |
| Routes.RemoveCartItemRoute | server/routes.ts:115-122 | deletes the key and always replies "Item removed from cart" |
| Routes.ClearCartRoute | server/routes.ts:124-131 | empties the cart for every user and replies "Cart cleared" |
| ClientCart.Initial | client/src/lib/store.ts:17-18 | the initial state, with no items and the panel closed, has unique product ids and a total of 0 |
| ClientCart.AddExisting | client/src/lib/store.ts:22-31 | adding a product already listed keeps the length and the panel, raises that product's item quantity by 1, and leaves every other item unchanged |
| ClientCart.AddNew | client/src/lib/store.ts:33-42 | adding an unlisted product appends one item with quantity 1 and no owner, and keeps the earlier items |
| ClientCart.AddKeepsUnique | client/src/lib/store.ts:20-45 | `addItem` preserves that no two items share a product id |
| ClientCart.AddRaisesTotal | client/src/lib/store.ts:20-45 | while product ids are unique, each `addItem` raises the item total by exactly 1 |
| ClientCart.TotalOneChanged | client/src/lib/store.ts:78 | a list that changes one quantity by `d` changes the total by `d` |
| ClientCart.RemoveSpec | client/src/lib/store.ts:47-51 | `removeItem(id)` keeps exactly the items with another id, in order, and the panel; an absent id changes nothing |
| ClientCart.RemoveKeepsUnique | client/src/lib/store.ts:47-51 | `removeItem` preserves unique product ids |
| ClientCart.UpdateNonPositiveRemoves | client/src/lib/store.ts:55-59 | `updateQuantity` with a quantity of zero or less is exactly `removeItem` |
| ClientCart.UpdatePositive | client/src/lib/store.ts:60-64 | a positive quantity keeps the length and the panel, sets the quantity of the items with that id, and leaves every other item unchanged |
| ClientCart.UpdateKeepsUnique | client/src/lib/store.ts:53-66 | `updateQuantity` preserves unique product ids |
| ClientCart.ClearSpec | client/src/lib/store.ts:68-70 | `clearCart` empties the list, so the total is 0, and keeps the panel |
| ClientCart.ToggleSpec | client/src/lib/store.ts:72-74 | `toggleCart` flips the panel, keeps the items, and toggling twice restores the state |
| ClientCart.CartStore.constructor | client/src/lib/store.ts:16-18 | the store is created in the initial state, with unique product ids |
| ClientCart.CartStore.AddItem | client/src/lib/store.ts:20-45 | the new state is `Added(old state, product, newId)`, and unique product ids are kept |
| ClientCart.CartStore.RemoveItem | client/src/lib/store.ts:47-51 | the new state is `Removed(old state, id)` |
| ClientCart.CartStore.UpdateQuantity | client/src/lib/store.ts:53-66 | the new state is `QuantityUpdated(old state, id, quantity)` |
| ClientCart.CartStore.ClearCart | client/src/lib/store.ts:68-70 | the new state is `Cleared(old state)` |
| ClientCart.CartStore.ToggleCart | client/src/lib/store.ts:72-74 | the new state is `Toggled(old state)` |
| ClientCart.CartStore.GetTotalItems | client/src/lib/store.ts:76-79 | the loop's result is the sum of the items' quantities |
| Header.RootActiveIff | client/src/components/Header.tsx:14-16 | the root link is active iff the location is exactly "/" |
| Header.NonRootActiveIff | client/src/components/Header.tsx:15-16 | any other link is active iff the location starts with its path |
| Header.ActiveAtItself | client/src/components/Header.tsx:13-17 | every link is active at its own location |
| Header.PrefixNotSegment | client/src/components/Header.tsx:15 | the match is by characters: "/productos" is active at "/productos/x" and at "/productosx", but not at "/producto" |
| Header.AtMostOneNavActive | client/src/components/Header.tsx:13-53 | at any location at most one of the four menu links is active |

## Left out

- Seed catalogue (`initializeProducts`): the constructor starts with empty tables. The seed names appear only as concrete test strings.
- Unicode case mapping: `toLowerCase` is modelled for ASCII letters only. Other characters, including accented ones, are kept as they are.
- Strings are sequences of code points rather than UTF-16 code units.
- Id generation (`randomUUID`, `Date.now`) is replaced by id parameters. Server ids must be fresh; client ids need not be.
- `async`/`Promise`: every operation is synchronous, since nothing interleaves.
- Express, zod and the response objects:
  - a body that fails validation is `None`;
  - a `quantity` that is not a number is `NotANumber`;
  - the `catch` branches for 500 errors are not modelled, because no modelled operation throws.
- Numbers: quantities are unbounded integers. Non-integer, `NaN` and above-2^53 quantities are not modelled.
- `getTotalPrice` is left out (client store, lines 81-84), because it is floating-point arithmetic on `parseFloat`.
- The `GET /api/products`, `GET /api/products/:id` and `GET /api/cart` handlers are left out. They only wrap the store reads modelled here.
- Storage.MemStorage.UpdateCartItemQuantity: the source mutates the stored object and then sets it again. The model replaces the value under the key, so aliasing of that object by earlier readers is not modelled.
- React rendering, the React Query hooks and every page other than the header's `isActive` rule are left out.
