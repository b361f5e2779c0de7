# Coffee-shop storefront: local persistence layer

A Dafny model of the persistence layer of a small browser storefront. The shop page
(`script.js`) fetches a coffee catalog, keeps it in a page-wide `products` list, caches it in
the IndexedDB object store "products", filters it from a search box and puts products in the
cart. The cart page (`panier.js`) reads and edits the object store "cart". Both stores live in
the database "CoffeeShopDB", version 1, with `id` as their keyPath.

Modules, one per component:

- `Records` (records.dfy): `Product`, `CartEntry`, the cart snapshot taken by addToCart, and the row total `price * quantity`.
- `Catalog` (catalog.dfy): the search filter as a pure function, with ASCII lower-casing and `includes`.
- `Cart` (cart.dfy): the cart engine as pure updates of the cart map (add, set quantity, +1, −1 with floor at 1, remove). It also has a one-entry life cycle (`QuantityStep`) that any run of actions follows.
- `Store` (store.dfy): the database as a class `ShopDB`. It holds a version, the set of existing store names, and the two stores as maps. It has the two upgrade steps, the gateway requests (clear, put, get, delete, cursor/getAll) and the laws of "clear, then put each".
- `Shop` (shop.dfy): class `ShopPage`, the handlers of `script.js`, over the page-wide `products` and a `ShopDB`.
- `Panier` (panier.dfy): class `CartPage`, the handlers of `panier.js`, keeping the rows last rendered.

Each asynchronous handler is one atomic step on the database. The fetch is a parameter
(`FetchOutcome`: the parsed data, or a failure). The rendering side is reduced to what the
display routine receives: the `shown` results of the shop handlers and the `rendered` field of
the cart page.

Modelling choices that follow the code:

- `updateQuantity` stores any quantity without validating it (panier.js:78).
- An unknown id makes `addToCart` throw a TypeError at the field access (script.js:198). The error is caught, so nothing changes and nothing signals it.
- Re-adding a product overwrites its entry with quantity 1 (script.js:196-205).
- `removeFromCart` reloads the cart even when the id was absent, because the delete request succeeds either way (panier.js:102-105).
- `updateQuantity` and `increaseQuantity` reload exactly when the entry was found; `decreaseQuantity` exactly when it was found with quantity above 1. `addToCart` never reloads the cart.
- When the needed store is missing, `db.transaction` throws. The error is caught (or, in increase/decrease, left unhandled) and nothing changes.
- After a failed fetch the page-wide `products` stays `[]`, since the fallback fills a local list (script.js:5, script.js:27). So "+" on a product shown from the cache throws at the field access (script.js:198), the error is caught, and nothing is added (`Shop.FailedFetchAddsNothing`). For the same reason any search typed after a failed fetch filters the empty list (script.js:149) and replaces the cached products on screen by nothing (`Shop.FailedFetchSearchShowsNothing`).
- Both pages open version 1, so only the first open runs an upgrade. If the cart page opens a new database first, "products" is never created (`Store.CartPageOpensFirst`).

## Model

| member | source | states |
|---|---|---|
| `Catalog.Filter` | script.js:149-152 | at most as long as the catalog; a product is in the result iff it is in the catalog and its lower-cased name or description contains the needle |
| `Catalog.FilterIsSubsequence` | script.js:149-152 | the filtered list is an order-preserving subsequence of the catalog |
| `Catalog.FilterCounts` | script.js:149-152 | each matching product occurs as often as in the catalog, every other one not at all |
| `Catalog.FilterEmptyQuery` | script.js:148-151 | the empty query returns the whole catalog, since every string includes "" |
| `Catalog.FilterIdempotent` | script.js:148-151 | filtering the result again with the same query returns it unchanged |
| `Catalog.Lower` | script.js:148-151 | `toLowerCase()` on ASCII: the same length, each capital becomes its small letter, no upper-case letter left, every character that is not an upper-case letter kept |
| `Catalog.Includes` | script.js:150-151 | `includes`: the empty string is included in every string; an included string is no longer than the one searched |
| `Catalog.IncludesOccurs` | script.js:150-151 | `includes` holds exactly when the needle occurs at some position of the string |
| `Catalog.Matches` | script.js:150-151 | the filter predicate: the empty needle matches every product; a matching needle is no longer than the name or the description |
| `Catalog.NameFindsProduct` | script.js:148-151 | a query equal to a product's name up to letter case finds that product |
| `Shop.ShopPage.FilterProducts` | script.js:147-154 | the shown list is the filter of the page-wide catalog by the lower-cased query; membership iff match; the catalog is not modified |
| `Shop.Find` | script.js:193 | None iff no product has the id; otherwise the first product with that id |
| `Shop.ShopPage.AddToCart` | script.js:186-218 | cart store present and product found: the cart becomes `Cart.Added` of it; otherwise the cart is unchanged; other stores unchanged |
| `Records.Snapshot` | script.js:196-202 | the cart record carries the given id, the product's image, name and price, and quantity 1 |
| `Cart.Added` | script.js:196-205 | keys gain `id`; the entry for `id` is the product's image, name and price with quantity 1; other entries unchanged |
| `Cart.ReAddResets` | script.js:196-205 | adding after any earlier set/increase/add of the same id is the same as adding to the original cart (the quantity is reset to 1) |
| `Shop.ShopPage.GetProducts` | script.js:8-20 | on success the page-wide catalog and the shown list become the data and the products store becomes exactly the data put in turn; on failure the catalog and the stores are unchanged and the shown list is a listing of the products store (nothing shown if it is missing) |
| `Shop.ShopPage.AddProductsToDB` | script.js:54-79 | with the store present, the products store ends up as `PutAll(map[], ps)`: cleared, then each product put in order; without it nothing changes |
| `Shop.ShopPage.LoadProductsFromDB` | script.js:21-52 | shows something iff the products store exists, and then exactly its records, one per key; the page-wide catalog is untouched |
| `Store.Enumerate` | script.js:30-39 | the cursor walk visits every key exactly once and pushes the record stored there |
| `Store.ShopDB.GetAllProducts` | script.js:30-39 | lists every record of the products store once each, with the record's id as its key |
| `Store.PutAll` | script.js:65-67 | puts keep every record under its own id |
| `Store.PutAllKeys` | script.js:65-67 | the keys after the puts are the old keys plus the ids put |
| `Store.PutAllLastWins` | script.js:65-67 | for a repeated id, the last product put with it is the one stored |
| `Store.PutAllValues` | script.js:65-67 | every stored record was either put or there before |
| `Store.Restock` | script.js:62-67 | after clear-then-put, the keys are exactly the ids of the new catalog (no earlier cached id survives), the last record winning |
| `Store.CacheRoundTrip` | script.js:62-67 | for a catalog with distinct ids, reading the whole cache back yields the same products, as many as were cached |
| `Store.ShopUpgrade` | script.js:164-172 | keeps every existing store, ensures "products" and "cart" exist, adds nothing else |
| `Store.CartUpgrade` | panier.js:5-10 | keeps every existing store, ensures "cart" exists, adds nothing else |
| `Store.UpgradesIdempotent` | script.js:164-172 | each upgrade step applied twice equals applied once |
| `Store.UpgradesCombined` | panier.js:5-10 | the cart page's step after the shop page's adds nothing; the shop page's step after the cart page's gives the shop page's result |
| `Store.ShopDB.CreateObjectStore` | script.js:167 | adds one new, empty store and changes nothing else |
| `Store.ShopDB.OpenFromShop` | script.js:160-184 | below version 1 the upgrade step runs and the version becomes 1; at version 1 nothing changes; records untouched |
| `Store.ShopDB.OpenFromCart` | panier.js:2-16 | the same with the cart page's upgrade step |
| `Shop.FailedFetchAddsNothing` | script.js:16-19 | after a failed fetch the cached products are shown iff the store exists, and what is shown is exactly the cache's records, one per key; yet "+" on any of them leaves the cart and the cache unchanged |
| `Shop.FailedFetchSearchShowsNothing` | script.js:147-154 | after a failed fetch every query shows the empty list, whatever the cache holds; the stores are unchanged |
| `Store.CartPageOpensFirst` | panier.js:3 | a new database opened first by the cart page and then by the shop page has "cart" but never "products" |
| `Store.ShopDB.ClearProducts` | script.js:62 | the products store becomes empty; nothing else changes |
| `Store.ShopDB.PutProduct` | script.js:66 | insert or replace the product under its id |
| `Store.ShopDB.GetCart` | panier.js:74 | Some of the stored record when the id is present, None otherwise |
| `Store.ShopDB.PutCart` | panier.js:79 | insert or replace the cart record under its id |
| `Store.ShopDB.DeleteCart` | panier.js:102 | the id is absent afterwards; deleting an absent id is harmless |
| `Store.ShopDB.GetAllCart` | panier.js:25-29 | lists every cart record once each, with its id as its key |
| `Shop.ShopPage.constructor` | script.js:160-172 | the page-wide catalog starts empty (`let products = []`, script.js:5); the first `openDB`, reached from the handlers, creates the stores the shop page's upgrade step names |
| `Panier.CartPage.constructor` | panier.js:2-16 | nothing rendered yet; the first open creates "cart" |
| `Panier.CartPage.LoadProductsFromCart` | panier.js:18-38 | with the cart store present the rows are exactly the cart's records, one per id; otherwise unchanged |
| `Panier.CartPage.UpdateQuantity` | panier.js:67-92 | the cart becomes `Cart.WithQuantity`; reload exactly when the id was present |
| `Cart.WithQuantity` | panier.js:74-83 | a present entry gets quantity n, all its other fields and all other entries unchanged; an absent id leaves the cart as it is |
| `Panier.CartPage.RemoveFromCart` | panier.js:95-114 | the cart becomes `Cart.Removed`, and is always reloaded |
| `Cart.Removed` | panier.js:102-105 | the id is absent whatever its quantity; other entries unchanged |
| `Cart.RemoveIdempotent` | panier.js:102 | removing twice equals removing once |
| `Panier.CartPage.IncreaseQuantity` | panier.js:159-173 | the cart becomes `Cart.Increased`; reload exactly when the id was present |
| `Cart.Increased` | panier.js:164-171 | a present entry's quantity grows by 1, nothing else changes; an absent id is a no-op |
| `Panier.CartPage.DecreaseQuantity` | panier.js:176-190 | the cart becomes `Cart.Decreased`; reload exactly when the quantity was above 1 |
| `Cart.Decreased` | panier.js:181-188 | a quantity above 1 drops by 1; at 1 or below, or absent, the cart is unchanged; others untouched |
| `Cart.DecreaseKeepsFloor` | panier.js:184-188 | a quantity of at least 1 stays at least 1; at 1 decreasing is a no-op; positive carts stay positive |
| `Cart.IncreaseThenDecrease` | panier.js:164-188 | increasing then decreasing an entry with quantity at least 1 restores the cart |
| `Records.LineTotal` | panier.js:128 | `price * quantity`, exact over real: equals the price at quantity 1, is 0 at quantity 0, and is non-negative for a non-negative price and quantity |
| `Cart.IncreaseAddsOnePrice` | panier.js:128 | after one more unit the row total `price * quantity` grows by exactly the price |
| `Cart.UpdatesKeepKeys` | script.js:170 | every cart update keeps each record under its own id (the keyPath) |
| `Cart.RunFollowsLifeCycle` | panier.js:159-190 | any run of add/set/+1/−1/remove on one id moves its quantity exactly as the one-entry life cycle does, other entries untouched |
| `Cart.LifeCycleKeepsFloor` | panier.js:184-188 | without setting a quantity below 1, an entry that is absent or at least 1 stays so through any run |
| `Cart.RemoveLast` | panier.js:102 | after any run ending in remove, the id is absent |
| `Cart.Walkthrough` | script.js:186-218 | add (`addToCart`) at price 25 gives quantity 1 and price 25; +1 gives 2; −1 twice floors at 1; remove leaves it absent (the later steps are the handlers at panier.js:95-114 and panier.js:159-190) |

## Left out

- Rendering: product cards, grid/list views, the cart table markup and the event-listener wiring. Only what reaches the display routines is modelled.
- The second definitions of `displayCartItem`/`createCartItemRow` and the duplicate `DOMContentLoaded` registration (page plumbing).
- The network request itself: only its outcome is a parameter. A failure of `displayProducts` inside the success branch, which would also send control to the fallback, is not modelled.
- Request and transaction callback ordering: each handler is one atomic step. So is the overlap of a readwrite transaction with the reload's readonly one.
- Logging to the console.
- JavaScript coercion: the loose `==` in `find`, and the string quantity that `this.value` passes (panier.js:140). Ids are one `Id` type and quantities are `int`. In the source, `updateQuantity` stores the typed string, e.g. `"3"` (panier.js:78). A later "+" then concatenates, `"3" + 1 == "31"` (panier.js:168), while "−" converts back to a number (`"3" - 1 == 2`, panier.js:184-185). So once a quantity has been typed, `Cart.Increased` and the life cycle `Cart.RunFollowsLifeCycle` describe the model's integer arithmetic, not the source's.
- Floating-point rounding: prices are `real` and `price * quantity` is exact.
- Unicode case mapping: `toLowerCase` is modelled on ASCII letters only.
- The order of cursor and `getAll` results: IndexedDB returns ascending key order. `Store.IsListing` states one record per key in an unspecified order.
- Opening a database whose version is above 1 (a VersionError), and the failure to open at all: the pages' `Valid()` assumes an open version-1 database.
- A fetched record without an `id`, which would make `put` throw in the middle of the puts.
