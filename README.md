# Storefront inventory and cart model

A Dafny model of the demo storefront's logic: the backend's in-memory
store (the product inventory, the registered identities, and the
`purchase`, `register` and `login` socket handlers) and the client's cart
and live-activity feed.

- `catalog.dfy`, module `Catalog`: the shared data. It holds `Product`,
  `User`, `Option`, and `First`, the first-match search that
  `Array.prototype.find` performs.
- `store.dfy`, module `Store`: the server. `CatalogStore` is a class whose
  `inventory` and `users` fields are the two global arrays of `server.js`.
  Its handlers are methods that reassign those fields.
  - Purchase is modelled as two passes over the cart, each a `while` loop:
    `CheckLines` stops at the first failing line, then `CommitLines`
    decrements the stock.
  - Both loops are proved against pure specification functions:
    `FirstFailure` for the check and `Commit` for the commit.
  - Lemmas prove what those functions mean: which stock moves and by how
    much, what stays unchanged, and when stock can go negative.
- `cart.dfy`, module `Cart`: `addToCart`, `clearCart` and `totalItems` of
  `src/App.tsx`, as pure functions over `seq<CartItem>`. The cart
  invariant is one line per product, each holding at least one item. Lemmas
  prove that adding preserves it.
- `activity.dfy`, module `Activity`: the `live_activity` feed update
  (prepend, keep 3) and what a run of updates leaves in the feed.
- `checkout.dfy`, module `Checkout`: the cart is sent as a purchase request
  and cleared on success. Every cart the page can build has distinct ids,
  so the server's per-line check cannot let that cart overdraw.

Where the design and the code differ, the model follows the code:
- The design says every stock stays at 0 or above, and that a purchase
  that would break this is rejected. The code checks each cart line on its
  own (server.js:38), so a cart that repeats an id can drive a stock
  negative. See "## Findings".
- The design says a new identity gets a unique id. The code uses
  `Date.now()` (server.js:65). The model takes the id as a parameter and
  claims no uniqueness for it.
- A line with a negative quantity passes the per-line check and raises the
  product's stock when committed. The code does this, and so does the
  model.

## Model

| member | source | states |
|---|---|---|
| Catalog.First | server.js:37 | The result is the index of the first element satisfying the predicate, with no earlier element satisfying it; None exactly when no element does. |
| Store.FindProduct | server.js:37 | `inventory.find` by id: the first product with that id, or None exactly when no product has it. |
| Store.FindProductSameIds | server.js:47-49 | The second pass's lookup finds the same product as the first pass's, because decrementing stock leaves every id in place. |
| Store.LineFits | server.js:37-38 | A line passes the first pass exactly when some product is the first one carrying the line's id and holds at least the line's quantity. |
| Store.FirstFailure | server.js:36-43 | The index of the first cart line, in cart order, whose id is unknown or whose quantity exceeds that product's stock. Every earlier line passes. None exactly when every line passes. |
| Store.CatalogStore.CheckLines | server.js:33-43 | The first pass succeeds exactly when no line fails. On failure, `failedItem` is the name of the first failing line. |
| Store.CatalogStore.CommitLines | server.js:46-51 | After the second pass, the inventory is the old inventory with each line's quantity taken from the first product with its id, in cart order. |
| Store.CatalogStore.Purchase | server.js:32-58 | All-or-nothing. If any line fails, the inventory is unchanged and the reply is failure with "Insufficient stock for " plus the first failing line's name, with no broadcast. Otherwise every line is committed and the reply is success with "Purchase successful!" and a broadcast. Only stock fields change, users are untouched, and the store invariant is kept. On a store satisfying its invariant, a successful purchase lowers each product's stock by exactly the sum of the quantities of the cart lines carrying its id. |
| Store.Decrement | server.js:47-49 | One step of the second pass changes only stock fields, and keeps the products' number and order. |
| Store.DecrementAt | server.js:47-49 | In one step, the first product carrying the line's id loses the line's quantity. Every other product is unchanged. |
| Store.Commit | server.js:46-51 | The whole second pass changes only stock fields, and keeps the products' number and order. |
| Store.CommitCharges | server.js:46-51 | After the commit, each product differs from its old value only in stock. Its stock drops by the sum of the quantities of the lines carrying its id, if it is the first product with that id, and by nothing otherwise. No product is added, removed or moved. |
| Store.CommitShape | server.js:46-51 | The commit never adds, removes or reorders products, and changes only stock fields. A product no line names is unchanged. |
| Store.CommitUniqueIds | server.js:46-51 | With unique product ids, as in the seed inventory, every product's stock drops by exactly the sum of the quantities of the lines carrying its id. |
| Store.DistinctCartKeepsStock | server.js:38 | When the cart's ids are distinct and every stock starts at 0 or above, a cart that passes the check leaves every stock at 0 or above. |
| Store.DuplicateLinesOverdraw | server.js:38 | Counterexample on the seed inventory: two "Quantum Core" lines of 12 both pass the check, and the commit leaves its stock at -12. |
| Store.FirstShortfall | server.js:36-43 | Corrected check: the first line whose product is unknown or holds less than the whole cart's demand for that id. Every earlier line is covered. None exactly when every line is covered. |
| Store.CheckedCartKeepsStock | server.js:36-51 | Under the corrected check, a cart that passes leaves every stock at 0 or above, whatever ids it repeats. |
| Store.ShortfallAgreesOnDistinct | server.js:38 | On carts with distinct ids, the corrected check returns the same verdict and the same failing line as the code's check. |
| Store.ShortfallCatchesDuplicates | server.js:38 | The corrected check rejects the duplicate-line cart and names its first line. |
| Store.FindUser | server.js:61 | `users.find` by exact email: the first identity with that email, or None exactly when none has it. |
| Store.AfterRegister | server.js:60-68 | When some identity already has the email, the identity list is unchanged. When none has it, the old list is kept as a prefix and exactly one identity, with the given id, name and email, is appended. If emails were unique before, they are unique after. |
| Store.RegisterReply | server.js:60-68 | The reply fails, with "Identity already exists in the Aether.", exactly when some identity has the email. Otherwise it returns the new identity. |
| Store.LoginReply | server.js:70-78 | Login succeeds exactly when some identity has the email, and then returns the first such identity. Otherwise it fails with "Identity not found.". No password is involved. |
| Store.RegisterTwice | server.js:61-66 | A second register with the same email fails and changes nothing. In all, the list grows by 1 if the email was new and by 0 otherwise. |
| Store.RegisterThenLogin | server.js:60-78 | After a register, login with that email succeeds. It returns the identity the register reply named, or the earlier identity when the register was refused. |
| Store.CatalogStore.constructor | server.js:17-25 | The store starts with the four seed products and no identities, and satisfies its invariant. |
| Store.CatalogStore.Register | server.js:60-68 | The new identity list and the reply are those of AfterRegister and RegisterReply on the old list. The inventory is untouched and the invariant is kept. |
| Store.CatalogStore.Login | server.js:70-78 | The reply is LoginReply on the current identities and the email. The password argument plays no part, and nothing changes. |
| Cart.FindLine | src/App.tsx:170 | `cart.find` by product id: the first line for that product, or None exactly when there is none. |
| Cart.QuantityInCart | src/App.tsx:170-171 | The quantity already in the cart for a product. It is 0 when no line carries the product's id. With one line per product, it is that line's quantity. |
| Cart.IncrementLines | src/App.tsx:180 | Every line for the product gains exactly one item. Every other line keeps its quantity, all products are kept in order, and the lookup by id finds the same line as before. |
| Cart.AddToCart | src/App.tsx:169-184 | The add is refused, with "Not enough stock for " plus the product name, exactly when the quantity already in the cart is at least the product's stock. A product not yet in the cart is appended as one new line with quantity 1. |
| Cart.CartAfter | src/App.tsx:169-184 | The cart after one `addToCart`: the old cart when the add is refused by the early return, otherwise the cart handed to `setCart`. Lines are never removed or reordered, every existing line keeps its product, and at most one line is added. |
| Cart.ClearCart | src/App.tsx:186 | The cleared cart has no lines and counts 0 items. |
| Cart.RefusedAddKeepsCart | src/App.tsx:173-176 | A refused add leaves the cart unchanged. |
| Cart.AddRaisesExistingLine | src/App.tsx:179-180 | With one line per product, adding a product already in the cart raises that line's quantity by exactly 1 and leaves every other line unchanged. |
| Cart.AddWithinStock | src/App.tsx:170-182 | After a successful add, the product's quantity in the cart is one more than before, and at most the stock it was checked against. |
| Cart.AddKeepsValid | src/App.tsx:169-184 | Adding keeps one line per product, each holding at least one item. |
| Cart.Clicks | src/App.tsx:169-184 | The cart built by a run of product-grid clicks (the "Add to Cart" button of src/App.tsx:126-129), one `addToCart` per product, in order. The lines it started with keep their place and product, and each click adds at most one line. These are the carts the page can build. |
| Cart.ClicksKeepValid | src/App.tsx:169-184 | Every cart built by any sequence of adds from a valid cart, and so from the empty one, has unique ids and positive quantities. |
| Cart.TotalItems | src/App.tsx:204 | The item count is at least 0 when no quantity is negative. It is at least the number of lines when every line holds an item. |
| Cart.TotalItemsAppend | src/App.tsx:204 | The item count is additive over concatenation: the count of a cart is the sum of its lines' quantities. |
| Cart.TotalItemsUpdate | src/App.tsx:204 | Replacing one line changes the count by exactly the difference of the two quantities. |
| Cart.AddCountsOne | src/App.tsx:169-204 | On a cart with one line per product, every successful add raises the item count by exactly 1. |
| Activity.Prefix | src/App.tsx:154 | `slice(0, n)`: the first n elements, or the whole list when it is shorter. |
| Activity.Push | src/App.tsx:154 | The new event comes first, the older entries follow in order, and the feed holds at most 3 entries. |
| Activity.Replay | src/App.tsx:153-155 | A run of updates never grows a feed beyond 3 entries. After at least one event, the feed starts with the newest event. |
| Activity.PushPrefix | src/App.tsx:154 | Truncating a feed to 3 before pushing gives the same feed as pushing onto the untruncated one. |
| Activity.ReplayKeepsNewest | src/App.tsx:153-155 | After any run of events, the feed is its three newest entries overall, newest first: the events in reverse arrival order, followed by the earlier feed. |
| Activity.FeedFromEmpty | src/App.tsx:153-155 | From an empty feed, the feed holds min(3, number of events) entries, and entry i is the i-th most recent event. |
| Checkout.Payload | src/App.tsx:191 | The purchase request has one line per cart line, carrying that line's product id, product name and quantity. |
| Checkout.AfterReply | src/App.tsx:191-199 | A successful reply leaves the empty cart, with 0 items. A failed one keeps the cart unchanged. |
| Checkout.PayloadDistinct | src/App.tsx:191 | A cart with one line per product yields a request with distinct ids. |
| Checkout.ClientCartKeepsStock | src/App.tsx:188-202 | A request from any cart the page can build never overdraws: if the server accepts it, every stock stays at 0 or above. |
| Checkout.ClientCartChecksAgree | src/App.tsx:188-202 | On any cart the page can build, the code's per-line check and the corrected per-product check agree. |

## Findings

| source | as written | input that shows it | evidently intended | confidence | as-written member | corrected member |
|---|---|---|---|---|---|---|
| server.js:38 | each line's quantity is compared with the product's stock on its own | seed inventory with the cart `[{id "1", quantity 12}, {id "1", quantity 12}]`: both lines pass, and "Quantum Core" stock becomes -12 | reject a purchase whose total demand for a product exceeds its stock, so that stock never drops below 0 | not executed; medium | Store.DuplicateLinesOverdraw | Store.CheckedCartKeepsStock |

The corrected check is `Store.FirstShortfall`. It agrees with the code's
check on every cart with distinct ids (`Store.ShortfallAgreesOnDistinct`).
That includes every cart the page itself builds
(`Checkout.ClientCartChecksAgree`). So the two checks differ only on
requests built some other way. `Store.CatalogStore.Purchase` keeps the
check the code uses.

## Left out

- The socket.io transport is not modelled: connection and disconnection
  logging, `socket.emit`, callbacks, CORS, the Express setup and `listen`.
  The broadcast after a successful purchase is the `broadcast` flag of the
  reply. The `inventory_init` snapshot on connect is the store's
  `inventory` field.
- The timer-driven activity generator is not modelled. It uses
  `Math.random` and locale time formatting. The model covers only how the
  client's feed absorbs the events.
- Identity ids come from `Date.now()`. The clock is replaced by an `id`
  parameter of `Register`, and no uniqueness of ids is claimed.
- Prices and the cart's money total are floating point. The price is
  carried as a `real` and never computed with.
- Payloads are not validated in the source. The model types them: ids,
  names and emails are strings and quantities are integers. Missing fields
  (an `undefined` name printed into the message), fractional quantities and
  `NaN` are not modelled.
- Concurrency is out of scope. Each handler runs to completion without
  interleaving, as on the single-threaded event loop, so each method is
  atomic.
- `addToCart` reads `cart` from its render closure and updates through
  `setCart(prev => ...)`. The model assumes both are the same cart value,
  with no queued update in between.
- The UI is not modelled, and neither are `src/AnimatedBackground.tsx` and
  `src/AuthModal.tsx`. That covers the custom cursor, the card tilt maths,
  the notifications and their timeouts, the checkout delay and all
  rendering. `AuthModal` only forwards to the register and login handlers
  modelled here.
