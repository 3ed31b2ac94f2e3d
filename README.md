# ecom-typescript-backend in Dafny

This is a model of the core of an Express/Mongoose e-commerce backend. It covers:

- the process-wide `NodeCache` and the order handlers that read through it;
- the writes that change the order collection and then ask for cache invalidation;
- the admin dashboard's aggregates, computed when the cache misses;
- the product controllers' pagination, filter, sort, update merge and validation order;
- the `age` virtual and the role and gender enumerations of the user model;
- the `adminOnly` gate;
- the photo-upload file name.

Layout, one module per file:

| file | models |
|---|---|
| `arith.dfy` | the division and multiplication facts shared by pagination and percentages |
| `wrappers.dfy` | `Option`, `Result`, the HTTP error `ApiError`, JavaScript truthiness of strings and numbers |
| `dates.dfy` | days as `(year, month 0–11, day)`, the `$gte`/`$lte` day windows, the month distance used by the charts |
| `users.dfy` | `Role`, `Gender`, the user document, `Age` |
| `auth.dfy` | `AdminOnly`, a function over the user store |
| `upload.dfy` | `split('.').pop()` and the stored file name |
| `orders.dfy` | the order document, the status switch, the new-order field check, the collection's `findById`, `find({user})`, `save` and `deleteOne` |
| `dashboard.dfy` | revenue folds, the six-slot charts (a loop over two arrays), category percentages (a `push` loop), the user ratio, the latest-transaction projection, the stats object |
| `cache.dfy` | the cache keys, the `NodeCache` class (`has`, `get`, `set`, `del`), the invalidation request, the assumed eviction set |
| `handlers.dfy` | class `Backend`: the cache, the order collection, a log of external calls, and the six order and dashboard handlers as methods |
| `products.dfy` | listing arithmetic and filter, and class `ProductStore` with create, get, update and delete |

How the handlers are modelled:

- Each handler is a method on the shared state.
- A cached value is stored as the typed value itself. `JSON.stringify` and `JSON.parse` are taken to round-trip. They do for the order documents. They do not for a stats object holding NaN or Infinity, which JSON turns into `null` (see "## Left out").
- The order collection is a sequence in the store's natural order, with unique ids.
- A ghost counter `storeReads` counts the cache misses that go to the store. A dashboard miss runs more than a dozen queries and counts once. This is how the model states that a cache hit does not query the store.
- `invalidateCache` and `reduceStock` are not part of this model. Each call to them is recorded in `calls`, with its argument exactly as the handler passes it.
- The effect of `invalidateCache` on the cache is an ASSUMPTION, `Cache.AssumedEvictions`, built only from the keys the readers use:
  - the `order` flag evicts `all-orders`, plus `my-orders-<user>` and `order-<id>` when those are given;
  - the `admin` flag evicts `admin-stats`;
  - the `product` flag evicts none of the modelled keys.
- Under that assumption `Backend.Valid()` includes `Coherent`: every `all-orders`, `my-orders-<user>` and `order-<id>` entry in the cache equals what a fresh query would return, for ids written as the canonical lower-case hex text of an ObjectId. Every handler preserves it. So a cached order read returns the same result as a store read. The `admin-stats` entry is only required to hold a stats object: it is not tied to any store (see "## Left out").
- The product handlers never call `invalidateCache`. The comment at `src/controllers/order.ts:9` says product writes should revalidate. As written, a product created, updated or deleted while `admin-stats` is cached leaves the cached category breakdown and product counts unchanged until some order write evicts them.

Other parameters of the model:

- Today's date.
- `calculatePercentage`, whose body is not part of this model.
- `mongoose.Types.ObjectId.isValid`.
- Mongoose's `Number` cast of a form field's text.
- The ids the store and `uuid` generate.
- The documents the dashboard's queries return (`Dashboard.Collections`).

Where the dashboard's date code is evidently wrong, the model keeps the code as written next to the corrected definition (see "## Findings"). `Handlers.Backend.GetDashboardStats` caches `Dashboard.DashboardStats`, which is built on the corrected definitions, not the object the code as written computes.

## Model

| member | source | states |
|---|---|---|
| Cache.MyOrdersKey | src/controllers/order.ts:72 | a user's list key is `my-orders-` followed by the user id |
| Cache.OrderKey | src/controllers/order.ts:128 | an order's key is `order-` followed by the order id |
| Cache.KeysInjective | src/controllers/order.ts:72-128 | distinct users get distinct `my-orders-` keys and distinct ids get distinct `order-` keys, both directions |
| Cache.KeyFamiliesDisjoint | src/controllers/order.ts:72-128 | no `my-orders-`, `order-`, `all-orders` or `admin-stats` key equals a key of another family |
| Cache.NodeCache.Get | src/controllers/order.ts:77-78 | `get` answers a value exactly when the key is present, and that value is the stored one |
| Cache.NodeCache.Set | src/controllers/order.ts:83 | `set` binds the key to the value and changes no other entry |
| Cache.NodeCache.Del | src/app.ts:25 | `del` removes exactly the listed keys; it answers how many entries went, counting a repeated key once |
| Cache.AssumedEvictions | src/controllers/order.ts:191-197 | assumed eviction set: the `order` flag evicts `all-orders` and the given user's and order's keys; `admin-stats` is evicted iff the `admin` flag is set; without `order`, nothing but `admin-stats` |
| Cache.EvictionsAreExact | src/controllers/order.ts:226-232 | a user's list is evicted iff the request has the order flag and names that user; the same holds for an order's entry and its id |
| Handlers.NewOrderRequest | src/controllers/order.ts:49-55 | `newOrder` passes product, order and admin as true, the body's user, no order id, and the product ids of the items in item order |
| Handlers.OrderWriteRequest | src/controllers/order.ts:191-197 | `processOrder` and `deleteOrder` pass product false, order and admin true, the order's user and its id, and no product ids |
| Handlers.SetKeepsCoherent | src/controllers/order.ts:83 | caching a fresh query result under its own key keeps every cached order entry equal to the store's answer |
| Handlers.ProcessKeepsCoherent | src/controllers/order.ts:188-197 | under the assumed evictions, saving the order with its next status, then invalidating, leaves no stale order entry: other users' lists and other orders' entries are still current |
| Handlers.DeleteKeepsCoherent | src/controllers/order.ts:223-232 | under the assumed evictions, deleting the order, then invalidating, leaves no stale order entry |
| Handlers.CreateKeepsCoherent | src/controllers/order.ts:34-55 | under the assumed evictions, creating an order under a fresh id, then invalidating, leaves no stale entry; the order's own key needs no eviction, because a missing id is never cached |
| Handlers.Backend.constructor | src/app.ts:25 | the cache starts empty over an existing collection with unique ids |
| Handlers.Backend.MyOrders | src/controllers/order.ts:66-92 | the result is the user's orders in store order; a hit returns the cached list and issues no query; a miss issues one query and caches the result under `my-orders-<user>`; the collection and the call log are unchanged |
| Handlers.Backend.AllOrders | src/controllers/order.ts:95-119 | the result is every order; the hit/miss behaviour is the same under `all-orders`; afterwards the key is present |
| Handlers.Backend.GetSingleOrder | src/controllers/order.ts:122-157 | the method succeeds iff the id is stored, returning that order; otherwise it is a 404 "Order not found"; a hit issues no query; on a miss, an unknown id leaves the cache unchanged and a found order is cached under `order-<id>` |
| Handlers.Backend.Invalidate | src/controllers/order.ts:191-197 | the request is appended to the call log and the assumed eviction set leaves the cache; nothing else changes |
| Handlers.Backend.NewOrder | src/controllers/order.ts:10-63 | a missing or falsy required field is a 400 "Please Enter All Fields" that changes nothing; otherwise the order is appended with status Processing (assumed: the order schema's default is not part of this model), then `reduceStock(items)` is logged, then the invalidation request is logged and applied |
| Handlers.Backend.ProcessOrder | src/controllers/order.ts:160-206 | an unknown id is a 404 that changes nothing and does not invalidate; otherwise that order alone is saved with its next status, then the cache is invalidated with the order's user and id |
| Handlers.Backend.DeleteOrder | src/controllers/order.ts:209-240 | an unknown id is a 404 that changes nothing and does not invalidate; otherwise exactly that order leaves the collection, then the cache is invalidated with the order's user and id |
| Handlers.Backend.GetDashboardStats | src/controllers/stats.ts:10-246 | a hit on `admin-stats` returns the cached stats and issues no query; a miss computes the corrected stats object `Dashboard.DashboardStats` and caches it under `admin-stats` |
| Orders.NextStatus | src/controllers/order.ts:174-185 | Processing becomes Shipped; every other status becomes Delivered, both directions |
| Orders.StatusReachesDelivered | src/controllers/order.ts:174-185 | Delivered is a fixed point, no status goes back to Processing, and two steps reach Delivered from any status |
| Orders.ProductIds | src/controllers/order.ts:54 | one product id per item, in item order |
| Orders.FindById | src/controllers/order.ts:166 | a found order is in the collection and carries the id; not found means no stored order has the id |
| Orders.FindByIdUnique | src/controllers/order.ts:166 | with unique ids, the lookup of a stored order's id finds that order |
| Orders.FoundIsOnlyOne | src/controllers/order.ts:215 | with unique ids, every stored order carrying a found id is the found order |
| Orders.OrdersOfUser | src/controllers/order.ts:82 | `find({ user })` holds exactly the stored orders of that user |
| Orders.ReplaceByIdEffect | src/controllers/order.ts:188 | after `save`, the id finds the new document, every other id finds what it found before, and ids stay unique |
| Orders.ReplaceOtherUser | src/controllers/order.ts:188 | saving an order does not change another user's list |
| Orders.RemoveById | src/controllers/order.ts:223 | the remaining orders are exactly those with another id |
| Orders.RemoveByIdEffect | src/controllers/order.ts:223 | after `deleteOne`, the id is not found, other lookups are unchanged, one document fewer remains, and ids stay unique |
| Orders.RemoveOtherUser | src/controllers/order.ts:223 | deleting another user's order does not change a user's list |
| Orders.AppendEffect | src/controllers/order.ts:34-43 | a created order is found under its fresh id, other lookups are unchanged, and ids stay unique |
| Orders.AppendUserLists | src/controllers/order.ts:34-43 | a created order joins the end of its owner's list and no other list |
| Dashboard.CountCreatedIn | src/controllers/stats.ts:40-72 | the number of products or users created in the window is the number of positions whose creation day lies in it; it is 0 iff no creation day does |
| Dashboard.OrdersCreatedIn | src/controllers/stats.ts:73-94 | the query returns only orders of the collection whose creation day lies in the window, every such order, and nothing when none does |
| Dashboard.OrdersCreatedInAppend | src/controllers/stats.ts:73-94 | the query over a concatenation is the concatenation of the queries, so the result keeps collection order and each document once |
| Dashboard.OrdersCreatedInOne | src/controllers/stats.ts:73-94 | a single order is returned once if its creation day lies in the window and is dropped otherwise |
| Dashboard.FemaleUsers | src/controllers/stats.ts:128 | the female count is the number of positions holding a female user |
| Dashboard.CategoryCount | src/controllers/stats.ts:192-194 | a category's count is the number of positions holding a product of it; it is 0 iff no product has it |
| Dashboard.Categories | src/controllers/stats.ts:127 | `distinct('category')` lists each category once, lists every product's category, and lists only categories some product has |
| Dashboard.RevenueAppend | src/controllers/stats.ts:133-142 | the revenue fold of a concatenation is the sum of the folds |
| Dashboard.RevenueOfOne | src/controllers/stats.ts:159-162 | an order without a total adds 0 to the revenue; one with a total adds that total |
| Dashboard.ChartSlot | src/controllers/stats.ts:181-186 | an order that is charted goes to a slot from 0 to 5 |
| Dashboard.FillMonthCharts | src/controllers/stats.ts:173-189 | the loop over two zeroed arrays of length 6 leaves the count and revenue charts of the order list |
| Dashboard.ChartStep | src/controllers/stats.ts:184-188 | one more order changes only its own slot: the count goes up by 1 and its total is added |
| Dashboard.MonthChartsBySlot | src/controllers/stats.ts:173-189 | slot k counts the orders placed 5 − k months back; its revenue is their total, or NaN as soon as one of them has no total, because the loop adds `order.total` without a default |
| Dashboard.MonthCountsTotal | src/controllers/stats.ts:177-189 | the counts add up to the number of orders 0 to 5 months back; other orders contribute nothing |
| Dashboard.ChartedOrdersOfWindow | src/controllers/stats.ts:89-94 | an order of the six-month query is charted iff it lies fewer than 6 calendar months back |
| Dashboard.CrossYearOrderMissesChart | src/controllers/stats.ts:181-186 | as written, an order in the six-month window from the previous year has a negative `monthDiff` and an index of at least 6, although it lies 1 to 6 months back |
| Dashboard.RoundedPercent | src/controllers/stats.ts:205 | the rounded percentage `r` satisfies `100·count/total − ½ < r ≤ 100·count/total + ½`, so a half rounds up; 0/0 is NaN and n/0 is Infinity |
| Dashboard.RoundedPercentBounds | src/controllers/stats.ts:205 | a part of the whole rounds to a percentage from 0 to 100 |
| Dashboard.CategoryShares | src/controllers/stats.ts:200-207 | the `push` loop yields one entry per tally, in order, each with its rounded percentage |
| Dashboard.CategorySharesWellDefined | src/controllers/stats.ts:192-207 | there is one entry per distinct category, in `distinct` order; its percentage is the rounded share of that category's product count in all products, finite and between 0 and 100 |
| Dashboard.Ratio | src/controllers/stats.ts:210-213 | male + female is the user count, female is the female count, and male ≥ 0 when the female count does not exceed the user count |
| Dashboard.LatestTransactions | src/controllers/stats.ts:216-222 | there are at most 4 entries, the first ones of the collection; each keeps id, discount and status, with amount = total and quantity = number of items |
| Dashboard.DashboardStatsProperties | src/controllers/stats.ts:225-235 | for the corrected stats: order count and revenue are those of all orders; both charts have 6 slots and the counts add up to the charted orders; category entries match the distinct categories with percentages from 0 to 100; the user ratio adds up; at most 4 transactions |
| Dashboard.AsWrittenChangesCompareWithZero | src/controllers/stats.ts:35-156 | with the last-month window as written, the last-month revenue, product, user and order figures are all 0, so every `changePercent` entry is `calculatePercentage(x, 0)` |
| Dates.FirstDayOf | src/controllers/stats.ts:30 | `new Date(y, m, 1)` is a valid first of a month, month index carried into the year |
| Dates.DayZeroOf | src/controllers/stats.ts:37 | `new Date(y, m, 0)` is the last day of the month before `m` |
| Dates.ThisMonth | src/controllers/stats.ts:29-32 | the window runs from the first of today's month to today |
| Dates.AsWrittenLastMonthIsEmpty | src/controllers/stats.ts:35-38 | as written, the last-month window ends before it starts, so it selects no day |
| Dates.LastMonthIsPreviousMonth | src/controllers/stats.ts:35-38 | the corrected window selects a day iff it lies in the previous calendar month |
| Dates.SixMonthsAgo | src/controllers/stats.ts:25-26 | the same day of the month, six calendar months back |
| Dates.SixMonthWindowMonthsBack | src/controllers/stats.ts:89-94 | every day of the six-month window lies 0 to 6 calendar months back |
| Dates.MonthsBack | src/controllers/stats.ts:181 | the corrected month distance is the difference of the months counted across years |
| Dates.MonthDiffAgreesWithinYear | src/controllers/stats.ts:181 | within one year, the written `monthDiff` equals the calendar distance |
| Dates.AsWrittenMonthDiffCrossYear | src/controllers/stats.ts:181 | a December order seen in January lies in the window, with `monthDiff` −11 against a true distance of 1 |
| Products.PageNumber | src/controllers/product.ts:213 | a missing, non-numeric or zero page is page 1, and any other number is kept |
| Products.PageSize | src/controllers/product.ts:214 | an unset, non-numeric or zero page size is 8, and any other number is kept |
| Products.SkipSteps | src/controllers/product.ts:215 | page 1 skips nothing and consecutive pages differ by the page size |
| Products.CeilDiv | src/controllers/product.ts:252 | the result is the ceiling of n / d, for either sign of d |
| Products.TotalPageBounds | src/controllers/product.ts:252 | `totalPage·limit ≥ matching`; `(totalPage − 1)·limit < matching` when something matches; `totalPage` is 0 iff nothing matches |
| Products.EveryMatchHasAPage | src/controllers/product.ts:213-252 | each match lies on a page from 1 to `totalPage`, inside that page's skip window |
| Products.ListingFilter | src/controllers/product.ts:218-236 | the filter has a name, price or category condition iff that parameter is a non-empty string, carrying that parameter, and no other field |
| Products.BuildBaseQuery | src/controllers/product.ts:218-236 | the field-by-field construction builds exactly that filter |
| Products.PriceSort | src/controllers/product.ts:240 | no sort when `sort` is missing or empty; ascending price iff `sort` is `asc`; otherwise descending |
| Products.DefaultListing | src/controllers/product.ts:213-252 | without a page and a configured size, the listing skips 0, shows 8 products and has ⌈matching/8⌉ pages |
| Products.Lower | src/controllers/product.ts:46 | the result keeps the length and lower-cases each ASCII letter |
| Products.LowerIsLower | src/controllers/product.ts:157 | a lower-cased category has no upper-case letter, and lower-casing is idempotent |
| Products.FormZeroIsTruthy | src/controllers/product.ts:30 | a form field `"0"` passes the create check, while a JSON 0 fails it |
| Products.CreatedProduct | src/controllers/product.ts:42-48 | the stored product carries the body's name, the cast price and stock, the category lower-cased, and the uploaded photo's path |
| Products.UpdateChangesOnlySupplied | src/controllers/product.ts:146-157 | both directions for each field: supplied truthy, it takes the supplied value (the category lower-cased, a form text cast to a number); otherwise it keeps the stored value; the id never changes; a JSON 0 keeps the old price and stock, a form `"0"` stores the cast of `"0"` |
| Products.UpdateIdempotent | src/controllers/product.ts:146-160 | applying the same update twice is the same as once |
| Products.ProductStore.Lookup | src/controllers/product.ts:104-114 | an id that fails `isValid` is a 404 "Invalid Product ID" before any lookup; an unknown id is a 404 with the handler's message; otherwise the stored product |
| Products.ProductStore.GetSingleProduct | src/controllers/product.ts:101-122 | the method succeeds iff the id is valid and stored, returning that product; every failure is a 404 with one of the two messages |
| Products.ProductStore.NewProduct | src/controllers/product.ts:16-56 | a missing photo is a 400 that changes nothing, checked before the fields; with a photo, a missing or falsy field is a 400 that removes the uploaded file and creates nothing; otherwise exactly the created product is added |
| Products.ProductStore.UpdateProduct | src/controllers/product.ts:125-168 | an invalid or unknown id is a 404 that changes nothing; otherwise the product becomes its merged update and no other product changes, and the old photo is removed iff a new one came |
| Products.ProductStore.DeleteProduct | src/controllers/product.ts:171-200 | an invalid id or an unknown one ("Product Not Found") is a 404 that changes nothing; otherwise the photo is removed and exactly that product leaves the store |
| Users.RoleFromField | src/models/user.ts:39-43 | a missing role defaults to `user`; a role is accepted iff it is `admin` or `user`, and it round-trips to the submitted text |
| Users.GenderFromField | src/models/user.ts:44-48 | a gender is accepted iff it is present and is `male` or `female`, and it round-trips |
| Users.EnumerationsRoundTrip | src/models/user.ts:11-12 | every role and gender reads back as itself |
| Users.Age | src/models/user.ts:60-78 | the age is the year difference, less 1 iff today's (month, day) comes before the birthday's |
| Users.AgeIsCompletedYears | src/models/user.ts:67-77 | the age-th birthday is on or before today and the next birthday is after today |
| Users.AgeNonNegative | src/models/user.ts:67-77 | a date of birth not after today gives an age of at least 0 |
| Users.AgeMonotone | src/models/user.ts:67-77 | for a fixed date of birth, the age never decreases as today advances |
| Auth.AdminOnly | src/middlewares/auth.ts:8-36 | no id: 401 "Please Login First to Access This Request"; unknown id: 401 "Invalid ID"; a non-admin: 401 "You are not an Admin"; the gate passes iff the id names an admin |
| Auth.RejectionsAre401 | src/middlewares/auth.ts:13-31 | every rejection has status 401 and one of the three messages |
| Auth.MissingIdSkipsLookup | src/middlewares/auth.ts:13-18 | without an id, the decision does not depend on the user store |
| Auth.OnlyTheNamedUserMatters | src/middlewares/auth.ts:21-31 | only the named user's presence and role decide |
| Upload.Split | src/middlewares/multer.ts:14 | `split` yields at least one piece and no piece contains the separator |
| Upload.JoinSplit | src/middlewares/multer.ts:14 | joining the pieces with the separator gives the name back |
| Upload.ExtensionIsAfterLastDot | src/middlewares/multer.ts:14 | the extension is the name's suffix after its last dot: a suffix, dot-free, preceded by a dot unless it is the whole name |
| Upload.NoDotWholeName | src/middlewares/multer.ts:14 | a name without a dot is its own extension |
| Upload.TrailingDotEmptyExtension | src/middlewares/multer.ts:14 | a name ending in a dot has an empty extension |
| Upload.ExtensionOfDottedName | src/middlewares/multer.ts:16 | whatever precedes a final dot-free piece, that piece is the extension |
| Upload.StoredFileName | src/middlewares/multer.ts:16 | the stored name starts with the generated id followed by a dot |
| Upload.StoredFileKeepsExtension | src/middlewares/multer.ts:10-18 | the stored name `id.ext` has the upload's extension; an original name ending in a dot gives the id followed by a dot |

`Upload.Destination` is the constant `./uploads` of `src/middlewares/multer.ts:8`.

Some definitions carry no contract of their own; the rows named here state what they do.
`Orders.HasRequiredFields` (`src/controllers/order.ts:29`) and `Orders.CreatedOrder` (`src/controllers/order.ts:34-43`) are stated by `Handlers.Backend.NewOrder`, `Orders.AppendEffect` and `Orders.AppendUserLists`.
`Dashboard.Revenue` (`src/controllers/stats.ts:133-142`) is stated by `Dashboard.RevenueAppend` and `Dashboard.RevenueOfOne`.
`Dashboard.DashboardStats` (`src/controllers/stats.ts:225-235`) is stated by `Dashboard.DashboardStatsProperties`.
`Products.ApplyUpdate` (`src/controllers/product.ts:146-157`) is stated by `Products.UpdateChangesOnlySupplied` and `Products.UpdateIdempotent`.
`Products.GetAllProducts` (`src/controllers/product.ts:213-252`) is stated by `Products.DefaultListing` and `Products.ListingFilter`.

## Left out

- `invalidateCache`, `reduceStock` and `calculatePercentage`: their bodies are not part of this model. The first two are recorded calls; the third is a function parameter. The cache effect of `invalidateCache` is the stated assumption `Cache.AssumedEvictions`, and `changePercent` is stated only in terms of the parameter.
- Product cache keys (`latest-products`, `categories`, `all-products`, `product-<id>`): no handler in the modelled files reads them, so the `product` flag evicts nothing here.
- JSON serialisation of cached values: values are stored as they are. The `populate('user', 'name')` of `allOrders` and `getSingleOrder` is not modelled; those readers return the stored documents.
- Handlers.Backend.MyOrders: a request without an `id` query parameter (key `my-orders-undefined`) is not modelled; the user is a string.
- Concurrency: `Promise.all`, and races between an invalidation and a read-through repopulation. Every handler runs to completion on its own.
- MongoDB query execution: regular-expression matching, the `Number` conversion of the price bound, sort, skip and limit, `countDocuments`, and the order `distinct` returns (modelled as first appearance). `getAllProducts` is modelled as the plan it sends plus its `totalPage` arithmetic.
- `getLatestProducts`, `getAllCategories` and `getAdminProducts`: single store reads with no logic of their own.
- Products.PageNumber: fractional page numbers are not modelled; the page is an integer or absent.
- Products.StoredNumber: Mongoose's `Number` cast of a form text is the parameter `castText`. A text it cannot cast makes `create` or `save` fail, and that error path is not modelled.
- Products.ProductStore.NewProduct: a request with a photo is a multipart form, so only `Text` fields reach its field check. Its `Number` case covers no request the route can deliver.
- Mongoose schema validation and casting errors (`required`, `enum`, a price that is not a number): the handlers pass them to the error middleware, which is not part of this model. `Users.RoleFromField` and `Users.GenderFromField` state what the enumerations accept.
- File system calls: `rm` is recorded in `removedFiles`, and its callback is not modelled. `uuid()` and the store's new ids are parameters.
- JavaScript `Date`:
  - the time of day is not modelled, so `thisMonth.end = today` covers all of today;
  - `setMonth` rolling a day that does not exist (31 August minus six months) into the next month is not modelled;
  - `Dates.SixMonthsAgo` keeps the day number.
- Products.Lower: only ASCII letters are lower-cased; Unicode case mapping is not modelled.
- Handlers.Backend.GetDashboardStats and Dashboard.DashboardStats: a miss caches the corrected stats, not the object `src/controllers/stats.ts` computes. As written, the last-month window is empty (`Dashboard.AsWrittenChangesCompareWithZero`). A previous-year order of the six-month window is written past the sixth chart slot, as set out under "## Findings". The as-written chart arrays are not modelled.
- Handlers.Backend.GetDashboardStats: a hit returns the stats object as it was cached. JSON turns a NaN or Infinity in the charts or percentages into `null`, so the real hit answers `null` where the miss answered NaN or Infinity.
- Handlers.Coherent: the `admin-stats` entry is only required to hold a stats object. `GetDashboardStats` reads the collections as the parameter `c`, which is not tied to `Backend.orders`, and product writes never evict the entry. So no contract says a cached stats object matches the store.
- Products.ProductStore.Lookup: ids are compared as texts. `Product.findById` casts the id to an ObjectId, which accepts upper-case hex digits. So `GetSingleProduct`, `UpdateProduct` and `DeleteProduct` answer 404 "Product not Found" (or "Product Not Found") for a non-canonical spelling of a stored id, where the source finds the product.
- Orders.FindById and Handlers.Coherent: ids are compared as texts. Mongoose's `findById` casts the id to an ObjectId, which accepts upper-case hex digits. `getSingleOrder` with an upper-case id would cache `order-<that text>`, while `processOrder` and `deleteOrder` evict `order-${String(order._id)}`, which is lower-case. That entry would go stale. Coherence is proved only for ids in canonical lower-case form. An id that is not an ObjectId is a `CastError`, which the error middleware answers with a 500. The model answers 404 "Order not found".
- Dashboard.RoundedPercent: the exact quotient is rounded half up. Floating-point rounding of `count / total * 100` is not modelled.
- The empty handlers `getPieChartData`, `getBarChartData` and `getLineChartData` (src/controllers/stats.ts:248-258).
- Wiring: `src/app.ts` apart from the cache instance, the routes, `src/middlewares/error.ts`, and type and schema declarations.
- `src/controllers/payment.ts` and `src/controllers/user.ts`: single store calls. `newCoupon` calls `next` without `return` and still creates the coupon.

## Findings

| source | as written | input that shows it | evidently intended | confidence | as-written member | corrected member |
|---|---|---|---|---|---|---|
| src/controllers/stats.ts:181 | `monthDiff = today.getMonth() - creationDate.getMonth()` ignores the year. An order of the six-month window from the previous year gets a negative `monthDiff`, passes `monthDiff < 6`, and gets index `6 - monthDiff - 1 ≥ 6`. `+=` on that index of a length-6 array reads `undefined` and stores NaN. Both arrays grow past 6 entries, the entries between stay holes, and the response sends them as `null`. The order is missing from its own slot | today 15 Jan 2025, order of 20 Dec 2024: `monthDiff` is −11 and the index is 16, while the order is 1 month back | the month distance counted across years, charted only when it is from 0 to 5 | high (not executed) | Dashboard.CrossYearOrderMissesChart | Dashboard.MonthChartsBySlot |
| src/controllers/stats.ts:37 | `lastMonth.end = new Date(y, m - 1, 0)` is the last day of the month two months back, before `lastMonth.start`. Every last-month query selects nothing, so each `changePercent` compares against 0 (`Dashboard.AsWrittenChangesCompareWithZero`) | today 15 Mar 2025: the window runs from 1 Feb 2025 to 31 Jan 2025 | `new Date(y, m, 0)`, the last day of the previous month | high (not executed) | Dates.AsWrittenLastMonthIsEmpty | Dates.LastMonthIsPreviousMonth |
