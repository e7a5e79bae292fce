# Mineral inventory system: a Dafny model of its stock and listing logic

This project models the parts of the inventory system that decide stock quantities, and the
parts that decide what the lists and tables show:

- **Saving an order** (`POST /api/v1/orders/save-order`).
  - The body is validated against the order schema and the order is stored with its line items.
  - In one all-or-nothing transaction, every line then takes stock out of a product and appends an
    OUT row to the stock-movement ledger:
    - a bundle line takes `pack × quantity` from the bundle's product;
    - any other line takes `quantity` from the product with that `product_number`;
    - every gift tier with a positive count takes that count from the product with that
      `product_number`.
  - A schema violation or a failed transaction appends one row to the error log.
  - The database is a class (`Store.Database`) whose fields the handler updates in place.
- **Creating a product** (`POST /api/v1/products`).
  - The product schema checks the body.
  - The product is stored with `quantity = stock_quantity ?? 0`, plus an opening IN ledger row
    when both the movement type and the quantity are given.
- **The three list endpoints** (`GET /api/v1/products`, `/stocks`, `/orders`).
  - Each builds a Prisma where-object step by step. The where-object is modelled together with
    what it means for a row.
  - The page is clamped to `[1, totalPages]` and the matching `skip` is computed.
  - Next and previous links are built, and carry only some of the filters.
- **The route table of the middleware.** This covers segment matching with `:` placeholders, the
  first-match lookup over the JWT route table, the origin check, and the pass-through the
  middleware returns today.
- **The four stock-status classifications.** These are the list endpoint's `status` filter, the
  dashboard cards, the stock table's badge and the dashboard table's badge. They are compared
  with one another.
- **The table components' state and helpers.**
  - State: the filter bar, the pager, the restock and delete dialogs, and the order-detail dialog.
  - Helpers: the page step after a delete, the hidden-column filter, the timestamp rewrite, the
    created-by first name, and the colour and caption mappings.

Parameters stand in for I/O and the environment:

- `now` for the clock;
- `dayStart` for JavaScript's date parsing;
- `env` for `NEXT_PUBLIC_REORDER_POINT`;
- `total` for the row count the database returns;
- `base` for `NEXT_PUBLIC_API_BASE_URL`.

`parseInt` (with radix 10, and without a radix, where a `0x` prefix reads hexadecimal), `trim`
(with the full ECMAScript white-space set) and `split` are written out (`JsText`). NaN is `None`. Timestamps are integer
milliseconds, and the next day is `+ 86_400_000`.

Modules:

| module | models |
|---|---|
| `Wrappers`, `JsText`, `Zod` | Option/Result, JavaScript string and number helpers, the Zod issue format |
| `WhereFilter` | Prisma where-objects and when a row satisfies one |
| `Paging` | the shared page clamp, `skip`, and link parameters |
| `ProductList`, `StockList`, `OrderList` | the three GET handlers |
| `Store` | the database class and the ledger invariant |
| `OrderSchema`, `SaveOrder` | order validation and the save-order transaction |
| `ProductCreate` | product validation and creation |
| `Middleware` | the route matcher and table |
| `StockStatus`, `Stats`, `StatusCopies` | stock levels, dashboard cards, comparison of the four classifications |
| `TableCommon`, `StockTable`, `ProductTableDashboard`, `StockMovementTable`, `OrderTable` | the table components |

Where the source's comments and its code differ, the model follows the code. For example:

- the save-order route's catch block logs `JSON.stringify(req.body)` of a body stream that has
  already been read, and the model logs `"{}"`;
- the product schema's `pack` is `.default(1).nullable().optional()`, so an absent `pack` stays
  absent.

## Model

| member | source | states |
|---|---|---|
| JsText.TrimStart | app/api/v1/stocks/route.ts:26 | `trim()`'s leading part: the result is a suffix of the input, only white space (tab, VT, FF, space, NBSP, BOM, the Zs spaces and the line terminators) is removed, and it does not start with white space |
| JsText.TrimEnd | app/api/v1/stocks/route.ts:26 | `trim()`'s trailing part: the result is a prefix of the input, only white space (the same set) is removed, and it does not end with white space |
| JsText.Trim | app/api/v1/stocks/route.ts:26 | `s.trim()`: the trailing part applied to the leading part (stated by `TrimEdges` and `TrimRemovesOnlySpace`) |
| JsText.TrimEdges | app/api/v1/stocks/route.ts:26 | the trimmed text is no longer than the input, and neither its first nor its last character is white space |
| JsText.TrimRemovesOnlySpace | app/api/v1/stocks/route.ts:26 | the trimmed text is the piece of the input after its leading white space, and every character before and after that piece is white space |
| JsText.ParseInt | app/api/v1/products/route.ts:81-82 | `parseInt(s, 10)`: leading white space, an optional sign, then the longest run of decimal digits (stated by `ParseIntNaN`, `ParseIntNumberText` and `ParseIntIgnoresTrim`) |
| JsText.ParseIntNaN | app/api/v1/products/route.ts:81-82 | `parseInt(s, 10)` is NaN exactly when no decimal digit follows the leading white space and the sign |
| JsText.ParseIntAuto | app/api/v1/stocks/route.ts:26 | `parseInt(s)` without a radix: the same as with radix 10 unless a `0x`/`0X` follows the sign, and then NaN exactly when no hexadecimal digit follows the prefix |
| JsText.HexPrefixRead | app/api/v1/stocks/route.ts:26 | `parseInt("0x1F")` is 31 |
| JsText.SignedHexPrefixRead | app/api/v1/stocks/route.ts:26 | `parseInt("-0x10")` is −16 |
| JsText.BareHexPrefixIsNaN | app/api/v1/stocks/route.ts:26 | `parseInt("0x")` is NaN |
| JsText.DecimalStopsAtHexPrefix | app/api/v1/products/route.ts:81-82 | with radix 10, `"0x1F"` reads as 0, so the two forms differ |
| JsText.ParseIntAutoNumberText | app/api/v1/stocks/route.ts:26 | `parseInt` without a radix reads back the decimal text of any integer |
| JsText.ParseIntAutoIgnoresTrim | app/api/v1/stocks/route.ts:26 | `parseInt(s.trim())` equals `parseInt(s)` without a radix too, hexadecimal texts included |
| JsText.Utf16Length | app/api/v1/products/route.ts:143-156 | the length JavaScript reports: between the number of characters and twice it, equal to it when every character is in the basic plane and twice it when none is |
| JsText.Utf16LengthAppend | app/api/v1/products/route.ts:143-156 | the JavaScript length of a concatenation is the sum of the lengths |
| JsText.LeadingDigits | app/api/v1/products/route.ts:81-82 | the digits `parseInt` reads: a prefix of the text that is all digits and stops at the first non-digit |
| JsText.ParseIntDefaults | app/api/v1/products/route.ts:81-82 | the fallback texts `'1'` and `'10'` parse to 1 and 10 |
| JsText.ParseIntNumberText | app/api/v1/products/route.ts:112 | `parseInt` reads back the decimal text of any integer, negative ones included (the page number in a link) |
| JsText.TrimStartIdempotent | app/api/v1/stocks/route.ts:26 | trimming the start twice is trimming it once |
| JsText.ParseIntIgnoresTrim | app/api/v1/stocks/route.ts:26 | `parseInt(s.trim())` equals `parseInt(s)` for every text |
| JsText.ParseSignedTrimEnd | app/api/v1/stocks/route.ts:26 | trailing white space never changes what a signed number parses to |
| JsText.Split | components/tables/StockMovementTable.tsx:111 | `split` gives at least one piece, and no piece contains the separator |
| JsText.JoinSplit | components/tables/StockMovementTable.tsx:111 | joining the pieces of a split with the separator gives back the text |
| JsText.SplitJoin | middleware.ts:72-73 | splitting a join of separator-free pieces gives back the pieces |
| JsText.SplitNoSep | middleware.ts:72-73 | a text without the separator splits into itself alone |
| JsText.SplitPrefix | middleware.ts:72-73 | a separator-free head followed by the separator splits off as the first piece |
| JsText.Join | middleware.ts:72-73 | `parts.join(sep)` (stated by `JoinSplit` and `SplitJoin`) |
| JsText.NumberOr | components/Stats.tsx:23 | `n \|\| d` on a number: the number when it is neither NaN nor 0, otherwise the default |
| JsText.TextOr | app/api/v1/products/route.ts:87 | `s \|\| d` on a text: the text when it is non-empty, otherwise the default |
| JsText.NonEmpty | app/api/v1/products/route.ts:83-86 | `s \|\| undefined`: present exactly when the text is non-empty, and then unchanged |
| WhereFilter.DayRange | app/api/v1/products/route.ts:20-29 | the date filter holds of a timestamp exactly when it lies in the half-open day `[start, start + 1 day)` |
| WhereFilter.Put | app/api/v1/products/route.ts:20-45 | one guarded `where.key = c` step: sets the key when the guard holds and changes nothing otherwise |
| WhereFilter.PutMatches | app/api/v1/products/route.ts:20-45 | a row satisfies the where-object after a guarded step exactly when it satisfied it before and, if the guard held, also satisfies the new condition |
| WhereFilter.Holds | app/api/v1/products/route.ts:18-73 | when one where-entry holds of a row: equality, `contains`, the `gte`/`lt` range, `not: null`, and a condition on a related record |
| WhereFilter.Matches | app/api/v1/stocks/route.ts:13-37 | a row matches a where-object when every entry holds of it |
| Paging.NumberParam | app/api/v1/products/route.ts:81-82 | `parseInt(get(key) \|\| dflt)`: the default when the parameter is absent or empty, otherwise `parseInt` of its text |
| Paging.EffectiveLimit | app/api/v1/products/route.ts:94 | `limit \|\| 10`: never 0, and 10 exactly when the limit is NaN or 0 |
| Paging.CeilDiv | app/api/v1/products/route.ts:94 | `Math.ceil(a / b)` bounded on both sides for either sign of `b` |
| Paging.TotalPages | app/api/v1/products/route.ts:94 | with a positive limit the page count is at least 0, and 0 exactly when there are no rows; with a negative limit it is at most 0 |
| Paging.CeilDivSign | app/api/v1/products/route.ts:94 | the sign of the page count follows the sign of the limit |
| Paging.AdjustedPage | app/api/v1/products/route.ts:95 | the clamp is at least 1 and at most `totalPages` when there is a page; it is 1 when there are no rows or the request (after `\|\| 1`) is below 1, the requested page when that is in range, and the last page when the request is past it |
| Paging.Skip | app/api/v1/products/route.ts:99 | `skip = (page − 1) × (limit \|\| 10)` is 0 exactly on the first page, and never negative for a page of at least 1 and a positive limit |
| Paging.PageWindow | app/api/v1/products/route.ts:94-99 | with a positive limit, `skip < total` whenever there are rows; there is a next page exactly when rows lie past this page, and a previous page exactly when `skip > 0` |
| Paging.NegativeLimitSinglePage | app/api/v1/products/route.ts:94-99 | a negative `limit` pins the page to 1 with `skip = 0` and no next link |
| Paging.LimitText | app/api/v1/products/route.ts:112 | `${queryParams.limit}`: the parsed limit as written into a link, `NaN` included (stated by `LimitTextReadsBack`) |
| Paging.LimitTextReadsBack | app/api/v1/products/route.ts:112 | the limit a link carries reads back through `parseInt(…, 10)` as the limit it was made from, NaN as NaN |
| Paging.OptionalParam | app/api/v1/products/route.ts:113-115 | `key ? '&key=value' : ''`: one parameter exactly when the value is non-empty |
| Paging.Keys | app/api/v1/products/route.ts:111-118 | the parameter names of a link, in order |
| Paging.KeysAppend | app/api/v1/orders/route.ts:66 | the names of concatenated parameter lists are the concatenated names |
| Paging.OptionalKeys | app/api/v1/orders/route.ts:62-65 | an optional parameter contributes its name exactly when its value is non-empty |
| Paging.ParamValue | app/api/v1/products/route.ts:111-118 | reading a parameter finds a value exactly when the name occurs |
| Paging.ParamValueAppend | app/api/v1/products/route.ts:117 | reading a parameter from concatenated lists finds it in the first list that has it |
| Paging.ParamValueParts | app/api/v1/products/route.ts:112-115 | what the `page`/`limit` prefix and one optional parameter answer for each name |
| Paging.PageMeta | app/api/v1/products/route.ts:122-128 | the `meta` block: the clamped page, the page count, and a next (previous) link exactly when the page is below the last (above the first), pointing at the adjacent page |
| Paging.PageFind | app/api/v1/products/route.ts:97-100 | the `findMany` arguments: the same where-object, `skip = (page − 1) × (limit \|\| 10)`, `take = limit`, and the ordering flag as given: true for `orderBy: { created_at: 'desc' }`, false for no `orderBy` |
| Paging.PageResponse | app/api/v1/products/route.ts:90-133 | the response every list handler gives: the where-object, `take = limit`, the clamped page, `meta.limit` as given, a next (previous) link exactly when the page is below the last (above the first), and the skip inside the rows |
| Paging.Render | app/api/v1/products/route.ts:111-118 | the link as text: base, resource, `?`, then the `key=value` pieces joined by `&`, each value through the encoder when the source encodes it (stated by `RenderReadsBack`) |
| Paging.RenderParamsJoin | app/api/v1/products/route.ts:111-118 | the query string is the list's `key=value` pieces joined by `&` |
| Paging.PieceSplits | app/api/v1/products/route.ts:111-118 | a piece whose key has no `=` splits at its first `=` into the key and the written value |
| Paging.RenderReadsBack | app/api/v1/products/route.ts:111-118 | when no key holds `=` or `&` and no written value holds `&`, the rendered query string splits back into one piece per parameter, in order, each giving back its key and its written value |
| ProductList.ReadParams | app/api/v1/products/route.ts:80-89 | category, date, name and status are present exactly when given non-empty; search defaults to `''` |
| ProductList.FilterFor | app/api/v1/products/route.ts:72 | the where-object always holds `pack: 1` and `active_at: { not: null }`, whatever the other entries are |
| ProductList.QueryFilter | app/api/v1/products/route.ts:18-73 | the step-by-step build gives exactly the where-object `FilterFor` describes |
| ProductList.ProductRow | app/api/v1/products/route.ts:97-109 | a product's row carries the fields the filter reads |
| ProductList.CategoryMeaning | app/api/v1/products/route.ts:37-45 | the category filter holds exactly when the product has a category of that name |
| ProductList.CategoryRecordMeaning | app/api/v1/products/route.ts:38-44 | one category record satisfies `category: { name }` exactly when the names are equal |
| ProductList.StatusMeaning | app/api/v1/products/route.ts:47-68 | the status step narrows the rows by the status band and by nothing else |
| ProductList.StatusBands | app/api/v1/products/route.ts:47-67 | LOW is `0 < q ≤ 10`, NORMAL is `q > 10`, OUT_OF_STOCK is `q = 0`, so a negative quantity matches no status |
| ProductList.SearchMeaning | app/api/v1/products/route.ts:69-71 | the search holds when the name or the SKU contains the text |
| ProductList.FilterKeys | app/api/v1/products/route.ts:18-68 | the keys each stage of the build can set |
| ProductList.FieldFiltersMeaning | app/api/v1/products/route.ts:20-45 | the date, name and category entries hold exactly when the product was created that day, its name contains the text, and it has that category |
| ProductList.ParamFiltersMeaning | app/api/v1/products/route.ts:18-71 | adding the status and search entries narrows by the status band and the name-or-SKU search |
| ProductList.FixedEntriesMeaning | app/api/v1/products/route.ts:72 | the trailing spread narrows the parameters' filter to single-pack, published products |
| ProductList.FixedEntriesOver | app/api/v1/products/route.ts:72 | the two fixed entries narrow any where-object by `pack = 1` and `active_at` not null |
| ProductList.FilterMeaning | app/api/v1/products/route.ts:18-73 | a product is listed exactly when it is one pack and published, matches every parameter given, and lies in the status band |
| ProductList.PageLink | app/api/v1/products/route.ts:111-118 | links point at the `products` resource under the base URL |
| ProductList.LinkLookup | app/api/v1/products/route.ts:111-118 | the link's parameter list answers page, limit, and search, category and date when they are set, and nothing else |
| ProductList.PageLinkCarries | app/api/v1/products/route.ts:111-118 | the link's parameter list holds the page number, the limit, and the search, category and date; name, status and any other key are dropped |
| ProductList.List | app/api/v1/products/route.ts:78-138 | the handler reads the parameters, builds the filter step by step, and answers the page `PageResponse` describes for that filter with `PageLink` links; `findMany` gets no `orderBy` (the one at lines 91 and 101 is commented out), so the rows come in the database's default order |
| StockList.ReadParams | app/api/v1/stocks/route.ts:41-48 | name, movementType, date and search are present exactly when given non-empty |
| StockList.SearchId | app/api/v1/stocks/route.ts:26 | `parseInt(search.trim())` without a radix, as a where-value: NaN when the text does not start with a number (stated by `SearchIdMeaning`) |
| StockList.SearchIdMeaning | app/api/v1/stocks/route.ts:25-27 | the `product_id` value is the integer `id` exactly when `parseInt(search)` without a radix gives `id` (so `0x` texts read as hexadecimal), and NaN otherwise |
| StockList.SearchIdOfHex | app/api/v1/stocks/route.ts:26 | a search of `"0x1F"` looks for product 31 |
| StockList.QueryFilter | app/api/v1/stocks/route.ts:13-37 | the step-by-step build gives exactly the where-object `FilterFor` describes |
| StockList.MovementRow | app/api/v1/stocks/route.ts:58-77 | a movement's row carries the fields the filter reads |
| StockList.ProductNameMeaning | app/api/v1/stocks/route.ts:31-35 | the name filter holds exactly when the related product's name contains the text |
| StockList.FilterWithMeaning | app/api/v1/stocks/route.ts:13-37 | a movement matches exactly when it is from that day, has that product id, has that movement type, and its product's name contains the text |
| StockList.FilterFor | app/api/v1/stocks/route.ts:13-37 | the where-object `queryFilter` builds: date range, product id, movement type and product name, each when given (stated by `FilterMeaning`) |
| StockList.FilterMeaning | app/api/v1/stocks/route.ts:13-37 | as above, with the product id being `parseInt(search.trim())` without a radix; a search that does not parse matches nothing |
| StockList.SearchIgnoresPadding | app/api/v1/stocks/route.ts:26 | trimming the search never changes the id it parses to, with or without a radix |
| StockList.PageLink | app/api/v1/stocks/route.ts:79-91 | links point at the `stocks` resource under the base URL |
| StockList.LinkLookup | app/api/v1/stocks/route.ts:79-91 | the link's parameter list answers page, limit, and name, movementType and date when they are set, and nothing else |
| StockList.PageLinkCarries | app/api/v1/stocks/route.ts:79-91 | the link's parameter list holds the page, limit, name, movementType and date, and no search |
| StockList.List | app/api/v1/stocks/route.ts:39-117 | the handler reads the parameters, builds the filter step by step, and answers the page `PageResponse` describes for that filter, newest first (`orderBy: { created_at: 'desc' }`), with `PageLink` links |
| OrderList.ReadParams | app/api/v1/orders/route.ts:39-44 | only page, limit, date and search are read, so `orderId` and `phone` are never set; search defaults to `''` |
| OrderList.QueryFilter | app/api/v1/orders/route.ts:13-35 | the step-by-step build gives exactly the where-object `FilterFor` describes |
| OrderList.ReachableKeys | app/api/v1/orders/route.ts:25-33 | for parameters read from a request, the where-object has at most `created_at` and `order_code`, each exactly when its parameter is set |
| OrderList.FilterFor | app/api/v1/orders/route.ts:13-35 | the where-object `queryFilter` builds: the day range on `created_at` and `contains` on the code, each when given (stated by `FilterMeaning`) |
| OrderList.FilterMeaning | app/api/v1/orders/route.ts:13-35 | an order matches exactly when it is from that day and its code contains the search text |
| OrderList.PageLink | app/api/v1/orders/route.ts:60-67 | links point at the `orders` resource under the base URL |
| OrderList.LinkLookup | app/api/v1/orders/route.ts:60-67 | the link's parameter list answers page, limit, and date, search, phone and orderId when they are set |
| OrderList.LinkOrder | app/api/v1/orders/route.ts:60-67 | the parameters come in the order page, limit, date, search, phone, orderId, each optional one only when set |
| OrderList.OnlySearchEncoded | app/api/v1/orders/route.ts:62-65 | the search text is the only encoded value |
| OrderList.PageLinkCarries | app/api/v1/orders/route.ts:60-67 | the link's parameter list holds the page, limit, date and search, and no phone or orderId |
| OrderList.List | app/api/v1/orders/route.ts:37-87 | the handler reads the parameters, builds the filter step by step, and answers the page `PageResponse` describes for that filter with `PageLink` links; `findMany` gets no `orderBy`, so the rows come in the database's default order |
| Middleware.IsOriginAllowed | middleware.ts:53-56 | every origin is allowed, because the list holds `"*"` |
| Middleware.IsPlaceholderStartsWith | middleware.ts:80 | a placeholder is a segment that starts with `:` |
| Middleware.MatchRoute | middleware.ts:71-82 | `matchRoute`: both paths split on `/`, the same number of segments, and every route segment a `:` placeholder or equal to the request's (stated by the lemmas below) |
| Middleware.CountMismatch | middleware.ts:72-77 | different segment counts never match |
| Middleware.MatchReflexive | middleware.ts:71-82 | every path matches itself |
| Middleware.LiteralPatternMatchesOnlyItself | middleware.ts:71-82 | a pattern without placeholders matches a path exactly when the two strings are equal |
| Middleware.PlaceholderMatchesAnySegment | middleware.ts:80 | replacing the request segment under a placeholder by any segment, the empty one included, does not change whether the route matches |
| Middleware.FindRoute | middleware.ts:105-108 | `find` returns the first route that matches the path and lists the method, or none when no route does |
| Middleware.FirstMatchIs | middleware.ts:105-108 | a route that applies, with none applying before it, is the one found |
| Middleware.SplitPath | middleware.ts:72-73 | a route path splits into an empty first piece followed by its segments |
| Middleware.RefusesSaveOrder | middleware.ts:14-51 | a route with a different segment count, or a differing literal segment, does not match the save-order path |
| Middleware.NoEarlierRouteForSaveOrder | middleware.ts:14-50 | none of the thirteen routes before `/api/v1/orders/:orderId` applies to `POST /api/v1/orders/save-order` |
| Middleware.OrderIdRouteApplies | middleware.ts:47-50 | `/api/v1/orders/:orderId` applies to `POST /api/v1/orders/save-order` |
| Middleware.SaveOrderPostCaughtByOrderId | middleware.ts:41-50 | the lookup still finds a route for `POST /api/v1/orders/save-order`: the `:orderId` entry, although the save-order entry leaves out POST |
| Middleware.Handle | middleware.ts:84-147 | the middleware as written passes every request through |
| Store.Database.Valid | app/api/v1/orders/save-order/route.ts:78-174 | the store invariant: `product_number` indexes the products both ways, every ledger row belongs to a stored product, and every id is below the next autoincrement id |
| Store.Database.constructor | app/api/v1/orders/save-order/route.ts:78-174 | an empty database meets the store invariant (index both ways, every ledger row owned, ids below the next id) |
| OrderSchema.ValidateTiers | app/api/v1/orders/save-order/route.ts:22-28 | the gift object passes exactly when every tier is present and non-negative; the counts come out in tier order; a failing tier is named by its path, with "Required" when absent and the non-negative message otherwise |
| OrderSchema.ValidateDetail | app/api/v1/orders/save-order/route.ts:15-29 | a line passes exactly when it meets the line schema, and then carries the body's fields and the five gift counts in tier order |
| OrderSchema.ValidateDetails | app/api/v1/orders/save-order/route.ts:14-30 | the lines pass exactly when each line does; a failure's path starts with `orderDetails` |
| OrderSchema.ValidateDetailsItems | app/api/v1/orders/save-order/route.ts:14-30 | each validated line is the validation of the body's line at the same place |
| Zod.IssueText | app/api/v1/orders/save-order/route.ts:47 | `${error.path}: ${error.message}`: the path elements joined by commas, then `: ` and the message (stated by `IssueTextReadsBack`) |
| Zod.IssueTextReadsBack | app/api/v1/orders/save-order/route.ts:53 | the text ends in `: ` and the message, is exactly that for an empty path, and what precedes it splits on commas back into the path when no element holds a comma |
| OrderSchema.Validate | app/api/v1/orders/save-order/route.ts:7-31 | a body passes exactly when it meets the order schema, and then carries its fields unchanged |
| OrderSchema.ZeroQuantityRefused | app/api/v1/orders/save-order/route.ts:18 | a line with quantity 0 makes the body fail |
| OrderSchema.MissingIdMessage | app/api/v1/orders/save-order/route.ts:8-47 | a body without `id` fails with the message `id: Required` |
| SaveOrder.MainDecrement | app/api/v1/orders/save-order/route.ts:98-141 | a bundle line takes `pack × quantity` from the bundle's product by id; any other line takes `quantity` from the product with number `shop_product_id`; the remark is "By System" |
| SaveOrder.GiftPlan | app/api/v1/orders/save-order/route.ts:144-166 | one decrement per positive gift count, by `product_number = shop_product_id` even on bundle lines, with the remark "Gift by System"; zero counts add nothing |
| SaveOrder.Resolve | app/api/v1/orders/save-order/route.ts:98-125 | a target that resolves names a stored product |
| SaveOrder.LinePlan | app/api/v1/orders/save-order/route.ts:96-166 | a line's decrements: its main decrement first, then one per positive gift tier |
| SaveOrder.Plan | app/api/v1/orders/save-order/route.ts:96 | the decrements of all the lines, in line order (stated by `PlanAppend`, `PlanSnoc` and `ApplyAllEffect`) |
| SaveOrder.Step | app/api/v1/orders/save-order/route.ts:105-140 | one `product.update` with `decrement` and a nested OUT row: it fails exactly when the target does not resolve, and otherwise keeps the set of products and appends one ledger row |
| SaveOrder.ApplyAll | app/api/v1/orders/save-order/route.ts:96-171 | the decrements in order, the first missing product aborting them all (stated by `ApplyAllEffect`, `ApplyAllAppend` and `ApplyAllSucceeds`) |
| SaveOrder.Demand | app/api/v1/orders/save-order/route.ts:105-163 | the total a plan takes from one product; never negative when no decrement is |
| SaveOrder.Rows | app/api/v1/orders/save-order/route.ts:111-161 | the ledger rows a plan appends: at most one per decrement |
| SaveOrder.ApplyAllEffect | app/api/v1/orders/save-order/route.ts:96-171 | after the decrements, every product keeps its other fields and its quantity drops by the amounts aimed at it; the ledger gains one OUT row per decrement; there is no lower bound, so quantities may go negative |
| SaveOrder.ApplyAllSucceeds | app/api/v1/orders/save-order/route.ts:78-174 | the decrements go through exactly when every target names an existing product |
| SaveOrder.StepKeepsConsistent | app/api/v1/orders/save-order/route.ts:105-121 | one decrement with its OUT row keeps every quantity equal to its ledger sum |
| SaveOrder.DecrementKeepsConsistent | app/api/v1/orders/save-order/route.ts:108-119 | lowering a quantity by `a` together with a row worth `−a` keeps every ledger sum |
| SaveOrder.ApplyAllKeepsConsistent | app/api/v1/orders/save-order/route.ts:96-171 | the decrements keep every quantity equal to its ledger sum |
| SaveOrder.ApplyAllKeepsOwned | app/api/v1/orders/save-order/route.ts:111-119 | every new ledger row belongs to a stored product |
| SaveOrder.ApplyAllKeepsIndex | app/api/v1/orders/save-order/route.ts:96-171 | the decrements keep the store invariant |
| SaveOrder.DemandAppend | app/api/v1/orders/save-order/route.ts:96-171 | the stock two groups of decrements ask of a product adds up |
| SaveOrder.RowsAppend | app/api/v1/orders/save-order/route.ts:96-171 | the ledger rows of two groups are the rows of the first followed by those of the second |
| SaveOrder.PlanAppend | app/api/v1/orders/save-order/route.ts:96 | the plan of two runs of lines is the first run's plan followed by the second's |
| SaveOrder.PlanLength | app/api/v1/orders/save-order/route.ts:96-171 | the plan has one decrement per line plus one per positive gift count |
| SaveOrder.SwapResolves | app/api/v1/orders/save-order/route.ts:96-171 | if two groups go through in one order, they go through in the other |
| SaveOrder.SwapDecrements | app/api/v1/orders/save-order/route.ts:171 | two groups of decrements give the same quantities and the same ledger rows whichever runs first |
| SaveOrder.DemandPermutation | app/api/v1/orders/save-order/route.ts:96-171 | any reordering of the decrements (the same multiset) asks the same stock of every product |
| SaveOrder.RowsPermutation | app/api/v1/orders/save-order/route.ts:96-171 | any reordering of the decrements appends the same multiset of ledger rows |
| SaveOrder.PermutationResolves | app/api/v1/orders/save-order/route.ts:78-174 | if the decrements go through in one order, they go through in every reordering |
| SaveOrder.PlanOrderIrrelevant | app/api/v1/orders/save-order/route.ts:171 | any order in which `Promise.all` may run the single decrements, lines and gift tiers interleaved, goes through exactly when the plan does, and then leaves the same quantities and the same multiset of ledger rows |
| SaveOrder.PlanPermutation | app/api/v1/orders/save-order/route.ts:96 | reordering the lines reorders the plan: the same multiset of decrements |
| SaveOrder.LineOrderIrrelevant | app/api/v1/orders/save-order/route.ts:96-171 | for any reordering of the lines (the same multiset), the order goes through exactly when it does in line order, and then with the same quantities and the same multiset of ledger rows |
| SaveOrder.RowsLength | app/api/v1/orders/save-order/route.ts:96-171 | a plan whose targets all exist appends exactly one row per decrement |
| SaveOrder.ApplyAllSnoc | app/api/v1/orders/save-order/route.ts:96-171 | one more decrement applies to the state the earlier ones left |
| SaveOrder.ApplyAllPrefixFails | app/api/v1/orders/save-order/route.ts:78-174 | once a decrement fails, the whole transaction fails |
| SaveOrder.ApplyAllAppend | app/api/v1/orders/save-order/route.ts:96-171 | two groups in sequence apply the second to the state the first left |
| SaveOrder.GiftPlanAppend | app/api/v1/orders/save-order/route.ts:144 | the gift plan of a split tier list is the two halves' plans in order |
| SaveOrder.GiftPlanSnoc | app/api/v1/orders/save-order/route.ts:144-166 | one more tier adds a decrement exactly when its count is positive |
| SaveOrder.PlanSnoc | app/api/v1/orders/save-order/route.ts:96 | one more line adds its own plan at the end |
| SaveOrder.GiftStep | app/api/v1/orders/save-order/route.ts:146-164 | a tier with count 0 leaves the state as it was; a positive one applies its decrement |
| SaveOrder.GiftFails | app/api/v1/orders/save-order/route.ts:144-168 | a failing gift update fails the line |
| SaveOrder.ConsPrefixFails | app/api/v1/orders/save-order/route.ts:78-174 | a failing prefix fails its extensions |
| SaveOrder.MainStep | app/api/v1/orders/save-order/route.ts:104-141 | a line starts with its own decrement; if that fails, the line fails |
| SaveOrder.LineStep | app/api/v1/orders/save-order/route.ts:96-171 | each line applies to the state the earlier lines left; a failing line fails the order |
| SaveOrder.LineFails | app/api/v1/orders/save-order/route.ts:78-174 | a failure among the first lines fails the order |
| SaveOrder.Take | app/api/v1/orders/save-order/route.ts:105-140 | one `product.update`: the decrement, and one row appended with the rest of the ledger kept |
| SaveOrder.TakeLine | app/api/v1/orders/save-order/route.ts:96-169 | the loop over a line's main update and its gift tiers gives the line's plan applied to the stock |
| SaveOrder.TakeAll | app/api/v1/orders/save-order/route.ts:96-171 | the loop over the lines gives the whole plan applied to the stock |
| SaveOrder.FormatDetails | app/api/v1/orders/save-order/route.ts:69-76 | each stored line has `product_id = shop_product_id`, the same quantity and price, and `total_price = price × quantity` |
| SaveOrder.OrderOf | app/api/v1/orders/save-order/route.ts:80-94 | the stored order carries the body's fields, with `shipping_amount ?? 0` and the formatted lines |
| SaveOrder.Transaction | app/api/v1/orders/save-order/route.ts:78-174 | an existing id aborts with the unique-key code; a missing product aborts with the record-not-found code; the transaction commits exactly when the id is new and every target exists, and then stores the order and applies every decrement |
| SaveOrder.TxOutcome | app/api/v1/orders/save-order/route.ts:176-211 | 201 exactly when the transaction committed; an abort leaves products, ledger and orders as they were; a commit stores the order and logs nothing |
| SaveOrder.Handle | app/api/v1/orders/save-order/route.ts:35-212 | a schema violation answers 400 with the first issue and logs the body; a commit answers 201, stores the order and logs nothing; every other outcome leaves products, ledger and orders unchanged and appends exactly one error-log row for this endpoint and time |
| SaveOrder.Save | app/api/v1/orders/save-order/route.ts:35-212 | the handler on the database: keeps the store invariant, leaves the product index and bundles alone, and ends in the state `Handle` gives |
| SaveOrder.Commit | app/api/v1/orders/save-order/route.ts:78-197 | the transaction on the database: either every effect is applied, or only one error-log row is added |
| SaveOrder.CommitKeepsConsistent | app/api/v1/orders/save-order/route.ts:78-174 | whatever the body, quantities stay equal to their ledger sums |
| SaveOrder.CommitEffect | app/api/v1/orders/save-order/route.ts:96-171 | a saved order appends one OUT row per line plus one per positive gift count, all stamped now, keeps the older rows, and lowers each product by exactly the stock asked of it |
| SaveOrder.RowsAreOut | app/api/v1/orders/save-order/route.ts:111-160 | every appended row is an OUT movement stamped now |
| SaveOrder.ExampleLineWithGift | app/api/v1/orders/save-order/route.ts:122-166 | a plain line of 3 with 2 gifts of the first tier takes 5 from the product and appends a "By System" row and a "Gift by System" row |
| SaveOrder.ExampleBundle | app/api/v1/orders/save-order/route.ts:104-110 | a line of 2 of a 6-pack bundle takes 12 from the bundle's product |
| ProductCreate.Check | app/api/v1/products/route.ts:140-162 | one schema check: no issue exactly when it passes, otherwise one issue at its key |
| ProductCreate.OptionalPositive | app/api/v1/products/route.ts:152-161 | an optional positive integer: no issue exactly when absent or positive |
| ProductCreate.OptionalMax | app/api/v1/products/route.ts:143-156 | an optional bounded string: no issue exactly when absent or its JavaScript (UTF-16) length is within the bound |
| ProductCreate.WideNameTooLong | app/api/v1/products/route.ts:143-156 | 200 characters outside the basic plane are 400 UTF-16 units, so such a name is too long for a bound of 255 |
| ProductCreate.ProductIssues | app/api/v1/products/route.ts:140-162 | the issue list is empty exactly when the body meets the product schema |
| ProductCreate.ValidateProduct | app/api/v1/products/route.ts:140-172 | a body passes exactly when it meets the schema, and then carries its fields, with `reorder_level` defaulting to 0; otherwise it reports the first issue |
| ProductCreate.MissingNumberFirst | app/api/v1/products/route.ts:166-171 | a missing `product_number` is reported first, as `product_number: Required` |
| ProductCreate.PriceBeforeSku | app/api/v1/products/route.ts:145-149 | a missing price is reported before a too-long SKU, with the custom message |
| ProductCreate.NewProduct | app/api/v1/products/route.ts:193-211 | the stored product carries the body's fields, `quantity = stock_quantity ?? 0`, and is published now |
| ProductCreate.OpeningRows | app/api/v1/products/route.ts:217-227 | exactly one IN row when both the movement type and the quantity are given, none otherwise; the row carries the quantity, the author and `stock_created_at ?? now` |
| ProductCreate.Create | app/api/v1/products/route.ts:164-243 | a schema violation answers 400 with the first issue, a taken `product_number` answers the unique-key error, and either leaves the store unchanged; otherwise the product is stored under the next id with its opening rows |
| ProductCreate.AddKeepsConsistent | app/api/v1/products/route.ts:204-227 | adding a product keeps quantities equal to ledger sums exactly when no opening quantity comes without its movement type |
| ProductCreate.CreateKeepsConsistent | app/api/v1/products/route.ts:204-227 | a product created with `stock_quantity` but without `stock_movement_type` has a quantity that no ledger row accounts for |
| ProductCreate.AddKeepsValid | app/api/v1/products/route.ts:213-229 | storing a product under a fresh id and a fresh number keeps the store invariant |
| ProductCreate.Post | app/api/v1/products/route.ts:164-243 | the handler on the database: keeps the store invariant, leaves bundles, orders and the error log alone, and ends in the state `Create` gives |
| StockStatus.ReorderPoint | components/Stats.tsx:27-31 | `parseInt(env) \|\| 10` with no radix: never 0; 10 when the variable is unset, unparsable or 0; otherwise its value, a `0x` text read as hexadecimal |
| StockStatus.ReorderPointOfHex | components/Stats.tsx:27 | a reorder point of `"0x14"` is 20 |
| StockStatus.ReorderPointOfNumber | components/Stats.tsx:27 | a reorder point written as a number is that number, with 0 read as 10 |
| StockStatus.Classify | components/Stats.tsx:24-33 | the shared levels: normal above the point, low from 1 up to the point, out at 0 or below |
| StockStatus.LevelAgrees | components/tables/StockTable.tsx:131-145 | each level's colour and caption agree, and the caption determines the level |
| Stats.Count | components/Stats.tsx:24-33 | `filter(...).length`: at most the number of products, and 0 exactly when none is in the band |
| Stats.Overlap | components/Stats.tsx:24-33 | the products counted both as normal and as out of stock |
| Stats.CountsCover | components/Stats.tsx:24-33 | low + normal + out is the number of products plus the ones counted twice |
| Stats.NoOverlap | components/Stats.tsx:24-33 | with a reorder point of 0 or more, no product is counted twice |
| Stats.CountsPartition | components/Stats.tsx:24-33 | with a reorder point of 0 or more, every product is counted in exactly one of low, normal and out |
| Stats.BandsAreLevels | components/Stats.tsx:24-33 | for a reorder point of 0 or more the three bands are the shared levels |
| Stats.NegativeThresholdCountsTwice | components/Stats.tsx:29-33 | with a negative reorder point, a quantity of 0 is counted as both normal and out of stock |
| Stats.StockCardsOf | components/Stats.tsx:22-36 | the cards: total from `totalElements`, and the three band counts over the fetched products; all 0 before data arrives |
| Stats.DefaultCardsPartition | components/Stats.tsx:24-33 | with no reorder point set, the three counts add up to the number of fetched products |
| Stats.ParseAmounts | components/Stats.tsx:40 | `parseInt` without a radix of each `order_amount`, in order |
| Stats.RevenueSum | components/Stats.tsx:40 | the `reduce` of `acc + x` from 0, where a NaN keeps the sum NaN (stated by `RevenueSumMeaning`) |
| Stats.TotalSnoc | components/Stats.tsx:40 | the sum grows by the last amount |
| Stats.RevenueSumMeaning | components/Stats.tsx:40 | the `reduce` gives the sum when every amount parses, and NaN otherwise |
| Stats.TotalRevenue | components/Stats.tsx:39-41 | the revenue is 0 before orders arrive |
| Stats.TotalRevenueMeaning | components/Stats.tsx:39-41 | the revenue is the sum of the parsed amounts when they all parse, 0 when one does not, and 0 for no orders |
| Stats.IntegerPartOfAmount | components/Stats.tsx:40 | a decimal amount such as `"1500.50"` contributes its integer part (no `0x` prefix can arise from a natural number's text) |
| Stats.RevenueOfTwoOrders | components/Stats.tsx:40 | two orders whose amounts parse to m and n give a revenue of m + n |
| Stats.TotalElements | components/Stats.tsx:23-38 | `totalElements \|\| 0`: the count when it is present and non-zero, otherwise 0 |
| StockTable.BadgeStatus | components/tables/StockTable.tsx:131-138 | green exactly above 10; orange at 10 or below, up to the reorder point, and not 0; red otherwise |
| StockTable.BadgeText | components/tables/StockTable.tsx:139-145 | "Normal" exactly above the reorder point; "Low" at or below it, at 10 or below, and not 0; "Out of Stock" otherwise |
| StockTable.DefaultThreshold | components/tables/StockTable.tsx:131-145 | with the default point of 10: above 10 green "Normal", 1 to 10 orange "Low", 0 red "Out of Stock", negatives orange "Low"; colour and caption always agree |
| StockTable.ThresholdMismatch | components/tables/StockTable.tsx:131-145 | with a reorder point of 20, a quantity of 15 gets a green badge captioned "Out of Stock"; with 5, a quantity of 7 gets a red badge captioned "Normal" |
| StockTable.MismatchBand | components/tables/StockTable.tsx:131-145 | colour and caption disagree exactly for quantities between 10 and the reorder point |
| StockTable.CorrectedStatus | components/tables/StockTable.tsx:131-138 | the colour with both tests against the reorder point: green exactly above it |
| StockTable.CorrectedText | components/tables/StockTable.tsx:139-145 | the caption with both tests against the reorder point: "Normal" exactly above it |
| StockTable.CorrectedAgrees | components/tables/StockTable.tsx:131-145 | the corrected badge agrees with itself for every reorder point, is the written badge at 10, and follows the shared levels |
| StockTable.ShownColumns | components/tables/StockTable.tsx:74-179 | `filteredColumns` drops the hidden `id` column and keeps the rest in order |
| StockTable.State.constructor | components/tables/StockTable.tsx:14-28 | first page of 10, empty filters, empty search text, no product chosen, dialog closed |
| StockTable.State.HandleTableChange | components/tables/StockTable.tsx:39-41 | the new pager replaces the old one; nothing else changes |
| StockTable.State.HandleFilterChange | components/tables/StockTable.tsx:58-63 | exactly one filter key takes the new value; the other filters and fields are kept |
| StockTable.State.HandleReStock | components/tables/StockTable.tsx:65-68 | the restock dialog opens for the product |
| StockTable.State.HandleCloseModal | components/tables/StockTable.tsx:174-176 | the dialog closes and nothing else changes |
| StockTable.State.SetSearch | components/tables/StockTable.tsx:16 | `setSearch` replaces the search text and nothing else changes |
| ProductTableDashboard.BadgeStatus | components/tables/ProductTableDashboard.tsx:85-93 | green exactly above the reorder point; orange for 1 to 10 at or below it; red otherwise |
| ProductTableDashboard.BadgeText | components/tables/ProductTableDashboard.tsx:94-102 | "Normal" above the point, "Low" for 1 to 10 at or below it, "Out of Stock" at 0 or below, and "Unknown" exactly for quantities above 10 up to the point |
| ProductTableDashboard.Bands | components/tables/ProductTableDashboard.tsx:85-102 | above the point green "Normal"; 1 to 10 orange "Low"; 0 or below, negatives included, red "Out of Stock" |
| ProductTableDashboard.UnknownBand | components/tables/ProductTableDashboard.tsx:94-102 | at the default point of 10 "Unknown" never appears and the badge follows the shared levels; above 10, every quantity between 10 and the point is a red "Unknown" |
| ProductTableDashboard.UnknownExample | components/tables/ProductTableDashboard.tsx:94-102 | with a reorder point of 20, a quantity of 15 is shown as a red "Unknown" |
| ProductTableDashboard.CorrectedStatus | components/tables/ProductTableDashboard.tsx:85-93 | the colour with 10 replaced by the reorder point is the shared level's colour |
| ProductTableDashboard.CorrectedText | components/tables/ProductTableDashboard.tsx:94-102 | the caption with 10 replaced by the reorder point is the shared level's caption |
| ProductTableDashboard.CorrectedNeverUnknown | components/tables/ProductTableDashboard.tsx:94-102 | the corrected badge is never "Unknown", always pairs colour and caption, and is the written badge wherever that is not "Unknown" |
| StatusCopies.AgreeOnNonNegative | components/Stats.tsx:24-33 | with the default point, the list filter, the cards, and both tables put every quantity of 0 or more in the same band |
| StatusCopies.DisagreeOnNegative | components/tables/StockTable.tsx:131-145 | a negative quantity matches no list filter, is out of stock for the cards and the dashboard table, and is "Low" in the stock table |
| StatusCopies.FilterIgnoresReorderPoint | app/api/v1/products/route.ts:47-67 | the list filter keeps 10 as its boundary: with a reorder point of 20, a quantity of 15 is low on the cards but NORMAL in the filter |
| TableCommon.WithFilter | components/tables/StockTable.tsx:58-63 | `{ ...prev, [key]: value }`: the keys are the old ones plus this key, which holds the value, and every other key keeps its value |
| TableCommon.WithFilterTwice | components/tables/OrderTable.tsx:43-48 | setting a key twice keeps the last value; setting two different keys commutes |
| TableCommon.Visible | components/tables/StockTable.tsx:179 | `filter(c => !c.hidden)`: no hidden column survives, every shown column does, and nothing new appears |
| TableCommon.VisibleAppend | components/tables/StockTable.tsx:179 | the filter works piece by piece, keeping order |
| TableCommon.VisibleAll | components/tables/OrderTable.tsx:122 | with no hidden column, the filter keeps the columns as they are |
| TableCommon.HiddenFirstDropped | components/tables/StockMovementTable.tsx:153 | a hidden first column followed by shown ones leaves exactly the shown ones |
| TableCommon.ReplaceTZ | components/tables/StockMovementTable.tsx:119 | `replace(/T\|Z/g, …)`: no `T` or `Z` remains and the text does not grow |
| TableCommon.ReplaceTZAppend | components/tables/StockMovementTable.tsx:119 | the rewrite works piece by piece |
| TableCommon.ReplaceTZKeeps | components/tables/StockMovementTable.tsx:119 | a text without `T` or `Z` is left as it is |
| TableCommon.ReplaceTZOne | components/tables/StockMovementTable.tsx:119 | `T` becomes a space, `Z` is dropped, and any other character stays |
| TableCommon.StripMillis | components/tables/StockMovementTable.tsx:119 | `replace(/\.\d{3}$/, '')`: the result is the text or the text minus its last four characters, and a prefix of it |
| TableCommon.DateDisplay | components/tables/StockMovementTable.tsx:117-121 | the shown date has no `T` or `Z`, is never empty, and is "No Date" for a missing or empty value |
| TableCommon.IsoReplaced | components/tables/StockMovementTable.tsx:119 | an ISO timestamp loses its `T` and `Z` and keeps its milliseconds |
| TableCommon.StripMillisOf | components/tables/StockMovementTable.tsx:119 | a trailing `.` and three digits are dropped |
| TableCommon.IsoTimestampShown | components/tables/OrderTable.tsx:97-101 | `YYYY-MM-DDTHH:MM:SS.mmmZ` is shown as `YYYY-MM-DD HH:MM:SS` |
| TableCommon.FirstName | components/tables/StockMovementTable.tsx:111 | `user?.name.split(' ')[0]`: present exactly when there is a user; a space-free prefix of the name, followed by a space or the end |
| TableCommon.FirstPieceIsPrefix | components/tables/StockMovementTable.tsx:111 | the first piece of a split is a prefix, ended by the separator or the end of the text |
| TableCommon.FirstNameOf | components/tables/StockMovementTable.tsx:111 | a one-word name is shown whole; "first rest" shows "first" |
| StockMovementTable.MovementColour | components/tables/StockMovementTable.tsx:92-100 | green exactly for IN, red exactly for OUT, blue for any other type, such as TRANSFER |
| StockMovementTable.AfterDelete | components/tables/StockMovementTable.tsx:45-57 | the page drops by one exactly when the page held one row and is above the first; otherwise it is unchanged; it never drops below 1; page size and total are kept |
| StockMovementTable.AfterDeleteShowsRows | components/tables/StockMovementTable.tsx:45-57 | after deleting a row of a page that held some, the page chosen holds rows of the remaining table, unless none remain |
| StockMovementTable.AfterDeleteExamples | components/tables/StockMovementTable.tsx:48-52 | deleting the only row of page 3 steps back to page 2; deleting one of several rows, or the only row of page 1, stays |
| StockMovementTable.ShownColumns | components/tables/StockMovementTable.tsx:69-153 | `filteredColumns` drops the hidden `id` column and keeps the rest in order |
| StockMovementTable.State.constructor | components/tables/StockMovementTable.tsx:15-29 | first page of 10, empty filters including search, empty search text, no movement chosen, dialog closed |
| StockMovementTable.State.HandleTableChange | components/tables/StockMovementTable.tsx:41-43 | the new pager replaces the old one; nothing else changes |
| StockMovementTable.State.HandleDelete | components/tables/StockMovementTable.tsx:45-57 | the pager becomes `AfterDelete` of the old one; nothing else changes |
| StockMovementTable.State.HandleFilterChange | components/tables/StockMovementTable.tsx:59-64 | exactly one filter key takes the new value; the other filters and fields are kept |
| StockMovementTable.State.ShowDeleteConfirmModal | components/tables/StockMovementTable.tsx:147-150 | the delete dialog opens for the movement |
| StockMovementTable.State.SetSearch | components/tables/StockMovementTable.tsx:17 | `setSearch` replaces the search text and nothing else changes |
| OrderTable.PaymentStatus | components/tables/OrderTable.tsx:78 | green exactly for "paid", orange for anything else |
| OrderTable.PaymentText | components/tables/OrderTable.tsx:79 | "Paid" exactly for "paid", "Pending" for anything else |
| OrderTable.PaymentBadgeAgrees | components/tables/OrderTable.tsx:76-81 | green goes with "Paid" and orange with "Pending" |
| OrderTable.ShownColumns | components/tables/OrderTable.tsx:59-122 | no column is hidden, so all seven are shown in order |
| OrderTable.ViewOrderDetail | components/tables/OrderTable.tsx:50-53 | `handleViewOrderDetail`: the dialog opens on the given order |
| OrderTable.CloseDetail | components/tables/OrderTable.tsx:118-120 | `handleCloseModal`: the dialog closes and keeps the order it showed |
| OrderTable.ViewThenClose | components/tables/OrderTable.tsx:50-120 | after open, close and open, only the last order opened is shown |
| OrderTable.FilterChangeKeepsOthers | components/tables/OrderTable.tsx:25-48 | changing one of the initial filters keeps the other two at their starting values |

## Left out

- Prisma itself is not modelled: SQL, connection errors, isolation, and `findMany` and `count`
  against a real database.
  - A list response holds the where-object and the `findMany` arguments, with the row count `total`
    as a parameter.
  - The save-order transaction is a function that either commits or aborts.
  - The mapping from Prisma error codes to HTTP status (`handlePrismaError`, in lib/utils) is not
    part of this model. A known database error is answered as `DatabaseError(code)`.
- `Promise.all` in save-order is modelled as a sequential fold in line order. Each single
  decrement (one `update` with its OUT row) is taken as atomic; any order in which those may
  finish is a reordering of the plan, and `SaveOrder.PlanOrderIrrelevant` proves that every
  reordering ends in the same quantities and the same multiset of ledger rows (the rows' order
  in the ledger does follow the run order). Races between concurrent requests are not modelled.
- ProductCreate.Create: the only Prisma error modelled is the `product_number` clash. A
  `category_id` or `supplier_id` (app/api/v1/products/route.ts:202-203) or a `stock_created_by`
  (line 224) that names no row makes `prisma.product.create` fail on a foreign key, and the catch
  at lines 235-242 answers through `handlePrismaError` with nothing stored; that failure, and
  every other Prisma error, is not modelled, and the model answers Created, storing the product
  and its opening row.
- Time zones, `new Date`, `setDate` and `getLocalDateTime` are not modelled.
  - Timestamps are integers and `now` is a parameter.
  - `new Date(date)` is the parameter `dayStart`, and the next day is `+ 86_400_000` ms.
- Prices and amounts are integers. The floating-point product `price × quantity` is not modelled.
- `encodeURIComponent` is not modelled. A link parameter records whether it is encoded, and
  `Paging.Render` takes the encoder as a parameter.
- The environment variables are parameters: `NEXT_PUBLIC_REORDER_POINT` is `env` and
  `NEXT_PUBLIC_API_BASE_URL` is `base`.
- JWT verification, cookies, CORS headers and the commented-out redirects in the middleware are
  not modelled. The route table and its lookup are.
- React rendering and data fetching are not modelled:
  - the query hooks, the refetch effects, loading and error screens, and the delete request (the
    tables' `search` state is kept, but its only use is as a refetch dependency);
  - the restock form and the order-detail dialog contents.

  The state updates that the components' handlers make are modelled.
- The state of the dashboard table, with its page size of 25 and its restock dialog, is not
  modelled. Only its badge is, like the badges of the other tables.
- The product columns that no rule here reads are not stored. These are the descriptions, images,
  size, type, category and supplier ids.
- Zod's type checks are not modelled: every present field is taken to have the right type.
  - An absent field and a `null` field are one case (`None`).
  - The messages modelled are "Required", the positive and non-negative messages, the maximum-length
    message, the enum message, and the custom price message.
- The product POST body that is not JSON at all, which throws before validation, is not modelled.
- The uniqueness of `order_code` and `sku`, and the foreign key from order lines to products, are
  not modelled. Only the order id and `product_number` are unique here.
- The stock-movement update and delete endpoints (`app/api/v1/stocks/[stockId]/route.ts`) are not
  part of this model.
- `StockMovementTable.State.HandleDelete` receives the length of the page's data as a `nat`. A
  missing page is passed as 0, which is how the source's `=== 1` test treats it.
- `TableCommon.WithFilter` stores the `any` values of the filter bar as text, date range or null.
- JsText.IsSpace: the white-space set is ECMAScript's WhiteSpace and LineTerminator sets as of
  Unicode 15 (tab, VT, FF, space, NBSP, BOM, U+1680, U+2000 to U+200A, U+202F, U+205F, U+3000,
  LF, CR, U+2028, U+2029); a later Unicode version's changes to the Zs category are not followed.
- JsText.ParseInt: JavaScript numbers are doubles, so `parseInt` rounds a value beyond 2^53 to the
  nearest double; the model keeps the exact integer. The same holds for `JsText.ParseIntAuto`.
- Stats.RevenueSum: the revenue `reduce` adds doubles in JavaScript; the model adds exact
  integers, so sums beyond 2^53 are not rounded.
- ProductCreate.OptionalMax counts UTF-16 code units by `JsText.Utf16Length`, as Zod's `.max`
  does on a JavaScript string; a lone surrogate cannot occur in a Dafny string, so texts holding
  one are not modelled.
- SaveOrder.TxOutcome: the catch block logs `(error as Error).message`, Prisma's full error text;
  the model logs only the Prisma error code (`UniqueViolation`, `RecordNotFound`) in its place,
  and it records that a stack trace is present without its text. The same holds for
  `SaveOrder.Commit` and `SaveOrder.Save`.
- StockList.FilterMeaning: when the search does not parse, the where-object holds
  `product_id: NaN`; what Prisma does with it (reject the query, which the handler would answer
  with 500, or match nothing) is not modelled, and the model answers a page with no matching
  rows. An unknown `movementType` is treated the same way: it is compared as text and matches no
  row, where Prisma may reject a value outside its enum.
- Paging.PageResponse: `take: NaN` (a `limit` that does not parse) is passed to `findMany` as the
  model's `None`; whether Prisma rejects it is not modelled. The model answers an ordinary page,
  whose `skip` uses `limit || 10` and whose `take` is that `None`.
- OrderList.PageLinkCarries is stated on the link's parameter list, not on its text. The orders
  route writes `date`, `phone` and `orderId` into the link without `encodeURIComponent`
  (app/api/v1/orders/route.ts:62-64), so a value holding `&`, `=`, `#`, `+` or `%` changes what the
  rendered text reads back as; `Paging.RenderReadsBack` states the read-back only for keys and
  written values free of `&` (and keys free of `=`), and URL percent-decoding, which needs the
  encoder, is not modelled. The same holds for `ProductList.PageLinkCarries`,
  `StockList.PageLinkCarries` and the three `LinkLookup` lemmas.
- `Middleware.Handle` does not model the `NextResponse.next()` object. It states only that every
  request passes through.

## Findings

| source | as written | input that shows it | evidently intended | confidence | as-written member | corrected member |
|---|---|---|---|---|---|---|
| components/tables/StockTable.tsx:131-145 | the badge colour tests `quantity > 10` first while its caption tests `quantity > reorder point` first, and then the reverse | reorder point 20, quantity 15: a green badge captioned "Out of Stock"; reorder point 5, quantity 7: a red badge captioned "Normal" | both tests against the reorder point, so colour and caption always agree | not executed | StockTable.ThresholdMismatch | StockTable.CorrectedAgrees |
| components/tables/ProductTableDashboard.tsx:94-102 | "Low" is limited to `quantity <= 10` while "Normal" starts above the reorder point, so a quantity above 10 but at most the point falls through to "Unknown" under a red badge | reorder point 20, quantity 15: a red "Unknown" | "Low" up to the reorder point, so every quantity gets one of the three levels | not executed | ProductTableDashboard.UnknownExample | ProductTableDashboard.CorrectedNeverUnknown |
