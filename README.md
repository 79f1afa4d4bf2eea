# 66°North order service — a verified model

This project models the core of the 66°North order service in Dafny.

The backend is a FastAPI service over an `orders` table:
- request schemas with field validators;
- create, read, list, update and delete endpoints;
- an aggregated revenue summary;
- an API-key guard.

The frontend derives figures from the backend's data:
- the order form generates customer and order ids and shows a converted price;
- the admin dashboard filters orders and computes statistics;
- it converts currency totals to ISK and builds a percentage breakdown;
- the revenue charts pick the plotted days and each day's value.

Modules:

| module | file | models |
|---|---|---|
| `Wrappers` | wrappers.dfy | `Option` and `Result` |
| `Text` | text.dfy | ASCII case mapping, `strip`, substring search, lexicographic order, decimal digits |
| `Seqs` | seqs.dfy | filtering, de-duplication, group sums |
| `Schemas` | schemas.dfy | `OrderStatus`, `VALID_CURRENCIES`, the field checks of `OrderCreate` and `OrderUpdate` |
| `OrderStore` | order_store.dfy | the endpoints of `main.py`, over a `Store` object whose `orders` sequence create, update and delete change in place |
| `Auth` | auth.dfy | `verify_api_key` |
| `OrderService` | order_service.dfy | `orderService.ts`: filters and statistics |
| `CurrencyService` | currency_service.dfy | `currencyService.ts`: ISK conversion, breakdown, price formatting |
| `RevenueChart` | revenue_chart.dfy | the data shaping of `RevenueChart.tsx` |
| `OrderPage` | order_page.dfy | the id generators and `calculateTotal` of the order form |

Conventions of the model:
- Amounts the backend stores are integers. Amounts the frontend handles are exact `real`s.
- A date is a `YYYY-MM-DD` string.
- Anything read from the outside world is a parameter:
  - the configured API key;
  - the database's default order date;
  - the current day;
  - `Date.now()`;
  - the output of `toLocaleString`.

## Model

| member | source | states |
|---|---|---|
| Schemas.ParseStatus | backend/app/schemas.py:8-17 | a string is accepted as a status exactly when it is one of the seven values, and it parses to the member with that value |
| Schemas.StatusRoundTrip | backend/app/schemas.py:8-17 | every status parses back from its own value |
| Schemas.ValidateNotEmpty | backend/app/schemas.py:38-44 | rejects exactly the empty and all-whitespace strings; otherwise returns the input stripped, which is non-empty with no whitespace at either end |
| Schemas.ValidateNotEmptyIdempotent | backend/app/schemas.py:38-44 | validating an accepted id again returns it unchanged |
| Schemas.ValidateCurrency | backend/app/schemas.py:46-55 | accepts exactly the codes whose upper-case form is whitelisted, and returns that upper-case form |
| Schemas.ValidateCurrencyIdempotent | backend/app/schemas.py:46-55 | a validated currency validates to itself |
| Schemas.ValidateCurrencyExamples | backend/app/schemas.py:21 | "usd" is accepted as "USD"; "XXX" is refused |
| Schemas.CheckCurrency | backend/app/schemas.py:32-34 | the length bounds 3..3 are checked before the validator; an accepted code is three characters and whitelisted |
| Schemas.CheckId | backend/app/schemas.py:27-28 | `min_length=1` rejects the empty string; any other string goes to the not-empty validator |
| Schemas.CheckAmount | backend/app/schemas.py:29-31 | an amount is accepted exactly when it is greater than 0 |
| Schemas.CheckStatus | backend/app/schemas.py:35 | a status string is accepted exactly when it is a member's value |
| Schemas.ValidateOrderCreate | backend/app/schemas.py:24-55 | an accepted request has stripped non-empty ids, a positive amount and a whitelisted currency; a rejection lists at least one field error |
| Schemas.ValidateOrderCreateSpec | backend/app/schemas.py:24-55 | the request is accepted iff every field passes. When accepted, ids are stripped, the currency is upper-cased, status defaults to pending, and amount and date are kept |
| Schemas.ValidateOrderCreateKeepsValid | backend/app/schemas.py:24-55 | an already validated request validates to itself |
| Schemas.ValidateOrderUpdate | backend/app/schemas.py:64-96 | an accepted update's present fields are in validated form; a rejection lists at least one field error |
| Schemas.ValidateOrderUpdateSpec | backend/app/schemas.py:64-96 | a partial update is accepted iff every field present passes. Absent fields stay absent; the customer id is stripped and the currency upper-cased |
| Schemas.StatusOnlyUpdate | backend/app/schemas.py:64-96 | a body with only a valid status yields an update of the status alone |
| OrderStore.ReadOrder | backend/app/main.py:102-108 | 404 "Order not found" exactly when no stored order has the id. Otherwise the result is a stored order with that id, the one stored under it since ids are unique |
| OrderStore.ApplyUpdateData | backend/app/main.py:118-121 | the `setattr` loop over the supplied fields equals the partial update: supplied fields change, nothing else does |
| OrderStore.PatchedWellFormed | backend/app/main.py:111-125 | a validated update keeps a row well formed and never changes its primary key or business id |
| OrderStore.InsertKeepsValid | backend/app/main.py:25-30 | inserting a new business id under the next serial key keeps the table invariant (unique ids, valid rows, increasing keys) |
| OrderStore.ReplaceKeepsValid | backend/app/main.py:118-125 | replacing a row by a valid row with the same keys keeps the table invariant |
| OrderStore.RemoveKeepsValid | backend/app/main.py:135-136 | removing a row keeps the table invariant and its business id disappears |
| OrderStore.Store.constructor | backend/app/models.py:23-24 | the table starts empty and valid |
| OrderStore.Store.Create | backend/app/main.py:17-30 | 422 with the field errors, 400 "Order ID already exists" for a stored id, and success for every valid request with a new id: exactly one appended row with the validated fields. The invariant is kept and a failure changes nothing |
| OrderStore.Store.Update | backend/app/main.py:111-125 | 422, then 404 for an unknown id, otherwise the matching row, and only it, is replaced by its patched form, which is returned |
| OrderStore.Store.Delete | backend/app/main.py:128-137 | 404 for an unknown id, otherwise exactly that row is removed and the id then reads as not found |
| OrderStore.ReadOrders | backend/app/main.py:81-99 | the listing holds only stored rows that pass the filters: the filtered rows in table order, minus the first `skip`, at most `limit` of them, none for `limit = 0` |
| OrderStore.ReadOrdersPages | backend/app/main.py:98 | consecutive pages concatenate to the page of their combined size |
| OrderStore.ReadOrdersAll | backend/app/main.py:81-99 | with no filters and a large enough limit the listing is the whole table |
| OrderStore.ReadCustomerOrders | backend/app/main.py:140-144 | exactly the stored orders of that customer |
| OrderStore.CustomerOrdersAreFilteredListing | backend/app/main.py:93-98 | the customer endpoint equals the listing filtered by that customer when the limit does not cut it |
| OrderStore.Summary | backend/app/main.py:33-78 | `total_orders` is the number of rows; an empty table gives 0 and empty lists |
| OrderStore.SummaryCurrencyTotals | backend/app/main.py:44-54 | one distinct entry per currency present, each the sum of that currency's amounts |
| OrderStore.SummaryDailyRevenue | backend/app/main.py:56-72 | one row per distinct (day, currency), sorted by day descending then currency ascending. Each row is that group's sum |
| OrderStore.SummaryTotalsAddUp | backend/app/main.py:33-78 | the currency totals and the daily revenues each add up to the sum of all amounts |
| Auth.ApiKeyHeader | backend/app/auth.py:6 | the header's value when it is present and non-empty, otherwise none |
| Auth.VerifyApiKey | backend/app/auth.py:6-23 | a missing or empty header is 401, a wrong key 403, and success, returning the key, exactly when the header holds the configured non-empty key |
| OrderService.FilterByStatus | frontend/app/admin/services/orderService.ts:49-54 | "all" returns the input; otherwise exactly the orders with that status, in order |
| OrderService.FilterBySearch | frontend/app/admin/services/orderService.ts:59-68 | an empty query returns the input; otherwise exactly the orders whose lower-cased ids contain the lower-cased query, in order |
| OrderService.ApplyFiltersIsOneFilter | frontend/app/admin/services/orderService.ts:73-85 | `applyFilters` is search after status filter, and one filter by the combined condition |
| OrderService.ApplyFilters | frontend/app/admin/services/orderService.ts:73-85 | keeps exactly the orders that pass both the status filter and the search; with neither set the list is unchanged |
| OrderService.ApplyFiltersSpec | frontend/app/admin/services/orderService.ts:73-85 | the result keeps the original order, and applying the filters again changes nothing |
| OrderService.SearchIgnoresQueryCase | frontend/app/admin/services/orderService.ts:63-67 | upper- or lower-casing the query does not change the result |
| OrderService.SearchFindsVerbatim | frontend/app/admin/services/orderService.ts:63-67 | an order whose id or customer id contains the query is found |
| OrderService.CalculateStatistics | frontend/app/admin/services/orderService.ts:90-108 | average times count is the sum (0 for no orders); today's and pending counts are the sizes of those filters, at most the count |
| OrderService.AverageWithinBounds | frontend/app/admin/services/orderService.ts:91-93 | the average lies between any lower and upper bound of the amounts |
| OrderService.PendingPartition | frontend/app/admin/services/orderService.ts:101 | pending and non-pending orders together are all orders |
| CurrencyService.Rate | frontend/app/admin/services/currencyService.ts:4-11 | the listed rate for a listed currency, 1 otherwise; always positive |
| CurrencyService.ToIsk | frontend/app/admin/services/currencyService.ts:32-34 | a listed currency is multiplied by its listed rate; ISK and unlisted currencies keep the amount; conversion keeps the sign and zero |
| CurrencyService.ToIskExamples | frontend/app/admin/services/currencyService.ts:4-11 | 100 USD is 13889 ISK; an unlisted currency converts at par |
| CurrencyService.TotalRevenueIsk | frontend/app/admin/services/currencyService.ts:39-43 | no totals give 0 |
| CurrencyService.TotalRevenueIskAppend | frontend/app/admin/services/currencyService.ts:39-43 | the ISK total of two lists joined is the sum of their ISK totals |
| CurrencyService.SortDesc | frontend/app/admin/services/currencyService.ts:61 | sorted by ISK equivalent descending, a permutation of the input |
| CurrencyService.CreateCurrencyBreakdown | frontend/app/admin/services/currencyService.ts:48-62 | one row per input total, sorted by ISK equivalent descending |
| CurrencyService.BreakdownShape | frontend/app/admin/services/currencyService.ts:48-62 | one row per input total, sorted descending, each carrying its total, ISK equivalent and percentage |
| CurrencyService.BreakdownZeroTotal | frontend/app/admin/services/currencyService.ts:54 | when the ISK total is not positive every percentage is 0 |
| CurrencyService.BreakdownPercentagesSumTo100 | frontend/app/admin/services/currencyService.ts:48-62 | with a positive ISK total the percentages add up to 100 |
| CurrencyService.BreakdownPercentagesBounded | frontend/app/admin/services/currencyService.ts:48-62 | with non-negative totals each percentage is between 0 and 100 |
| CurrencyService.GetUniqueCurrencies | frontend/app/admin/services/currencyService.ts:67-69 | the currencies in input order, distinct exactly when the input's are |
| CurrencyService.FormatPrice | frontend/app/admin/services/currencyService.ts:17-27 | ISK gets the " kr" suffix; USD, EUR and GBP get their symbol as a prefix; others get nothing |
| RevenueChart.ChartDates | frontend/components/RevenueChart.tsx:20-22 | at most 14 dates, each a date of the rows |
| RevenueChart.ChartDatesSpec | frontend/components/RevenueChart.tsx:20-22 | the plotted dates are in strictly ascending order, min(14, distinct) of them, and the latest ones |
| RevenueChart.ChartDatesAllWhenFew | frontend/components/RevenueChart.tsx:20-22 | with at most 14 distinct dates every date is plotted |
| RevenueChart.RevenueFor | frontend/components/RevenueChart.tsx:24-27 | the first matching row's revenue, or 0 when no row matches |
| RevenueChart.ChartData | frontend/components/RevenueChart.tsx:132-142 | one point per plotted date, with its revenue in the selected currency |
| RevenueChart.FillDataPoint | frontend/components/RevenueChart.tsx:248-251 | the point has a value for exactly the given currencies, each its revenue that day |
| RevenueChart.MultiCurrencyChartData | frontend/components/RevenueChart.tsx:236-254 | one point per plotted date. Each has a value for exactly the currencies in the rows, that currency's revenue on the date or 0 |
| OrderPage.GenerateCustomerId | frontend/app/page.tsx:68-72 | "CUST-" followed by min(5, number of digits of the letters' code sum) characters |
| OrderPage.CustomerIdShape | frontend/app/page.tsx:68-72 | "CUST-" then exactly min(5, digits of the sum) digits, the leading digits of the letters' code sum; a sum below 100000 is spelled exactly |
| OrderPage.CustomerIdIgnoresCase | frontend/app/page.tsx:69 | names differing only in letter case give the same id |
| OrderPage.CustomerIdIgnoresNonLetters | frontend/app/page.tsx:69 | inserting a non-letter does not change the id |
| OrderPage.CustomerIdWithoutLetters | frontend/app/page.tsx:68-72 | a name without letters gives "CUST-0" |
| OrderPage.GenerateOrderId | frontend/app/page.tsx:74-77 | "ORD-2025-" followed by min(6, number of digits of the timestamp) characters |
| OrderPage.OrderIdShape | frontend/app/page.tsx:74-77 | "ORD-2025-" then exactly the last min(6, digits) digits of the timestamp, which spell it modulo 10^6 |
| OrderPage.CalculateTotal | frontend/app/page.tsx:79-86 | 0 for an unknown product; otherwise within one half of price × quantity × rate |
| OrderPage.CalculateTotalIsk | frontend/app/page.tsx:41-58 | on the page's catalogue, ISK or an unlisted currency gives exactly price × quantity |

## Left out

- Network and I/O are not modelled.
  - This covers `fetchOrders` and `fetchSummary`, the form's `handleSubmit` and the request headers.
  - The database session, commit and refresh are left out too. An endpoint call is one atomic change of `Store.orders`.
- Rendering, colours, tooltips and the display labels of chart points are left out. They are presentation only.
- Floating point is left out. Frontend amounts are exact reals, so IEEE rounding of conversions and percentages is not captured.
- `toLocaleString` and `toLocaleDateString` are left out because they depend on the locale.
  - `FormatPrice` takes the localised number as a string.
  - `formatDate` of `orderService.ts` and the page's own `formatPrice` are not modelled.
- Time zones, the time of day and `toDateString` are left out.
  - Dates are `YYYY-MM-DD` strings.
  - `CalculateStatistics` takes today's day and the date-to-day mapping as parameters.
- The `created_at`/`updated_at` columns are left out because the server maintains them.
- Pydantic's JSON coercion is left out: strings for numbers, datetime parsing, unknown fields. The model works on decoded values.
  - The text of error messages is left out. Only the field and the kind of error are kept.
- Unicode is left out. Case mapping and `strip` cover ASCII only, while Python's and JavaScript's cover all of Unicode.
- Negative `skip` and `limit` are left out: they are `nat`. The defaults 0 and 100 belong to the HTTP layer.
- An explicit JSON `null` in a PATCH body is treated as an absent field. pydantic would count it as set.
- `GROUP BY currency` has no `ORDER BY`, so the database fixes the row order. The model returns currencies in order of first appearance.
- OrderStore.ReadOrders: `read_orders` and `read_customer_orders` have no `ORDER BY`, so the database may return rows in any order. The model returns them in table (insertion) order, and an updated row keeps its place.
- OrderStore.Store.Create: `total_amount` is a 32-bit `Integer` column (backend/app/models.py:27). The model's amounts are unbounded, so an amount above 2147483647, which the database would refuse, is stored.
- Schemas.ValidateOrderCreate: takes an already decoded request, so a missing required field or an explicit `"status": null` cannot be written. pydantic answers both with 422 before any validator runs.
- OrderPage.CalculateTotal: takes a whole-number quantity. The form's `Number(e.target.value)` can give a fractional quantity, whose price the model does not cover.
- CurrencyService.SortDesc: proves sortedness and permutation, but not the stability of `Array.prototype.sort` for equal ISK amounts.
- RevenueChart.ChartData: the same function stands for `RevenueChart` and `RevenueBarChart`, whose pipelines are identical.
- OrderPage.CalculateTotal: takes the catalogue and currency lists as parameters. `CalculateTotalIsk` fixes them to the page's constants.
- OrderPage.GenerateOrderId: the clock `Date.now()` is the parameter `timestamp`.
- Lookups of JavaScript prototype keys (`CURRENCY_RATES["toString"]`) are not modelled.
- `config.py`, the startup code and `utils/post_dummy_data.py` are not part of this model.
