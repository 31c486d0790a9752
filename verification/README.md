# Transaction reporting API: a Dafny model

This project models the reporting core of a small Express/MongoDB service that stores sale
transactions and reports on them by month. The MongoDB collection is a `seq<Transaction>` in
insertion order, and every query is assumed to return its matches in that order. Each route of `routes/api.js` is a pure function from that sequence and
already-parsed query parameters to its response:

- `/init` seeds the store. Each fetched record gets `month = getMonth(dateOfSale) + 1`, then the
  store is emptied and refilled with the processed records.
- `/transactions` filters by month and an optional search, then paginates with `skip`/`limit`.
- `/statistics` reports the total sale amount, the number of sold records and the number of
  unsold records.
- `/bar-chart` counts records in ten fixed price ranges. Both ends of each range are inclusive.
- `/pie-chart` counts records per distinct category.
- `/combined` reports the month's records, a grouped statistics pass, a `$bucket` price histogram
  and the category histogram.

The pre-save hook of the schema in `models/Transaction.js` is modelled too. It derives `month`
from `dateOfSale`.

The database operators are read as their documented meanings:

- `find`, `$match` and `countDocuments` are filtering and counting (`Seqs`).
- `$gte`/`$lte` is an inclusive range test.
- `$bucket` assigns each value to a half-open bin `[b_i, b_{i+1})` (`PriceBins`).
- `$group` is a histogram over keys (`Histograms`).
- `skip`/`limit` select a window of the results (`Listing.Window`).

Modules follow the program's structure. `Transactions` covers the schema and its hook. `Queries`
is the month filter that every route shares. `Seeding`, `Listing`, `Stats`, `Charts` and
`Combined` are the routes. `Scenarios` holds worked one-record examples.

In these places the model follows what the code does:

- The combined view's histogram uses `$bucket`, whose bins are half-open. It is not bucketed
  inclusively like the bar chart. Among whole prices they differ exactly at
  100, 200, ..., 900 (`PriceBins.BoundaryDisagreement`). A price strictly between 100k and
  100k+1, such as 100.5, is in a `$bucket` bin but in no bar range (`PriceBins.GapDisagreement`).
- The combined statistics count a record whose `sold` is missing as not sold, because of `$cond`.
  The statistics route does not count it at all.
- The combined statistics are absent for a month with no records, because `$group` emits nothing.
- The `$bucket` `default` output is named "901-above" in the route, but it only receives
  negative prices. Prices of 900 and above fall into the last bucket, which is bounded by
  `Infinity`.

## Model

| member | source | states |
|---|---|---|
| Transactions.CalendarMonth | models/Transaction.js:15 | the month derived from a valid date lies in 1..12 |
| Transactions.PreSave | models/Transaction.js:13-17 | the hook changes only `month`; every other schema field is kept, and the new month is the date's calendar month, in 1..12 |
| Transactions.PreSaveFixpoint | models/Transaction.js:13-17 | the hook leaves a record unchanged exactly when its month already matches its date |
| Transactions.PreSaveDependsOnlyOnFields | models/Transaction.js:3-17 | two records are saved identically exactly when they agree on every schema field except `month`, so a month supplied by the caller has no effect on the saved record |
| Queries.MatchesMonth | routes/api.js:32 | a NaN month (`None`) matches no record; a record whose month was stamped from its date matches only its own calendar month, which lies in 1..12 |
| Queries.MonthRecords | routes/api.js:120 | the month filter returns only store records with exactly that month, and all of them; a NaN month (`None`) returns nothing |
| Seeding.Init | routes/api.js:15-21 | seeding keeps the count and order of the fetched records and every field except `month`; each month matches its date; each record equals what the save hook would produce |
| Seeding.InitReplacesStore | routes/api.js:20-21 | after seeding, a month that no fetched record was sold in lists nothing, whatever the store held before |
| Seeding.InitKeepsOnlyFetched | routes/api.js:15-21 | after seeding, every stored record is a stamped fetched record |
| Seqs.CountOfFilter | routes/api.js:54-61 | counting records that meet the month and a second condition equals counting the second condition among the month's records |
| Listing.SkipOf | routes/api.js:31-41 | the skip is 0 for the default or first page and for a page size of 0; it is negative, so the query is rejected, exactly when the page is below 1 with a positive page size or above 1 with a negative one |
| Listing.SearchMatches | routes/api.js:33-38 | an empty search text matches every record; without a numeric reading, a match needs a title or description at least as long as the search text |
| Listing.Window | routes/api.js:40-42 | `skip`/`limit` returns the contiguous run starting at `skip`; its length is the rest of the list when the limit is 0 and at most the limit's absolute value otherwise |
| Listing.ListTransactions | routes/api.js:30-43 | a negative skip is rejected; each listed record is in the store with the requested month; with a search, each listed record matches the title, the description or the price; no more than `perPage` records are listed |
| Listing.ListWithoutSearch | routes/api.js:31-33 | without a non-empty search, month equality is the only condition |
| Listing.ListDefaults | routes/api.js:31-42 | with the default page and page size, the listing is the first 10 matching records |
| Listing.PageOfMatch | routes/api.js:40-42 | page `j / n + 1` of size n has an item at position `j % n` exactly when there is a j-th match, and that item is the j-th match, so pages of size n tile the matches |
| Listing.ListNonNumericMonth | routes/api.js:32 | a month that parses to NaN lists nothing |
| Text.ContainsIgnoreCase | routes/api.js:35-36 | the empty search text occurs in every field, and a matched search text is never longer than the field |
| Text.InfixAtOffset | routes/api.js:35-36 | the substring test holds exactly when the text occurs at some offset |
| Text.PatternCaseIrrelevant | routes/api.js:35-36 | with the `i` flag, the case of the search text does not matter |
| Text.TextCaseIrrelevant | routes/api.js:35-36 | with the `i` flag, the case of the searched field does not matter |
| Stats.SoldCount | routes/api.js:54-61 | `countDocuments({ month, sold: true })` is the number of the month's records with `sold == true`, and likewise for `sold: false` |
| Stats.SoldCountsCover | routes/api.js:54-61 | the sold and unsold counts together are at most the month count, and equal it exactly when every record has a boolean `sold` |
| Stats.SumPrices | routes/api.js:50-53 | the `$sum` of prices is 0 for no records and non-negative when all prices are |
| Stats.SoldSplit | routes/api.js:54-61 | every record is sold, unsold or missing `sold`, and in exactly one of these |
| Stats.GetStatistics | routes/api.js:47-67 | the total is the month's price sum, or 0 with no records; the two counts are the month's `sold == true` and `sold == false` records; their sum is at most the month count, and equals it exactly when every record has a boolean `sold` |
| PriceBins.BarRangesDisjoint | routes/api.js:74-85 | no price lies in two bar ranges |
| PriceBins.BarRangeOfWholePrice | routes/api.js:74-91 | a non-negative whole price lies in exactly one bar range, the one the reference `BarSlot` names |
| PriceBins.BarRangeGap | routes/api.js:74-91 | a price strictly between 100k and 100k+1, such as 100.5, lies in no bar range |
| PriceBins.NegativeOutsideBarRanges | routes/api.js:74-91 | a negative price lies in no bar range |
| PriceBins.BucketOfPrice | routes/api.js:135-139 | every non-negative price lies in exactly one bucket, the one the reference `BucketSlot` names |
| PriceBins.NegativeOutsideBuckets | routes/api.js:135-139 | a negative price lies in no bucket |
| PriceBins.BoundaryDisagreement | routes/api.js:74-139 | among whole prices, the bar chart and `$bucket` place a price differently exactly when it is one of 100, 200, ..., 900 |
| PriceBins.GapDisagreement | routes/api.js:74-139 | a price strictly between 100k and 100k+1, for k in 1..9, is in the `$bucket` bin starting at 100k but in no bar range |
| PriceBins.PriceHundredExample | routes/api.js:74-139 | a price of 100 is in "0-100" for the bar chart but in the bucket starting at 100 for `$bucket` |
| Charts.RangeQuery | routes/api.js:89-91 | no record satisfies the filters of two different ranges, and a NaN month satisfies none |
| Charts.BarHits | routes/api.js:87-95 | a record is counted by no range outside its month, by at most one inside it, and by exactly one when its price is a non-negative whole number |
| Charts.BarCountIsMonthCount | routes/api.js:89-92 | each range's `countDocuments` is the number of the month's records in that range |
| Charts.BarTotal | routes/api.js:87-95 | the range counts sum to at most the month count, and to exactly the month count when every price is a non-negative whole number |
| Charts.BarChart | routes/api.js:71-98 | ten entries in the fixed range order; each counts the month's records with min <= price <= max; no record is counted twice; with non-negative whole prices every record is counted |
| Charts.Categories | routes/api.js:106 | the grouping keys are distinct and are exactly the categories that occur |
| Charts.CategoryHits | routes/api.js:106 | a record is counted under exactly one category |
| Charts.PieTotal | routes/api.js:104-107 | the category counts sum to the number of records |
| Charts.PieCountsPositive | routes/api.js:104-107 | every listed category has at least one record |
| Charts.PieChart | routes/api.js:101-115 | one entry per distinct category of the month, and only those; each count is at least 1 and is that category's number of month records; the counts sum to the month count |
| Combined.CondNotSoldCount | routes/api.js:128 | the `$sum` of `$cond: ["$sold", 0, 1]` is the number of records with `sold == false` plus the number with no `sold` |
| Combined.GroupStatistics | routes/api.js:121-131 | no document for a month without records; otherwise sold + notSold is the month count, and sold counts the `sold == true` records |
| Combined.BucketHits | routes/api.js:132-141 | a record falls into exactly one bucket when its price is non-negative, and into none otherwise |
| Combined.BucketTotal | routes/api.js:132-141 | the buckets count exactly the non-negative prices; with the `default` output every record is counted once |
| Combined.BucketPrices | routes/api.js:132-141 | ten buckets in boundary order, each counting the month's records in its half-open bin; `default` counts the negative prices; together they count every record |
| Combined.CombinedReport | routes/api.js:118-148 | the records are the month's; statistics are absent exactly when there are none, and sold + notSold is the month count; the bucket counts and the category counts each sum to the month count |
| Combined.CombinedAgreesWithStatistics | routes/api.js:121-131 | the combined total and sold count equal the statistics route's; its not-sold count adds the records missing `sold` |
| Combined.CombinedPieIsPieChart | routes/api.js:142-145 | the combined pie chart is the pie-chart route's |
| Scenarios.SeededMonth | routes/api.js:15-21 | seeding a record sold on 5 March 2023 stores it with month 3 |
| Scenarios.SeededStatistics | routes/api.js:47-67 | for that record at price 150, the statistics are total 150, one sold, none unsold |
| Scenarios.SeededBarChart | routes/api.js:71-98 | that record counts 1 in "101-200" and 0 in every other range |
| Scenarios.SeededPieChart | routes/api.js:101-115 | that record's pie chart is a single category "A" with count 1 |
| Scenarios.SearchByPrice | routes/api.js:30-43 | searching "150" lists the record through its price |
| Scenarios.SearchWithoutMatch | routes/api.js:30-43 | searching "zzz" lists nothing |
| Scenarios.PriceHundredAcrossRoutes | routes/api.js:74-141 | a record priced 100 is counted under "0-100" by the bar chart but under the bucket starting at 100 by the combined view |

## Left out

- Server start-up, CORS, body parsing, the database connection and environment configuration (app.js) are plumbing and are not modelled.
- The HTTP fetch of the seed dataset is not modelled. The fetched array is the `fetched` parameter of `Seeding.Init`.
- Seeding's delete-then-insert is modelled as one replacement. A failed insert that leaves the store empty, and concurrent `/init` calls, are not modelled.
- The concurrency of the bar chart's parallel counts is not modelled, because the counts are independent reads of the same store.
- Error responses are not modelled: the 500 response of `/init`, rejected queries in routes without `try`/`catch`, and an invalid regular expression in `search`. The one database error that parameters can cause, a negative `skip`, is modelled as `None`.
- Listing.SearchMatches: `search` is a JavaScript regular expression in the source. The model treats it as literal text and folds case for ASCII letters only, because regular-expression semantics are outside the core.
- Listing.ListTransactions: a month or search number that is NaN is read as a condition no record meets. Mongoose casts the filters of `find` and `countDocuments` against the schema, and its Number cast rejects NaN with a `CastError`. So in the source, `/transactions` with a missing or non-numeric month fails. So does every search whose text `parseFloat` reads as NaN, which is every non-numeric text search, because the `$or` always includes the price condition. The route has no `try`/`catch`, so no response is sent. The statistics, bar-chart and combined routes fail the same way on a NaN month. The model keeps the NaN-matches-nothing reading because library casting is outside the core.
- Listing.ListNonNumericMonth: its empty listing is the model's NaN-matches-nothing reading. The source's query fails instead, as the line above says.
- Scenarios.SearchWithoutMatch: its empty listing for "zzz" is the model's NaN-matches-nothing reading. In the source, `parseFloat("zzz")` is NaN and the query fails.
- The `parseInt` and `parseFloat` string parsing is not modelled. Month, page and page size are already-parsed integers. For month, `None` means NaN, which covers a missing month. For page and page size, `None` means a missing parameter, which takes the default 1 or 10. A NaN page or page size, which makes `(page - 1) * perPage` NaN in the source, is not modelled. The search text's numeric reading is given alongside it.
- Date parsing and time zones are not modelled. `getMonth` uses local time. A date is a record with a valid 0-based month, so invalid dates, whose month is NaN, are not modelled.
- Prices are exact `real`s. Floating-point summation and NaN prices are not modelled.
- Stats.GetStatistics: the `|| 0` fallback is modelled only for a month without records. A sum that is NaN cannot arise with `real` prices.
- The output shapes of `$bucket` and `$group` are not modelled in full. `$bucket` omits empty buckets and labels buckets by numeric `_id`. The model keeps all ten counts, in boundary order.
- `$group` emits groups in no guaranteed order. `Charts.PieChart` lists categories by first appearance, and none of its properties depend on the order.
- Mongoose's strict schema drops seed fields outside the schema, and every document also gets an `_id`. The record type has only the schema fields.
- Documents with a missing or non-numeric `price`, a missing `category` or a non-boolean `sold` are not modelled. `sold` is either a boolean or missing.
- JavaScript coercion of `page`/`perPage` strings in `(page - 1) * perPage` is not modelled. Only integer values are.
- Listing.PageOfMatch: the model keeps the store in insertion order and assumes `find` returns its matches in that order on every request. The route does not `sort`, and MongoDB does not promise the order of an unsorted `find`, so the source does not guarantee that pages tile the matches.
- MongoDB ends a cursor with a negative `limit` after one batch. The model returns `|limit|` items and does not model batch sizes.
