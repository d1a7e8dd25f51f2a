# RMAN backend: stock-history reports and the transaction router

This project models three serverless handlers in Dafny and proves properties
of the model.

- `api/stockhistory.js` answers `GET` with a period report. The query holds either
  `period=YYYY-MM` or both `startPeriod` and `endPeriod`. Each value is
  normalised to `YYYY-MM` by `normalizeYYYYMM`. The normalised values filter
  the `stockhistory` collection on `PERIOD_ISO`. A MongoDB pipeline then adds
  each document's unit cost and sold cost and groups the documents by
  `GROUP_NAME` with five sums. It sorts the groups by key. A `reduce` folds
  the groups into grand totals, counting an absent total as 0.
- `api/stockview.js` is the same report with three differences:
  - it answers CORS preflight (`OPTIONS`);
  - its `normalizeYYYYMM` throws when the month is missing, which turns into
    a 500;
  - its `reduce` adds the group totals without the `|| 0` guard.
- `api/transactions.js` routes `/api/transactions/...` over a fixed table of
  three transactions: by `code`, `date`, `range` or `customer`, and 404
  otherwise.

The modules:

- `Wrappers`: `Option` and `Result`.
- `Http`: a response is a status and a body; JavaScript truthiness of a query
  value.
- `Strings`: the JavaScript string operations used, and the code-point order
  in which the database compares strings.
- `Sequences`: `filter`, `find` and `map`.
- `Periods`: the two normalisers and the shape and order of periods.
- `Aggregation`: the pipeline stages as functions over the collection's
  documents.
- `GrandTotals`: the two `reduce`s, as loops updating five running sums.
- `StockApi`, `StockHistory`, `StockView`: the two report handlers, as methods.
- `Transactions`: the router, as functions.

The database is an input. It is `Some(documents)`, or `None` when the
connection or the aggregation fails, which the handlers' `catch` reports as
500.

Some behaviours of the code worth knowing:

- Documents without `GROUP_NAME` form one group whose `_id` is null. It sorts
  before every string. The code has no fallback label for it.
- For a value without `-`, the normaliser of `api/stockhistory.js` defaults
  the month to `01`, and the normaliser of `api/stockview.js` throws.
- Only `api/stockhistory.js` guards the grand totals against a missing group
  field with `|| 0`. On what the pipeline returns, no field is missing
  (`GrandTotals.TotalsPresent`), so both handlers give the same sums.
- The report body holds only `groups` and `grandTotals`.

## Model

| member | source | states |
|---|---|---|
| `Periods.NormalizeHistory` | api/stockhistory.js:13-18 | The result is null exactly when the input is falsy (undefined or empty). |
| `Periods.HistoryPadsMonth` | api/stockhistory.js:15-17 | A one-digit month gets a leading `0`. A month of two or more characters is kept. |
| `Periods.HistoryExamples` | api/stockhistory.js:15-17 | `"2022-7"` and `"2022-07"` both give `"2022-07"`. |
| `Periods.HistoryDefaultsMonth` | api/stockhistory.js:16 | A year without a month, or with an empty month, gets month `01`. |
| `Periods.HistoryIgnoresExtraPieces` | api/stockhistory.js:15 | Only the first two `-` pieces count: `Y-M-rest` normalises like `Y-M`. |
| `Periods.HistoryIdempotent` | api/stockhistory.js:13-18 | Normalising a normalised value changes nothing. |
| `Periods.HistoryCanonical` | api/stockhistory.js:13-18 | A well-formed `YYYY-M` or `YYYY-MM` becomes a canonical `YYYY-MM` for the same year and month. |
| `Periods.PeriodOrderIsChronological` | api/stockhistory.js:39-43 | Canonical periods compare as strings exactly as their months compare in time. So the `$gte`/`$lte` string range is a range of months. |
| `Periods.SameMonthIsSamePeriod` | api/stockhistory.js:37-38 | Two canonical periods are equal exactly when they denote the same month. |
| `Periods.NormalizeView` | api/stockview.js:49-53 | Null exactly for a falsy input. A thrown `TypeError` exactly for a truthy input without `-`. |
| `Periods.ViewVersusHistory` | api/stockview.js:49-53 | The two normalisers compared on every input. Both give null for a falsy value. Without `-`, the stock-view one throws and the stock-history one gives month `01`. With an empty month they give `00` and `01`. Otherwise they agree. |
| `Periods.ViewExamples` | api/stockview.js:49-53 | `"2022-7"` gives `"2022-07"`. `"2022"` throws. |
| `Periods.ViewIdempotent` | api/stockview.js:49-53 | For a truthy input containing `-`, the stock-view normaliser succeeds, and normalising its result again changes nothing. |
| `Strings.Split` | api/stockhistory.js:15 | `split` gives at least one piece, and no piece contains the separator. |
| `Strings.SplitSize` | api/stockview.js:51-52 | There is a second piece exactly when the string contains the separator. |
| `Strings.JoinSplit` | api/transactions.js:17 | Joining the pieces of a split gives back the string. |
| `Strings.SplitJoin` | api/transactions.js:17 | Splitting joined pieces that do not contain the separator gives back the pieces. |
| `Strings.PadStart` | api/stockhistory.js:16 | `padStart`: the padded length, the original string as suffix, and only pad characters before it. |
| `Aggregation.AddFields` | api/stockhistory.js:53-68 | `QTY_BUY == 0` gives `unitCost` and `soldCost` of 0. Otherwise `unitCost * QTY_BUY == BUY` and `soldCost == QTY_SOLD * unitCost`. The document is kept. |
| `Aggregation.MatchedRows` | api/stockhistory.js:50-69 | `$match` then `$addFields`: the documents that reach `$group` are exactly the matching documents, each with its added fields. Each matching document reaches it as often as it occurs in the collection, and there are no more of them than there are documents. |
| `Aggregation.TotalConcat` | api/stockhistory.js:74-78 | `$sum` over two batches of documents is the sum of the two batches' sums. |
| `Aggregation.InsertKeys` | api/stockhistory.js:70-81 | Adding a document to the groups adds its key to the keys present and no other key. |
| `Aggregation.InsertSorted` | api/stockhistory.js:81 | Adding a document to groups in ascending key order keeps them in that order. |
| `Aggregation.InsertItems` | api/stockhistory.js:73 | Adding a document adds exactly that document to the groups' items, as a multiset. |
| `Aggregation.GroupBySorted` | api/stockhistory.js:70-81 | `$group` followed by `$sort` gives groups in strictly ascending key order. |
| `Aggregation.GroupByKeyed` | api/stockhistory.js:70-80 | Every group is non-empty, holds only documents with its key, and carries the sums over its items. |
| `Aggregation.GroupByItems` | api/stockhistory.js:73 | The groups' items are the grouped documents, as a multiset. |
| `Aggregation.GroupByTotal` | api/stockhistory.js:74-78 | Summing a quantity over all groups' items gives its sum over the grouped documents. |
| `Aggregation.GroupByKeys` | api/stockhistory.js:72 | There is a group for a key exactly when some grouped document has that key. |
| `Aggregation.GroupsSorted` | api/stockhistory.js:81 | The groups come out in strictly ascending key order, with null first. |
| `Aggregation.GroupsPartition` | api/stockhistory.js:70-80 | The groups partition the matched documents. Each group is non-empty and holds only documents with its key. There is one group per key that occurs. Every matched document is in exactly one group. The groups hold the matched documents as a multiset. |
| `Aggregation.GroupTotalsAreSums` | api/stockhistory.js:71-79 | Each group total of the pipeline's output (built by `Aggregation.Group`) is the sum of that quantity over the group's items. Profit sums `SOLD - soldCost`. |
| `Aggregation.TotalIgnoresOrder` | api/stockhistory.js:73-78 | A sum depends only on the multiset of documents, so the unspecified `$push` order does not matter. |
| `Aggregation.NoMatchNoGroups` | api/stockhistory.js:50-84 | A filter that matches no document gives no groups and all-zero sums. |
| `GrandTotals.GrandTotalsGuarded` | api/stockhistory.js:87-97 | The loop's five sums are the guarded sums (`GrandTotals.GuardedSum`) of the group totals, with an absent total counted as 0. |
| `GrandTotals.GuardedSumOfItems` | api/stockhistory.js:87-97 | Over groups whose totals are their items' sums, the guarded grand total is the sum over all items. |
| `GrandTotals.GuardedConserves` | api/stockhistory.js:84-97 | Each grand total equals the sum of that quantity over every matched document. |
| `GrandTotals.GrandTotalsUnguarded` | api/stockview.js:105-115 | The loop's five sums are the unguarded sums (`GrandTotals.UnguardedSum`) of the group totals. |
| `GrandTotals.UnguardedVersusGuarded` | api/stockview.js:105-115 | `GrandTotals.UnguardedSum` is `NaN` exactly when some group lacks the total. Otherwise it is `GrandTotals.GuardedSum`. |
| `GrandTotals.TotalsPresent` | api/stockview.js:89-100 | Every group the pipeline returns has all five totals. |
| `GrandTotals.UnguardedConserves` | api/stockview.js:103-115 | On the pipeline's output, the unguarded grand totals are the sums over every matched document. |
| `StockHistory.Handle` | api/stockhistory.js:20-104 | A method other than GET gives 405. A GET without `period` or a full range gives 400. A database failure gives 500. Otherwise the answer is 200 with the pipeline's groups for the built filter and grand totals that add up every matched document. |
| `StockHistory.HistoryMatch` | api/stockhistory.js:36-44 | The filter is an exact match exactly when `period` is given, a range exactly when only both bounds are, and `{}` exactly when validation would fail. |
| `StockHistory.PeriodWins` | api/stockhistory.js:37-44 | When `period` is given, the filter is an exact match and the range bounds make no difference. |
| `StockHistory.ExactMatchIsThatMonth` | api/stockhistory.js:37-38 | With a well-formed `period`, a document with a canonical `PERIOD_ISO` matches exactly when it is of that month. |
| `StockHistory.RangeIsInclusive` | api/stockhistory.js:39-43 | Without `period`, well-formed bounds match the documents whose month lies between them, both ends included. |
| `StockView.ViewMatch` | api/stockview.js:55-63 | Building the filter fails exactly when the period used (`period`, else a bound) has no `-`. A built filter is an exact match exactly when `period` is given, and never matches everything. |
| `StockView.Handle` | api/stockview.js:24-124 | OPTIONS gives 200 with no body. Another method other than GET gives 405. Missing parameters give 400. A period without a month or a database failure gives 500. Otherwise the answer is 200 with the groups and grand totals that add up every matched document. |
| `StockView.ViewAgreesWithHistory` | api/stockview.js:49-63 | When every period the filter uses (`period` if given, else both bounds) has a non-empty month, the stock-view filter is the stock-history filter. |
| `StockView.MissingMonthDiffers` | api/stockview.js:49-57 | A `period` without `-` makes the stock-view filter fail. The stock-history filter takes month `01` of that year. |
| `Sequences.Find` | api/transactions.js:29 | `find`: none exactly when no element satisfies the predicate, otherwise the first element that does. |
| `Sequences.Filter` | api/transactions.js:35 | `filter` returns no more elements than it is given, and each satisfies the predicate. |
| `Sequences.FilterIsSubsequence` | api/transactions.js:35 | `filter` adds nothing and reorders nothing. |
| `Sequences.FilterCounts` | api/transactions.js:43 | `filter` keeps each satisfying element as often as it occurs, and no other element. |
| `Transactions.Route` | api/transactions.js:19-62 | Every status is 200, 404 or 500. 200 comes with transactions, 404 with a message. 500 is the uncaught exception, and happens exactly for `customer` without a name. |
| `Transactions.Handle` | api/transactions.js:7 | OPTIONS answers 200 with no body. Every status is 200, 404 or 500. |
| `Transactions.StripRoute` | api/transactions.js:16 | Under the prefix, the path is no longer than what follows the prefix. Any other URL loses at most one trailing `/`. |
| `Transactions.Parts` | api/transactions.js:16-17 | The segments are at least one, none holds a `/`, and joined with `/` they give the path back. |
| `Transactions.StripRouteRemovesPrefix` | api/transactions.js:16 | The prefix, an optional `/` after it and one trailing `/` are removed. |
| `Transactions.StripRouteOneSlash` | api/transactions.js:16 | Only one trailing `/` is removed. |
| `Transactions.ParseRoute` | api/transactions.js:16-17 | A URL built from segments without `/` (first and last non-empty) yields exactly those segments, with or without a trailing `/`. |
| `Transactions.HandleRoutes` | api/transactions.js:16-25 | A request other than OPTIONS is routed on its URL's segments. |
| `Transactions.EmptyPathListsAll` | api/transactions.js:19-21 | `/api/transactions` and `/api/transactions/` list the whole table with 200. |
| `Transactions.CodeLookup` | api/transactions.js:28-32 | `code/X` answers 200 or 404. It gives 404 exactly when no transaction has code `X`, and otherwise 200 with the first transaction that does. `code` without a code gives 404. |
| `Transactions.FilterSelects` | api/transactions.js:34-58 | A filter result is a subsequence of the table. It holds exactly the satisfying transactions, each as often as in the table. It is empty exactly when none satisfies. |
| `Transactions.DateLookup` | api/transactions.js:34-38 | `date/D` answers 200 or 404. It gives 404 exactly when no transaction is dated `D`, and otherwise 200 with exactly those transactions, in table order. |
| `Transactions.DateWithoutDay` | api/transactions.js:34-38 | `date` without a day matches nothing and gives 404. |
| `Transactions.CustomerLookup` | api/transactions.js:51-58 | `customer/N` answers 200 or 404. It gives 404 exactly when no customer equals `N` up to ASCII case, and otherwise 200 with exactly those transactions, in table order. Without a name it gives 500. |
| `Strings.LowerAscii` | api/transactions.js:52-54 | `toLowerCase` on ASCII: the length is kept, each upper-case ASCII letter becomes its lower-case letter (32 code points on), and every other character is unchanged. |
| `Transactions.CustomerIgnoresCase` | api/transactions.js:52-55 | Names of equal length whose characters are equal or the two cases of one ASCII letter give the same answer. |
| `Transactions.DateOrderIsLexicographic` | api/transactions.js:41-45 | On `YYYY-MM-DD` dates the string order is the order in time. |
| `Transactions.ParseDate` | api/transactions.js:41-44 | `new Date` gives a day exactly for a well-formed `YYYY-MM-DD` string, and an invalid date otherwise, including for a missing segment. |
| `Transactions.InRange` | api/transactions.js:43-46 | A transaction is in range only when both bounds and its own date are valid days and the start is not after the end. |
| `Transactions.RangeLookup` | api/transactions.js:40-49 | `range/S/E` with valid dates answers 200 or 404. It gives exactly the transactions whose date lies between `S` and `E`, both ends included, in table order, and 404 exactly when there are none. |
| `Transactions.RangeInvalidBound` | api/transactions.js:40-49 | A missing or invalid bound matches nothing and gives 404. |
| `Transactions.UnknownEndpoint` | api/transactions.js:60-61 | Any other first segment gives 404 "Endpoint not found". |
| `Transactions.SampleCodeLookup` | api/transactions.js:28-32 | On the handler's table, `code/TX1002` finds Bob's transaction, and `code/TX9999` gives 404. |
| `Transactions.SampleDateLookup` | api/transactions.js:34-38 | On the handler's table, `date/2025-08-24` gives TX1001 and TX1002. |
| `Transactions.SampleCustomerLookup` | api/transactions.js:51-58 | On the handler's table, `customer/alice` gives TX1001 and TX1003. |

## Left out

- MongoDB client creation and connection caching: they are I/O. The documents of the `stockhistory` collection are an input, and the model computes the pipeline over them itself. A thrown connection or aggregation error is `None`.
- CORS headers, `console.error`, the exact error-message texts and the `details` field of the stock-view 500 body: they are response side effects, and the body is abstract.
- Floating point: quantities and amounts are real numbers, so `BUY / QTY_BUY` and the sums are exact. Rounding, `Infinity` and `NaN` inside documents are not modelled.
- Document fields other than the modelled ones are not modelled. Every document has the four numeric fields, so `$sum` never meets a missing or non-numeric value. `GROUP_NAME` is a string or absent/null, and `PERIOD_ISO` is a string or absent. BSON comparison of other types, and array-valued fields, are not modelled.
- The order of items inside a group: the model pushes them in input order, but MongoDB does not promise an order. The group properties are stated over multisets (`Aggregation.GroupsPartition`, `Aggregation.TotalIgnoresOrder`).
- Repeated query parameters, which arrive as arrays, are not modelled. Each query value is a string or absent.
- `Transactions.ParseDate`: `new Date` is modelled only for `YYYY-MM-DD` strings with a month of 1 to 12 and a day of 1 to 31. Other formats that JavaScript accepts count as invalid dates, and a day past the end of its month is not rolled into the next month.
- `Transactions.ForCustomer`: `toLowerCase` is modelled for ASCII letters only.
- `Strings.PadStart`: lengths are counted in Unicode code points, not in the UTF-16 code units JavaScript counts. So a month holding a character above U+FFFF gets a leading `0` where JavaScript keeps it as it is. `Periods.NormalizeHistory` and `Periods.NormalizeView` inherit this.
- `Transactions.Route`: `customer` without a name dereferences `undefined` and throws outside any `try`. This is modelled as a 500 `Crashed` answer, the platform's response to an uncaught exception, not as a precondition.
- A query string in `req.url` is not separated from the path. The code does not separate it either: it becomes part of the last segment.
- `Transactions.Handle`: its own contract states only the OPTIONS answer and the possible statuses. What it answers for a URL is stated by `Transactions.HandleRoutes`, `Transactions.EmptyPathListsAll` and the lookup lemmas over `Transactions.Route`.
