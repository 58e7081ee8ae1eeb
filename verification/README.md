# md-be product search and catalogue core, in Dafny

This project models the request-handling core of the md-be medical-equipment
marketplace back end:

- the natural-language product search: the in-memory corpus that `trainModel`
  rebuilds and `getPrediction` reads (`Corpus`); the price phrases the search
  handler folds into a `[minPrice, maxPrice]` bound (`PricePhrases`); and the handler
  `queryNlpModel` itself (`NlpSearch`);
- the two shared validators, `parsePriceRange` and `validateProduct` (`Helper`);
- the product listings and the product update. These are `getAllProducts`,
  `filterProducts`, `filterProductsWithCategory` and `updateProductById`
  (`ProductQueries`).
  - Each SQL statement is modelled by its conditions, the placeholder numbers
    those conditions mention, and its `values` array.
  - The proofs show that the `values.length + 1` numbering the handlers use makes
    every `$k` name an existing value and uses every value.
  - They also show that each condition is bound to what the request asked for.
- the filter facets of a product category, `getAllFilters` (`Facets`);
- the category tree, `fetchAllCategories` and `fetchSingleCategory` (`Categories`);
- request validation in `signUp` and `login`, and the `checkRole` gate (`Auth`).

Supporting modules:

- `Paging` covers the page clamps, `Math.ceil` page counts and slicing.
- `JsText` covers `trim`, `parseInt` and number rendering.
- `JsValues` covers JSON values, truthiness, and IEEE doubles reduced to
  NaN / ±Infinity / finite.
- `Seqs` covers filter, map, split and join.
- `Wrappers` covers `Option`.

Database queries are not executed. What a query returns is an input to the function
that models the handler: rows, row counts, whether an email is taken, and whether a
product belongs to the supplier. So are the library functions the handlers call:
- the `natural` tokenizer and `toLowerCase` (an `Analyzer`);
- the global `Number` (`toNumber`);
- the clock (`currentYear`).

Each HTTP answer is a constructor of an outcome datatype, e.g. `QueryRequired` for
400 "Query is required.", `NoMatches` for 404 "No matches found.".

The model follows the code as written, including these behaviours:
- `between A and B` sets the bound only when the character offset of the `between`
  match, plus one, is a valid index into the list of matches. The upper bound then
  comes from the match at that index. So the phrase works at the start of a
  two-phrase query (`PricePhrases.BetweenAtStart`) and is ignored elsewhere
  (`PricePhrases.BetweenLaterIgnored`).
- The upper price bound is inclusive (`price <= maxPrice`).
- A `$` before the digits is never stripped: the regular expression captures digits
  only. So `under $500` contributes NaN and no price passes
  (`PricePhrases.MissingNumeralPoisons`).
- The search handler answers an untrained corpus with the same 404 "No matches
  found." as an empty result. `Corpus.Predict` keeps the two apart (`None` versus
  `Some([])`); `NlpSearch.QueryNlpModel` maps both to `NoMatches`.
- `req.body.query` is any JSON value. A falsy one (`0`, `false`, `""`, `null`, absent)
  gets the 400. A truthy one that is not a string gets past that check: on an untrained
  corpus it gets the 404, and otherwise `toLowerCase` throws and the error goes to
  `next` (`QueryFailed`).
- `filterProductsWithCategory` answers an empty page with status 400 "No data found",
  where `filterProducts` answers 404 "No data found." and `getAllProducts` 404 "No
  products found for the given page.". The model keeps one `NothingFound` for all three.
- `signUp` checks the email before hashing. So a truthy password that is not a string
  still gets "Email already in use." for a taken email; for a fresh one, `bcrypt.hash`
  refuses it and the handler answers 500 (`HashRejected`).

## Model

| member | source | states |
|---|---|---|
| Corpus.BuildEntry | src/services/nlpService.js:94-108 | A row becomes a record exactly when its name and sales area are not NULL. Name and area are tokenised lower-case; every other column is copied. |
| Corpus.BuildAll | src/services/nlpService.js:94-108 | The mapping fails exactly when some row cannot be tokenised. Otherwise record i is the record of row i. |
| Corpus.Train | src/services/nlpService.js:86-117 | Training succeeds exactly when the query returned at least one row and every row has a name and a sales area. A failure keeps the old snapshot; a success replaces it with one record per row, in row order. |
| Corpus.Predict | src/services/nlpService.js:121-154 | "Not trained" (`null`) exactly when the snapshot is empty. Otherwise the result holds exactly the records sharing a tokenizer token with the query, by name or by sales area. |
| Corpus.PredictIsSubsequence | src/services/nlpService.js:130-136 | Predictions are snapshot records in snapshot order, with the rest left out. |
| Corpus.QueryByOwnNameFindsRecord | src/services/nlpService.js:104 | Train and query tokenise the same way, so querying a row's own name finds that row's record. |
| Corpus.TrainForgetsPriorSnapshot | src/services/nlpService.js:94 | A successful retrain does not depend on what was trained before. |
| Corpus.TrainIdempotent | src/services/nlpService.js:86-117 | Retraining on unchanged data changes nothing. |
| Corpus.UntrainedIffAllTrainingFailed | src/services/nlpService.js:5 | From process start, the corpus stays untrained exactly as long as every training attempt has failed; it is trained from the first success on. |
| PricePhrases.NumeralValue | src/controllers/products/nlpSearch.js:61 | `parseFloat` of the capture is NaN exactly when the phrase had no digits. |
| PricePhrases.Step | src/controllers/products/nlpSearch.js:58-83 | No contract of its own; characterised by `StepAdmits`. One match narrows the bound: `Math.min` for below/under/less than, `Math.max` for over/above, both for a `between` with a following match, nothing otherwise. |
| PricePhrases.FoldPrefix | src/controllers/products/nlpSearch.js:54-85 | No contract of its own; characterised by `FoldPrefixAdmits` and `FoldOnlyTightens`. The bound after the first k matches starts at `[0, Infinity)`. |
| PricePhrases.PriceBound | src/controllers/products/nlpSearch.js:54-85 | No contract of its own; characterised by `PriceBoundAdmits` and `NoPhraseUnbounded`. It gives the `minPrice`/`maxPrice` after every match. |
| PricePhrases.StepAdmits | src/controllers/products/nlpSearch.js:68-83 | One phrase narrows the admitted prices to those it permits read on its own: at most N, at least N, or between the `between` numeral and the paired one. |
| PricePhrases.FoldPrefixAdmits | src/controllers/products/nlpSearch.js:55-85 | After any number of phrases, a price is admitted exactly when it is non-negative and every phrase so far permits it. |
| PricePhrases.PriceBoundAdmits | src/controllers/products/nlpSearch.js:55-85 | The final bound is the intersection of the phrases' individual constraints with `[0, Infinity)`. |
| PricePhrases.FoldOnlyTightens | src/controllers/products/nlpSearch.js:73-82 | Later phrases never widen the bound. |
| PricePhrases.NoPhraseUnbounded | src/controllers/products/nlpSearch.js:55-56 | With no price phrase the bound is `[0, Infinity)` and admits exactly the non-negative prices. |
| PricePhrases.UnderAlone | src/controllers/products/nlpSearch.js:68-73 | `under N`, `below N` or `less than N` alone gives `[0, N]`. |
| PricePhrases.OverAlone | src/controllers/products/nlpSearch.js:74-75 | `over N` or `above N` alone gives `[N, Infinity)`. |
| PricePhrases.BetweenAtStart | src/controllers/products/nlpSearch.js:76-83 | `between A and B` at the start of the query gives `[A, B]`. |
| PricePhrases.BetweenLaterIgnored | src/controllers/products/nlpSearch.js:76-79 | `between A and B` anywhere else in a two-phrase query leaves the bound unchanged, because its character offset is used as a list index. |
| PricePhrases.MissingNumeralPoisons | src/controllers/products/nlpSearch.js:61-75 | A bounding phrase without digits makes the bound NaN, and then no price passes. |
| NlpSearch.Project | src/controllers/products/nlpSearch.js:134-148 | The response item carries every field of the record unchanged, except that the area tokens are joined by single spaces. |
| NlpSearch.QueryNlpModel | src/controllers/products/nlpSearch.js:22-158 | 400 exactly for a falsy query (any JSON value). A truthy query that is not a string is handed to `next` as an error exactly when the corpus is trained; otherwise it gets the 404. 404 for an untrained corpus or no prediction. Results come only for a string query; a page never exceeds its clamped size, and its metadata satisfies `totalPages = ceil(totalItems / pageSize)`. |
| NlpSearch.Keeps | src/controllers/products/nlpSearch.js:88-109 | No contract of its own; characterised by `ResultsPassEveryClause` and `OneRecordMatching`. A record is kept when the condition, sales-area, name and price clauses all hold. |
| NlpSearch.Matching | src/controllers/products/nlpSearch.js:38-109 | No contract of its own. It is the reference filter that `SearchAgreesWithMatching` equates with the two-stage search, and `MatchingIsSubsequence` shows it keeps corpus order. |
| NlpSearch.SearchAgreesWithMatching | src/controllers/products/nlpSearch.js:38-153 | The two-stage search (token predictions, then the four-clause filter) equals one filter over the corpus. It answers 404 exactly when that filter is empty; otherwise it reports the filter's size and shows the requested page of it. |
| NlpSearch.SomeMatchesShown | src/controllers/products/nlpSearch.js:118-153 | When some record matches, the answer is 200 with the requested page of the matches, their count, the page count, the page and the page size. |
| NlpSearch.MatchingIsSubsequence | src/controllers/products/nlpSearch.js:88-109 | Results keep corpus order. |
| NlpSearch.ResultsPassEveryClause | src/controllers/products/nlpSearch.js:88-109 | Every item shown comes from a corpus record that shares a token with the query and passes the condition, sales-area, name and price clauses. |
| NlpSearch.ProjectedAreaSplitsBack | src/controllers/products/nlpSearch.js:146 | The joined `salesArea` string splits back into the record's tokens when none of them holds a space. |
| NlpSearch.OneRecordMatching | src/controllers/products/nlpSearch.js:88-109 | Over a one-record corpus the match list is that record exactly when it passes every clause, and empty otherwise. |
| NlpSearch.OneRecordFound | src/controllers/products/nlpSearch.js:118-153 | A query matching the only record answers page 1 of 1 with that record, at the default page size of 10. |
| NlpSearch.NothingMatchedNoMatches | src/controllers/products/nlpSearch.js:111-116 | A query that matches nothing answers 404 "No matches found.". |
| NlpSearch.QueryWordsOfJoin | src/controllers/products/nlpSearch.js:49 | Splitting the lower-cased query on spaces recovers the words it was written from. |
| NlpSearch.ScannerTrains | src/services/nlpService.js:94-108 | Training on the scanner row ("Ultrasound Scanner", used, Texas, 300) yields the one scanner record. |
| NlpSearch.FullQueryWords | src/controllers/products/nlpSearch.js:49 | "used ultrasound texas under 500" splits into its five words. |
| NlpSearch.ShortQueryWords | src/controllers/products/nlpSearch.js:49 | "used ultrasound under 500" splits into its four words. |
| NlpSearch.ScannerWordClauses | src/controllers/products/nlpSearch.js:89-99 | The scanner passes the condition, area and name clauses for the full query. |
| NlpSearch.ScannerKeptByFullQuery | src/controllers/products/nlpSearch.js:88-109 | The scanner passes all four clauses for the full query. |
| NlpSearch.ScannerSharesFullQueryToken | src/services/nlpService.js:130-136 | The scanner is predicted for the full query through the token "ultrasound". |
| NlpSearch.ScannerPriceUnder500 | src/controllers/products/nlpSearch.js:101-104 | A price of 300 is within "under 500", wherever the phrase stands in the query. |
| NlpSearch.ScannerFoundByFullQuery | src/controllers/products/nlpSearch.js:22-158 | "used ultrasound texas under 500" finds the scanner: page 1 of 1, one item. |
| NlpSearch.ScannerMissedWithoutArea | src/controllers/products/nlpSearch.js:88-104 | For "used ultrasound under 500" the scanner passes the condition, name and price clauses but fails the area clause, and the search finds nothing: the area clause is required alongside the name clause. |
| NlpSearch.ScannerShortQueryClauses | src/controllers/products/nlpSearch.js:89-99 | The scanner's condition "used" and name token "ultrasound" are words of the query without the area. |
| NlpSearch.ScannerAreaNotInShortQuery | src/controllers/products/nlpSearch.js:93-95 | The scanner's only area, "texas", is none of the words of "used ultrasound under 500", so the area clause rejects it. |
| Paging.ClampPage | src/controllers/products/nlpSearch.js:24 | The page is at least 1: a NaN parse gives 1, a number below 1 is raised to 1, and any other number is kept. |
| Paging.ClampPageSize | src/controllers/products/nlpSearch.js:25-26 | A NaN parse gives the handler's default. Any number is clamped into `[1, 100]`; numbers already inside are kept. |
| Paging.PageParamRoundTrip | src/controllers/products/products.js:11 | A page number written in decimal reads back as itself, with or without a radix. |
| Paging.PageSizeParamRoundTrip | src/controllers/products/products.js:12-13 | A page size written in decimal reads back as itself up to 100, and as 100 above that. |
| Paging.TotalPages | src/controllers/products/nlpSearch.js:120 | `ceil(total / size)` is the fewest pages of `size` items that hold `total` items. |
| Paging.PageOf | src/controllers/products/nlpSearch.js:121-125 | The page holds the items from `(page - 1) * size` on, at most `size` of them. It is full when enough items remain and empty past the end. |
| Paging.PagesArePrefix | src/controllers/products/nlpSearch.js:121-125 | Pages 1 to k together are exactly the first `k * size` items, or all of them. |
| Paging.PagesCoverAll | src/controllers/products/nlpSearch.js:119-125 | Reading pages 1 to `totalPages` returns every item once, in order. |
| Paging.PagePastEndIsEmpty | src/controllers/products/nlpSearch.js:121-125 | A page past `totalPages` is empty, not an error. |
| JsText.TrimStart | src/utils/helper.js:45 | The result is the suffix left after dropping leading whitespace; it does not start with whitespace. |
| JsText.TrimEnd | src/utils/helper.js:45 | The result is the prefix left after dropping trailing whitespace; it does not end with whitespace. |
| JsText.TrimEmptyIffBlank | src/utils/helper.js:45-56 | `s.trim() === ""` exactly when `s` is all whitespace. |
| JsText.ParseInt | src/controllers/products/products.js:523-524 | `parseInt` is NaN exactly when no digit follows the whitespace, the sign and (without a radix) a `0x` prefix. |
| JsText.ParseIntNatToString | src/controllers/products/products.js:523-524 | `parseInt(String(n))` is `n`, with or without a radix. |
| JsText.ParseIntNegative | src/controllers/products/products.js:523-524 | `parseInt("-" + String(n))` is `-n`. |
| JsValues.Get | src/controllers/authController.js:35 | Reading a property of anything but an object yields `undefined`. |
| JsValues.Min | src/controllers/products/nlpSearch.js:73 | `Math.min` is the greatest lower bound of its arguments, and NaN when either argument is NaN. |
| JsValues.Max | src/controllers/products/nlpSearch.js:75 | `Math.max` is the least upper bound of its arguments, and NaN when either argument is NaN. |
| Helper.SegmentNumber | src/utils/helper.js:4 | A missing segment of the destructured split reads as NaN. |
| Helper.ParsePriceRange | src/utils/helper.js:1-11 | `null` exactly for a missing or empty parameter. A range exactly when the first two `-`-separated segments read as numbers `min <= max` (neither NaN), with those two as its ends. The thrown error exactly otherwise: a missing second segment, a NaN end, or `min > max`. |
| Helper.ExtraSegmentsIgnored | src/utils/helper.js:4 | Anything after a second `-` is ignored. |
| Helper.SingleSegmentRejected | src/utils/helper.js:4-8 | A non-empty parameter without `-` throws the format error. |
| Helper.PriceRangeRoundTrip | src/utils/helper.js:1-11 | A rendered `min-max` reads back as itself when `min <= max`, and throws otherwise. |
| Helper.NonEmptyStringIsTrimCheck | src/utils/helper.js:45-56 | The string checks accept exactly the strings that `trim` does not empty. |
| Helper.FirstMissing | src/utils/helper.js:39-43 | It returns nothing exactly when every required field is truthy; otherwise it returns the first falsy field, with every field before it truthy. |
| Helper.ValidateProduct | src/utils/helper.js:13-102 | Acceptance implies that every required field is present, the ids are positive integers, the condition is `new` or `used`, the year is in `[1900, currentYear]`, and the price is a positive number. |
| Helper.CheckTypes | src/utils/helper.js:45-84 | Passing the checks after the presence loop implies positive integer ids, a condition of `new` or `used`, a year in `[1900, currentYear]` and a positive price. |
| Helper.FirstFailure | src/utils/helper.js:39-84 | It returns nothing exactly when every rule holds; otherwise it returns the message of the first broken rule. |
| Helper.FirstFailureAt | src/utils/helper.js:39-84 | When rule k is the first broken, its message is reported. |
| Helper.FirstFailureAppend | src/utils/helper.js:39-84 | The presence checks run before the type checks: the first failure of the two lists together is the first of the front list, else of the back list. |
| Helper.FirstFailureRequired | src/utils/helper.js:39-43 | The presence rules report "<field> is required." for the first missing field. |
| Helper.CheckTypesStopsAtText | src/utils/helper.js:45-56 | When a string check is the first broken, the `if` chain returns its message. |
| Helper.CheckTypesStopsAtId | src/utils/helper.js:57-65 | When an id check is the first broken, the `if` chain returns its message. |
| Helper.CheckTypesStopsAtValue | src/utils/helper.js:69-84 | When the condition, year or price check is the first broken, the `if` chain returns its message. |
| Helper.CheckTypesAccepts | src/utils/helper.js:45-101 | When every type rule holds, the body is accepted. |
| Helper.FirstFailureTypes | src/utils/helper.js:45-101 | The `if` chain answers exactly the first broken rule of the type-rule list. |
| Helper.ValidateIsFirstFailure | src/utils/helper.js:13-102 | `validateProduct` reports exactly the message of the first rule the body breaks, in order: presence, strings, ids, condition, year, price. It accepts exactly when no rule is broken. |
| Helper.ValidIffWellFormed | src/utils/helper.js:13-102 | `{valid: true}` is returned exactly for bodies with every field present, typed and in range. |
| Helper.FirstMissingFieldReported | src/utils/helper.js:39-43 | The first falsy required field is the one named in "<field> is required.". |
| ProductQueries.Args | src/controllers/products/products.js:137-183 | Each placeholder number k picks value k of the `values` array. |
| ProductQueries.Resolve | src/controllers/products/products.js:137-183 | Each condition keeps its column and comparison, and gets the values its placeholders name. |
| ProductQueries.AddKeepsNumbering | src/controllers/products/products.js:141-172 | Numbering a new condition from `values.length + 1` and pushing its values keeps the placeholders exactly `$1 .. $n`. Earlier conditions keep their bindings; the new one binds its own values. |
| ProductQueries.AddIfKeepsNumbering | src/controllers/products/products.js:147-172 | The same for an optional filter; a filter not given changes nothing. |
| ProductQueries.AddIfOne | src/controllers/products/products.js:147-172 | An optional one-value filter appends exactly its own bound condition when given. |
| ProductQueries.AddIfRange | src/controllers/products/products.js:174-183 | `BETWEEN $n+1 AND $n+2` binds the range's min and max, in that order. |
| ProductQueries.AddIfTwice | src/controllers/products/products.js:413-423 | The search condition binds one pattern to both of its comparisons. |
| ProductQueries.AddParamBinds | src/controllers/products/products.js:159-172 | A request parameter that is given appends one condition on its column that binds the parameter's value under the next free number; an absent one appends nothing. |
| ProductQueries.AddRangeBinds | src/controllers/products/products.js:174-183 | A price range, when given, appends one `BETWEEN` condition whose two numbers bind the parsed minimum and maximum; numbering stays `$1 .. $n`. |
| ProductQueries.AddSearchBinds | src/controllers/products/products.js:413-423 | A search term, when given, appends the name-or-brand `ILIKE` condition, binding `%term%` once under the next free number. |
| ProductQueries.PagedIsWellPaged | src/controllers/products/products.js:203-205 | `LIMIT` and `OFFSET` take the two placeholders after the conditions' and bind the page size and `(page - 1) * pageSize`. The conditions' bindings are unchanged. |
| ProductQueries.RequestedPage | src/controllers/products/products.js:11 | No contract of its own; characterised by `RequestedPaging`. A decimal page `n` gives `n`, and a missing page gives 1. |
| ProductQueries.RequestedPageSize | src/controllers/products/products.js:12-13 | No contract of its own; characterised by `RequestedPaging`. A decimal size `k` gives `k` capped at 100, and a missing size gives the endpoint's default. |
| ProductQueries.GetAllProducts | src/controllers/products/products.js:5-28 | The listing has no conditions and is ordered by ascending id. The page and size are the requested ones, clamped, with defaults 1 and 10 (see `RequestedPaging`). `LIMIT $1 OFFSET $2` bind that size and the page's offset. |
| ProductQueries.RequestedPaging | src/controllers/products/products.js:11-13 | A decimal `page` n gives page n and a decimal `pageSize` k gives size k, capped at 100. Without them the page is 1 and the size is the endpoint's default. |
| ProductQueries.FilterProducts | src/controllers/products/products.js:102-205 | 400 exactly when the category or subcategory is missing. Given both, the range error comes exactly from a malformed price. The query is unordered, with the requested page and size clamped, defaults 1 and 12. |
| ProductQueries.FilterHeadBinds | src/controllers/products/products.js:140-144 | The two mandatory conditions are `$1` and `$2` and bind the category and the subcategory. |
| ProductQueries.FilterMiddleBinds | src/controllers/products/products.js:146-162 | The brand list, model list and condition filters continue the numbering and bind the comma-split lists and the condition, each only when given. |
| ProductQueries.FilterTailBinds | src/controllers/products/products.js:164-183 | The area (`ILIKE`), year and price filters continue the numbering and bind what the request gives. |
| ProductQueries.FilterConditions | src/controllers/products/products.js:137-183 | No contract of its own; characterised by `FilterConditionsBind`. These are the pushed WHERE conditions of `filterProducts`, in push order. |
| ProductQueries.FilterConditionsBind | src/controllers/products/products.js:137-183 | The pushed conditions are numbered exactly `$1 .. $n` and bind the intended filters: category, subcategory, then each given brand list, model list, condition, area, year and price range. |
| ProductQueries.FilterProductsBindsIntended | src/controllers/products/products.js:137-205 | Every query `filterProducts` issues is well numbered and paged, and binds exactly the intended filters. |
| ProductQueries.SortOf | src/controllers/products/products.js:431-435 | Only the exact strings `price-asc` and `price-desc` order the listing. |
| ProductQueries.FilterProductsWithCategory | src/controllers/products/products.js:342-459 | No parameter is required. The range error comes exactly from a malformed price. The listing is ordered by `sort`, with the requested page and size clamped, defaults 1 and 10. |
| ProductQueries.CategoryHeadBinds | src/controllers/products/products.js:367-389 | The brand, condition, area and supplier filters are numbered `$1 .. $n` and bind what the request gives. |
| ProductQueries.CategoryTailBinds | src/controllers/products/products.js:391-423 | The price, category, subcategory and search filters continue the numbering and bind what the request gives; the search binds `%search%`. |
| ProductQueries.CategoryConditions | src/controllers/products/products.js:367-423 | No contract of its own; characterised by `CategoryConditionsBind`. These are the pushed WHERE conditions of `filterProductsWithCategory`, in push order. |
| ProductQueries.CategoryConditionsBind | src/controllers/products/products.js:367-423 | All conditions of `filterProductsWithCategory` are numbered exactly `$1 .. $n` and bind the intended filters. |
| ProductQueries.FilterProductsWithCategoryBindsIntended | src/controllers/products/products.js:367-459 | Every query `filterProductsWithCategory` issues is well numbered and paged, and binds exactly the intended filters. |
| ProductQueries.UpdateProductById | src/controllers/products/products.js:522-586 | Each 400 is answered exactly when its check fails, in order: product id, supplier id, empty body. 403 only when the product is not the supplier's. An update sets every body key plus `updated_at` and has a two-condition WHERE. |
| ProductQueries.UpdateStatement | src/controllers/products/products.js:567-586 | No contract of its own; characterised by `UpdateStatementNumbered` and `UpdateStatementBinds`. It is the UPDATE built from the body's keys, `updated_at` and the two ids. |
| ProductQueries.UpdateStatementNumbered | src/controllers/products/products.js:568-586 | Numbering the SET clauses by key position and the rest by `values.length + 1` agrees: clause i uses `$(i+1)`, and exactly `$1 .. $(k+3)` are used. |
| ProductQueries.UpdateStatementBinds | src/controllers/products/products.js:568-586 | Each key is set to its own body value and `updated_at` to the current time; the WHERE binds the product id and the supplier id. |
| ProductQueries.UpdateBindsFields | src/controllers/products/products.js:522-586 | Whatever UPDATE the handler issues is well numbered and binds every body property, the time, and the parsed ids. |
| ProductQueries.Respond | src/controllers/products/products.js:195-220 | "No data found" exactly when the page came back empty. Otherwise the metadata echoes the page and the total, and `totalPages` is the fewest pages holding the total. |
| Facets.AddAreaNames | src/controllers/products/products.js:301-310 | A new sales area is appended at the end; a known one keeps its place. |
| Facets.AddAreaCount | src/controllers/products/products.js:303-309 | Adding to an area's count changes that count only. |
| Facets.YearsOfMembers | src/controllers/products/products.js:321-324 | The listed years are those of the entries. |
| Facets.AddYearKeys | src/controllers/products/products.js:295-300 | After an update the years are the old ones plus the row's. |
| Facets.AddYearAscending | src/controllers/products/products.js:295-300 | Integer keys stay in ascending order, whatever order they were added in. |
| Facets.AddYearCount | src/controllers/products/products.js:296-299 | Adding to a year's count changes that count only. |
| Facets.GetAllFilters | src/controllers/products/products.js:227-236 | 400 exactly when the category or subcategory is missing. |
| Facets.Step | src/controllers/products/products.js:281-311 | No contract of its own; characterised by `AddAreaCount`, `AddYearCount` and the `Aggregate` lemmas. One row pushes a truthy brand and model, adds to `new` or `used` only, and adds to its non-zero year and truthy area. |
| Facets.Aggregate | src/controllers/products/products.js:281-311 | No contract of its own; characterised by `BrandsAndModelsPerRow`, `ConditionTotals`, `YearTotals`, `YearsAscending`, `YearsListed`, `AreaTotals` and `AreasInFirstAppearanceOrder`. It is the `filters` object after every row, in row order. |
| Facets.BrandsAndModelsPerRow | src/controllers/products/products.js:282-287 | One brand (model) entry per row with a non-empty brand (model), in row order, with that row's count. |
| Facets.ConditionTotals | src/controllers/products/products.js:288-294 | `new` and `used` each total the counts of the rows with exactly that condition; other conditions are ignored. |
| Facets.YearTotals | src/controllers/products/products.js:295-300 | Each year's count is the total of its rows' counts. |
| Facets.YearsAscending | src/controllers/products/products.js:321-324 | Years are listed once each, ascending. |
| Facets.YearsListed | src/controllers/products/products.js:295-324 | Exactly the non-zero years of the rows are listed. |
| Facets.AreasInFirstAppearanceOrder | src/controllers/products/products.js:301-318 | Sales areas are listed once each, in order of first appearance. |
| Facets.AreaTotals | src/controllers/products/products.js:301-310 | Each area's count is the total of its rows' counts. |
| Facets.FirstAppearancesAreTheAreas | src/controllers/products/products.js:301-318 | Exactly the non-empty sales areas of the rows are listed. |
| Categories.FetchAllCategories | src/controllers/products/categories.js:3-43 | No more categories than rows; at least one for any row. |
| Categories.AddRow | src/controllers/products/categories.js:17-33 | No contract of its own; characterised by `AddRowLength`, `AddRowAscending`, `AddRowFind` and `AddRowTotal`. On a category's first row it creates the entry, then appends a truthy subcategory. |
| Categories.Group | src/controllers/products/categories.js:17-37 | No contract of its own; characterised by `GroupEntry`, `GroupAscending` and `GroupLength`. It is `Object.values(categoriesMap)` after every row. |
| Categories.AddRowLength | src/controllers/products/categories.js:19-25 | A row adds at most one entry. |
| Categories.GroupLength | src/controllers/products/categories.js:17-37 | The grouping has no more entries than rows, and some entry for a non-empty input. |
| Categories.FindAscending | src/controllers/products/categories.js:37 | In an id-ordered list, lookup finds exactly the listed ids, and finds their own entries. |
| Categories.AddRowAbove | src/controllers/products/categories.js:19-25 | A lower bound on the ids survives adding a row above it. |
| Categories.AddRowAscending | src/controllers/products/categories.js:19-37 | Adding a row keeps the entries in ascending id order. |
| Categories.AddRowFind | src/controllers/products/categories.js:17-34 | A row creates its category's entry, or extends it with its subcategory; every other entry is unchanged. |
| Categories.AddRowTotal | src/controllers/products/categories.js:28-33 | A row with a subcategory adds one to the total; any other row adds none. |
| Categories.GroupAscending | src/controllers/products/categories.js:37 | Categories come out in ascending id order, each once. |
| Categories.GroupEntry | src/controllers/products/categories.js:17-37 | A category is listed exactly when some row has its id. Its entry has the name of its first row and the subcategories of its rows, in row order. |
| Categories.ListedEntriesAreFound | src/controllers/products/categories.js:37 | Each listed entry is the one found under its id. |
| Categories.SubcategoriesCounted | src/controllers/products/categories.js:28-33 | The entries list as many subcategories as there are rows with one. |
| Categories.FetchSingleCategory | src/controllers/products/categories.js:45-84 | 404 exactly for no rows. The id and name come from the first row, with one subcategory per row that carries one. |
| Categories.SingleAgreesWithAll | src/controllers/products/categories.js:60-78 | On one category's rows, `fetchSingleCategory` builds exactly the entry `fetchAllCategories` lists for it. |
| Auth.RoleOf | src/controllers/authController.js:24 | A role is recognised exactly when it is one of the strings `admin`, `supplier`, `user`. |
| Auth.SignUp | src/controllers/authController.js:6-92 | The 400s are checked in source order, each exactly when the earlier checks pass and its own fails: credentials, role, supplier fields (only for a supplier, including the default role), then the email. After them, a password that is not a string is refused by the hash and ends in the 500. A registered account has the chosen role. A supplier stores `{phone, email}` from `contact_info.phone` and the request email; other roles store nothing. |
| Auth.ChosenRole | src/controllers/authController.js:24-28 | The given role when it is one of the three, `supplier` when no role is given, none for an unknown role. |
| Auth.RegisteredIffChecksPass | src/controllers/authController.js:18-92 | An account is created exactly when credentials, role, supplier fields (for a supplier), a fresh email and a string password all pass. |
| Auth.Login | src/controllers/authController.js:95-102 | 400 exactly when the email or password is falsy; otherwise both are passed on to the credential check. |
| Auth.CheckRole | src/middleware/checkRole.js:1-9 | The request proceeds exactly for `supplier` and `admin`; anyone else gets the 403 message. |
| Auth.OmittedRoleRegistersSupplier | src/controllers/authController.js:28-71 | Without a role and with a string password, a sign-up registers a supplier whose contact holds the given phone and the request email. |
| Auth.NonSuppliersSkipSupplierFields | src/controllers/authController.js:31-71 | With a string password, admins and users register without any supplier fields, and store no contact. |
| Auth.RegisteredRolesAtTheGate | src/middleware/checkRole.js:3-4 | A registered account passes the role gate exactly when it is not a `user`. |
| Auth.RoleAcceptedIffKnown | src/controllers/authController.js:24-26 | Once credentials are present, a given role is refused exactly when it is not one of the three. |

## Left out

- The database: SQL text, joins, `GROUP BY` and `COUNT` are not modelled, and `ORDER BY` only as the listing's `Sort`. Query results are inputs: rows, the page's row count, the total count, whether the email is taken, and whether the product belongs to the supplier. The grouping `getAllFilters` relies on is taken as given.
- The `natural` tokenizer, `toLowerCase` and the global `Number` are left uninterpreted (`Analyzer`, `toNumber`), because they are library code. The price-phrase regular expression is replaced by its list of matches, since regular-expression matching is not modelled.
- The clock: `new Date()` is the constant `Now`, and `currentYear` is a parameter.
- Password hashing, JWT signing and verification, and the credential comparison in `login` are library calls, so they are not modelled. Only the hash's refusal of a password that is not a string is kept, as `signUp`'s 500. `Auth.Login` stops at handing over the credentials.
- Express wiring, `errorHandler`, `console` logging and HTTP status codes are not modelled. Each answer is an outcome constructor. The 500 answers from thrown database errors are left out; a thrown price-range error is the constructor `BadPriceRange`.
- `getProductById`, `addProducts`, `deleteProductById`, the Python/Docker test helpers and the `processQuery` proxy: fixed SQL or network calls with no logic of their own.
- Query parameters given twice (arrays) are not modelled: every parameter is one string.
- `parseInt` of huge digit strings, and floating-point rounding: integers are unbounded and doubles are reduced to NaN / ±Infinity / finite reals.
- The `$`-stripping branch in the search handler: the regular expression only ever captures digits, so the branch cannot run.
- Object key order for sales-area names that look like integers, and for names of `Object.prototype` properties such as `toString`: sales-area keys are modelled in insertion order, as for ordinary strings. Negative or fractional years are not modelled.
- pg returns NUMERIC prices and COUNT results as strings. Prices are modelled as numbers (a zero price is falsy). Brand and model counts and `getAllProducts`' total are modelled as numbers.
- The SQL text spliced into `getAllFilters` from `category_id`/`subcategory_id` and into the UPDATE from body keys: keys are modelled as column names, and injection is not modelled.
- Facets.GetAllFilters: its own contract covers the 400 only. The facet contents are stated by the `Facets` lemmas over `Aggregate`.
- Categories.FetchAllCategories: its own contract bounds the count only. Contents and order are stated by `GroupEntry` and `GroupAscending`.
- Concurrency between a retrain and a search is not modelled: each call sees one snapshot.
