# Business directory: view pipeline, paging and identifier allocation

A small business directory keeps records in a DynamoDB table `Businesses`. Each
record has an identifier `busId`, a `name`, a creation time `createdAt` and a
`status`.

The React client fetches all records into a cache (`businessOriginal`) and shows
a derived list (`business`). That list comes from the cache by a case-insensitive
search on one column, then a status filter, then a date-range filter on
`createdAt`, then a sort on one column in one direction. The list is then shown a
page at a time.

The Express API allocates a sequential identifier `Business_NNN` for each new
record. It raises a counter row `idCounter`/`BusinessId` by one and formats the
new value, zero-padded to three digits.

The model has these modules:

- `Text`: the JavaScript string operations the client relies on, namely
  `toLowerCase`, `trim`, `includes` and the relational `<`.
- `Records`: the record and its four columns.
- `Filtering`: `Array.prototype.filter` as `Keep`.
- `Sorting`: the comparator and a stable sort.
- `Pipeline`: the view derivation as functions.
- `Paging`: page count and page window.
- `App`: the component's state as a class whose handlers update its fields. The
  derivation effect is a method proved equal to `Pipeline.View`.
- `Ids`: identifier formatting and a reader that inverts it.
- `Routes`: the counter row as a class, and the record the POST handler builds.

In three places the code behaves differently from what the controls suggest.
The model follows the code:

- **Clear filter.** The "clear filter" button looks as if it should show the
  cache as fetched, and `handleClearFilter` does set the list to the unsorted
  cache. Resetting the filter changes a dependency of the derivation effect, so the effect runs again.
  What remains on screen is the searched and sorted cache, not the plain cache
  (`App.ClearFiltersAndRederive`, `Pipeline.ClearedView`).
- **Sort direction.** `handleSort` negates the direction on every click, whichever
  column was sorted before. A sort button therefore does not always sort its own
  column ascending on the first click (`App.Toggled`, `App.ToggleTwiceRestoresOrder`).
- **Page cursor.** The pager suggests the current page is always one of its
  buttons. Changing the page size or narrowing the list does not clamp the current
  page, so the window can be empty (`App.AppState.CurrentWindow`).

## Model

| member | source | states |
|---|---|---|
| Text.LowerChar | client/src/App.tsx:104 | the lowercased character is never an upper-case letter, is unchanged when not an upper-case letter, and is 32 higher otherwise |
| Text.Lower | client/src/App.tsx:104 | `toLowerCase` keeps the length and lowercases each character in place |
| Text.LowerIdempotent | client/src/App.tsx:104 | lowercasing twice is lowercasing once |
| Text.TrimStart | client/src/App.tsx:102 | the result is a suffix, what was dropped is all whitespace, and the result does not start with whitespace |
| Text.TrimEnd | client/src/App.tsx:102 | the result is a prefix, what was dropped is all whitespace, and the result does not end with whitespace |
| Text.TrimEmptyIffBlank | client/src/App.tsx:102 | `query.trim() !== ''` fails exactly when the query is all whitespace (or empty) |
| Text.IncludesIff | client/src/App.tsx:104 | `includes` holds exactly when the needle occurs at some position of the haystack |
| Text.LessIrreflexive | client/src/App.tsx:133-134 | no string is less than itself |
| Text.LessAsymmetric | client/src/App.tsx:133-134 | `a < b` and `b < a` never both hold |
| Text.LessTransitive | client/src/App.tsx:133-134 | string `<` is transitive |
| Text.LessTotal | client/src/App.tsx:133-134 | of two different strings one is less than the other |
| Filtering.Keep | client/src/App.tsx:103-105 | `filter` keeps a subsequence of the input whose every element passes, and each passing element exactly as often as the input has it |
| Filtering.SubsequenceTransitive | client/src/App.tsx:99-127 | a filter of a filter is a subsequence of the original |
| Filtering.KeepAllPass | client/src/App.tsx:103-105 | filtering a list whose every element passes returns it unchanged |
| Filtering.KeepMembership | client/src/App.tsx:103-105 | an element is in the filtered list exactly when it is in the input and passes |
| Sorting.CompareAntisymmetric | client/src/App.tsx:131-136 | swapping the comparator's operands negates its result |
| Sorting.InOrderMeaning | client/src/App.tsx:131-136 | with order 1 a record may precede another exactly when its key is not greater; with order -1, when it is not smaller |
| Sorting.InOrderTransitive | client/src/App.tsx:131-136 | the comparator's "may precede" relation is transitive |
| Sorting.Insert | client/src/App.tsx:131-136 | inserting adds exactly one element and keeps a sorted list sorted |
| Sorting.SortBy | client/src/App.tsx:131-136 | the sorted list is a permutation of the input that the comparator accepts between every pair of positions |
| Sorting.SortByOrdersKeys | client/src/App.tsx:131-136 | the sorted list is a permutation whose keys are non-decreasing for order 1 and non-increasing for order -1 |
| Sorting.SortBySorted | client/src/App.tsx:131-136 | sorting a list the comparator already accepts returns it unchanged |
| Sorting.Reverse | client/src/App.tsx:94 | the reversed list has element `len-1-i` at position `i` and the same elements |
| Sorting.CompareNegated | client/src/App.tsx:94 | negating the order gives the comparator with its operands swapped |
| Sorting.BothWaysEqualKeys | client/src/App.tsx:131-136 | two records that may each precede the other have equal keys |
| Sorting.SortedPermutationsHead | client/src/App.tsx:131-136 | two sorted permutations of one another start with the same record when keys identify records |
| Sorting.SortedPermutationUnique | client/src/App.tsx:131-136 | when keys identify records, there is only one sorted permutation, so the sort's result does not depend on the algorithm |
| Sorting.ToggleReverses | client/src/App.tsx:91-96 | when keys identify records, sorting in direction -1 gives the reverse of sorting in direction 1 |
| Pipeline.SearchInactiveIsIdentity | client/src/App.tsx:102 | a closed search box or a blank query leaves the list as it is |
| Pipeline.SearchKeepsMatches | client/src/App.tsx:102-106 | an open search with a non-blank query keeps, in order, exactly the records whose column contains the query ignoring case, each as often as before |
| Pipeline.MatchesQueryIff | client/src/App.tsx:104 | a record matches exactly when the lowercased query occurs at some position of its lowercased column |
| Pipeline.SearchIgnoresQueryCase | client/src/App.tsx:104 | the query's case does not matter: a lowercased query selects the same list |
| Pipeline.LowerKeepsBlank | client/src/App.tsx:102-104 | lowercasing neither creates nor removes a blank query |
| Filtering.KeepSamePredicate | client/src/App.tsx:103-105 | filters with predicates that agree everywhere give the same list |
| Pipeline.StatusSelects | client/src/App.tsx:109-114 | with the filter applied and the choice `active`/`inactive`, exactly the records with that status are kept in order; any other choice, or no applied filter, keeps the list |
| Filtering.SubsequenceReflexive | client/src/App.tsx:99 | every list, such as the copy of the cache, is a subsequence of itself |
| Pipeline.DateSelects | client/src/App.tsx:117-127 | with both dates filled in, exactly the records whose creation time is a valid time between the start of the first day and the end of the last day, both included, are kept in order |
| Pipeline.DateInactiveIsIdentity | client/src/App.tsx:109-117 | an unapplied filter or an empty date input skips the date step |
| Pipeline.FilteredIsSubsequence | client/src/App.tsx:99-128 | before the sort, the list is the cache with some records dropped and the order kept |
| Pipeline.ViewCounts | client/src/App.tsx:98-139 | the displayed list holds each qualifying cached record exactly as often as the cache does, and nothing else |
| Pipeline.ViewMembership | client/src/App.tsx:98-139 | a record is displayed exactly when it is cached and passes search, status and date steps |
| Pipeline.ViewSubsetAndSorted | client/src/App.tsx:98-139 | the displayed list is a sub-multiset of the cache, ordered as the sort control says |
| Pipeline.ViewIdempotent | client/src/App.tsx:98-139 | deriving the view again from the displayed list gives the displayed list |
| Pipeline.ClearedView | client/src/App.tsx:147-154 | the view under the cleared filter is the searched and sorted cache |
| Pipeline.ClearedFilter | client/src/App.tsx:147-152 | the cleared filter is not applied and has no active date range |
| Paging.Pages | client/src/App.tsx:160 | `Math.ceil(n / perPage)` is the fewest pages of `perPage` items that hold `n` items |
| Paging.Slice | client/src/App.tsx:161 | `slice` takes the elements from `start` on, stopping at `end` or at the end of the list |
| Paging.WindowIsSlice | client/src/App.tsx:161 | a page that starts inside the list is the list's positions `(page-1)*perPage` up to `page*perPage` or the end; every page has at most `perPage` records |
| Paging.WindowBeyondLastIsEmpty | client/src/App.tsx:160-161 | a page number above the page count shows nothing |
| Paging.PagesUpToIsPrefix | client/src/App.tsx:160-161 | pages 1 to `k` laid end to end are the first `k*perPage` records |
| Paging.AllPagesGiveList | client/src/App.tsx:160-161 | pages 1 to the page count laid end to end are the whole list, without gaps or repeats |
| Paging.TwelveRecordsFivePerPage | client/src/App.tsx:160-161 | twelve records at five per page make three pages, the third with records 11 and 12 and the fourth empty |
| App.Toggled | client/src/App.tsx:91-96 | the new sort is on the clicked column with the direction negated, so a direction of 1 or -1 always flips |
| App.ToggleTwiceRestoresOrder | client/src/App.tsx:91-96 | two clicks, on any columns, restore the direction; two clicks on one column leave the sort on that column with its old direction, so two clicks on the column already sorted restore the sort |
| App.AppState.constructor | client/src/App.tsx:36-50 | the initial state: empty lists, sort by `createdAt` ascending, search on `name` closed, filter cleared, page 1 of five per page |
| App.AppState.CurrentWindow | client/src/App.tsx:161 | the current page is the slice of the displayed list at its positions, at most `perPage` long, and empty past the page count |
| App.AppState.ReceiveRecords | client/src/App.tsx:54-64 | a successful fetch sets both the displayed list and the cache to the table's records |
| App.AppState.RunViewEffect | client/src/App.tsx:98-139 | the derivation effect leaves the displayed list equal to `View` of the cache and the controls |
| App.AppState.HandleSort | client/src/App.tsx:91-96 | the sort becomes `Toggled(old sort, column)` and stays a valid direction |
| App.AppState.SetSearch | client/src/App.tsx:211-219 | the search control becomes what the search box or its buttons set |
| App.AppState.EditFilter | client/src/App.tsx:418-441 | the dialog edits the dates and the status choice and leaves `isFiltering` as it was |
| App.AppState.HandleClearFilter | client/src/App.tsx:147-154 | the filter returns to its cleared value and the displayed list to the cache |
| App.AppState.HandleApplyFilter | client/src/App.tsx:155-158 | the filter is marked applied, its dates and status choice unchanged |
| App.AppState.SetPerPage | client/src/App.tsx:355-365 | the page size becomes the chosen one of 5, 10, 15 or 20; the current page is not reset |
| App.AppState.HandlePageChange | client/src/App.tsx:163-165 | the current page becomes the clicked page |
| App.AppState.NextPage | client/src/App.tsx:166-170 | the page moves on by one exactly when it is before the page count and never moves past it |
| App.AppState.PrevPage | client/src/App.tsx:171-175 | the page moves back by one exactly when it is above 1, so it stays at least 1 |
| App.ClearFiltersAndRederive | client/src/App.tsx:147-154 | clearing the filter and the effect it triggers leave the searched and sorted cache on screen, not the plain cache |
| Ids.DigitChar | api/routes.js:22 | the digit character for `d` is a decimal digit whose value is `d` |
| Ids.Digits | api/routes.js:22 | the decimal form of a natural number is non-empty and all digits, starts with `0` only for zero and has at least three digits from 100 on |
| Ids.NumberToString | api/routes.js:22 | `toString` is non-empty and starts with `0` only for zero |
| Ids.PadStart | api/routes.js:22 | `padStart(width, '0')` has length `max(width, len)`, ends with the input and has only zeros in front |
| Ids.FormatId | api/routes.js:22 | the identifier starts with `Business_` and its suffix is at least three characters long |
| Ids.DigitsRoundTrip | api/routes.js:22 | reading the decimal form of `n` gives `n` |
| Ids.ParseIgnoresLeadingZeros | api/routes.js:22 | zeros in front of a non-empty suffix do not change what it reads as |
| Ids.ParseNegative | api/routes.js:22 | a minus sign and digits read as the negated value |
| Ids.ParsePositive | api/routes.js:22 | digits without a leading zero read as their value |
| Ids.ParseNumberToString | api/routes.js:22 | the `toString` form of a non-zero integer reads back to it |
| Ids.FormatIdSuffix | api/routes.js:22 | the identifier's part after the prefix is the padded `toString` form |
| Ids.ParsePadded | api/routes.js:22 | the padded `toString` form of every integer reads back to it |
| Ids.FormatIdRoundTrip | api/routes.js:22 | the counter value can be read back from its identifier, for every integer |
| Ids.FormatIdInjective | api/routes.js:22 | distinct counter values give distinct identifiers |
| Ids.FormatIdShape | api/routes.js:22 | for a non-negative counter the suffix is all digits with the counter's value; from 100 on, it is the plain decimal form, not cut to three |
| Ids.LeadingZerosValue | api/routes.js:22 | leading zeros keep a digit string all digits and do not change its value |
| Ids.FormatIdSeven | api/routes.js:22 | counter 7 gives `Business_007` |
| Routes.FreshValueFreshId | api/routes.js:10-27 | a value not among earlier ones formats to an identifier different from all of theirs |
| Routes.IdCounter.constructor | api/routes.js:12-13 | the counter row starts at the given value with nothing handed out |
| Routes.IdCounter.GetId | api/routes.js:10-27 | on a successful update the counter is one higher and the identifier formats the new value, which was never handed out, so the identifier differs from all earlier ones; on a failed update nothing changes and no identifier results |
| Routes.CreateBusiness | api/routes.js:43-55 | the item exists exactly when an identifier was allocated; it then carries the new identifier, the request's name and status and the creation time, and its identifier differs from all earlier ones |

## Left out

- The JSX rendering, the add-record and filter modals, and their open/close flags are not modelled.
- The HTTP calls (`axios`) and the Express routing are not modelled. A fetch is modelled only by its result (`ReceiveRecords`). Add and delete act on the client only through the fetch that follows them.
- Not modelled in the API: the DynamoDB `scan` and `delete`, the 200/500 status mapping and `console` logging. The `put` is modelled only by the item it stores (`CreateBusiness`).
- `api/index.js` (the server set-up) is not part of this model.
- The store is modelled without concurrency. The counter update's atomicity and two requests racing are not modelled. `GetId` takes the update's success as a parameter, `updated`.
- Routes.IdCounter.GetId: an update that is applied but whose response is lost is not modelled; either the counter and the identifier both change, or neither does.
- Routes.CreateBusiness: a `put` that fails after the identifier was allocated is not modelled. In the code the counter has then gone up and no record exists; the model returns the item whenever allocation succeeded.
- Routes.CreateBusiness: a missing `name` or `status` in the request body (JavaScript `undefined`) is not modelled; both are strings. The clock is the parameter `now`.
- Pipeline.InDateRange: date parsing and time zones are not modelled. `new Date(...).getTime()` and the `setHours` bounds are the parameter `DateModel`, where `None` stands for an invalid date.
- Text.Lower: lowercases ASCII letters only. JavaScript's full Unicode case mapping is not modelled.
- Text.Less: compares whole characters, while JavaScript compares UTF-16 code units. The two differ only for characters outside the Basic Multilingual Plane.
- Sorting.SortBy: the engine's sort algorithm is not modelled; a stable insertion sort stands for it. Sorting.SortedPermutationUnique shows that the result is the same for any algorithm when keys identify records.
- Ids.NumberToString: integers are unbounded. JavaScript's exponent form of `toString` for counters of 10^21 and above, and the loss of precision past 2^53, are not modelled.
- App.AppState.HandlePageChange: page numbers below 1 are not modelled. The page buttons only send 1 up to the page count.
- The count of pages shown in the button row (`Array.from({ length: pages })`) and when the row appears are rendering, and are not modelled.
