# Up Bank spending explorer, modelled in Dafny

The explorer is a single page that takes a personal access token for the Up
banking API. It loads the user's accounts, categories and transactions, and
shows where money was spent within a quick-filter window: today, this or last
week, this or last month, this or last year, or all time. From the
transactions in the window it keeps the debits that carry a category. It then
draws:

- a bar chart of spend per day (per month for the year-long and all-time
  windows);
- a pie chart of spend per category, which can be narrowed to one clicked
  category;
- the total spend;
- the list of transactions, oldest first.

The transactions come from a paginated listing that the transactions hook
walks page by page, 100 at a time.

This project models that core and proves what it computes:

- `calendar.dfy` (`Calendar`): the proleptic Gregorian calendar as day numbers
  and weekdays, with the date library's period operations. Weeks start on
  Sunday. Subtracting a month clamps the day. Subtracting a year is twelve
  months.
- `time_window.dfy` (`TimeWindow`): the eight quick filters, the window each
  one resolves to, and whether spend is bucketed by day or by month.
- `up_api.dfy` (`UpApi`): the API records the explorer reads. Amounts are in
  integer cents. A timestamp is a local day plus milliseconds into it.
- `grouping.dfy` (`Grouping`): the `reduce` into an insertion-ordered object
  that both spend summaries use.
- `sorting.dfy` (`Sorting`): `filter`, and the stable comparator sort of
  `Array.prototype.sort`.
- `spending.dfy` (`Spending`): the category and account lookups, the
  inclusion filter, both summaries, both chart data sets, the total, and the
  narrowing to a selected category.
- `explorer_state.dfy` (`ExplorerState`): the component's two state cells, its
  click handlers, and one render.
- `transactions.dfy` (`TransactionsHook`): the listing URL, its search
  parameters, the page keys, and the rule that requests one more page.

Money is kept in cents. The explorer divides by 100 before adding up, which
only rescales every figure. The bar chart's `.sort()` is called without a
comparator, so it compares the string every datum turns into,
`"[object Object]"`. It therefore leaves the bars in the order their buckets
were first seen in the loaded pages, which is not sorted by date.

## Model

| member | source | states |
|---|---|---|
| `Spending.NamesById` | components/Explorer/Explorer.tsx:29-37 | a category id has a name exactly when some category carries that id |
| `Spending.NamesByIdLastWins` | components/Explorer/Explorer.tsx:30-36 | when ids repeat, the name stored is the one from the last category with that id |
| `Spending.CategoryNames` | components/Explorer/Explorer.tsx:29-37 | an id has a name exactly when a category listing was fetched and some category in it carries that id; without a listing the lookup is empty |
| `Spending.FirstTransactional` | components/Explorer/Explorer.tsx:40-43 | no account is found exactly when none is transactional; otherwise the result is the first transactional account |
| `Spending.AllTransactionsMembers` | components/Explorer/Explorer.tsx:96-108 | a transaction is counted exactly when it is a debit, has a category, and is on one of the loaded pages |
| `Spending.AllTransactionsByPage` | components/Explorer/Explorer.tsx:97-102 | loading more pages appends their counted transactions after those already counted, in page order |
| `Spending.ExcludedIgnored` | components/Explorer/Explorer.tsx:103-107 | removing a credit or an uncategorised transaction from any page changes nothing downstream |
| `Spending.SpendByDayOrMonthBuckets` | components/Explorer/Explorer.tsx:110-127 | each bucket appears once, buckets are in order of first appearance, and a bucket holds the summed spend of exactly the transactions in it |
| `Spending.BucketGranularity` | components/Explorer/Explorer.tsx:115-118 | transactions are bucketed by month exactly for this year, last year and all time; otherwise by day |
| `Spending.SpendByDayOrMonthPositive` | components/Explorer/Explorer.tsx:121-123 | over debits, every bucket's spend is positive |
| `Spending.CategoryChecksAreInclusion` | components/Explorer/Explorer.tsx:140-153 | the reduce's two checks pass over exactly the transactions the inclusion filter drops |
| `Spending.SpendByCategoryBuckets` | components/Explorer/Explorer.tsx:138-156 | each category appears once, in order of its first transaction, holds the spend of exactly that category's counted transactions, and is positive |
| `Spending.TotalsAgree` | components/Explorer/Explorer.tsx:172-177 | the total of the category summary equals the spend of all counted transactions, and so does the total of the time summary |
| `Spending.BarChartKeepsBucketOrder` | components/Explorer/Explorer.tsx:129-136 | the comparator-less sort moves nothing: the bars are the buckets in first-seen order |
| `Spending.PieChartOrder` | components/Explorer/Explorer.tsx:162-170 | slices are in ascending amount, are a permutation of the category slices, and slices of equal amount keep their order |
| `Spending.NoSelectionShowsAll` | components/Explorer/Explorer.tsx:353-357 | with no selection, or an empty one, the pie keeps every slice and the listing holds every transaction |
| `Spending.SelectedPie` | components/Explorer/Explorer.tsx:353-357 | with category c selected, the pie is that one slice carrying c's whole spend, or empty when c has no spend in the window |
| `Spending.SelectionIsCategory` | components/Explorer/Explorer.tsx:373-378 | a non-empty selection keeps exactly the transactions of that category |
| `Spending.SelectedListing` | components/Explorer/Explorer.tsx:372-389 | the selected listing is in `createdAt` order, holds exactly the category's transactions, and keeps equal timestamps in loaded order |
| `Spending.SelectedCaption` | components/Explorer/Explorer.tsx:330-340 | as written: no caption without a truthy selection; the selected category's summary amount when it has an entry; a rendering error (formatting `undefined`, :179-182) when it has none |
| `Spending.SelectedCaptionFixed` | components/Explorer/Explorer.tsx:330-340 | corrected: no caption exactly without a truthy selection, and never a rendering error |
| `Spending.SelectedListingTotal` | components/Explorer/Explorer.tsx:339 | with a category selected, the corrected caption is exactly the total spend of the selected listing |
| `Spending.SelectedCategoryHasEntry` | components/Explorer/Explorer.tsx:339 | the category summary has an entry for the selected category exactly when its listing is non-empty, so the caption as written throws exactly when the listing is empty |
| `Spending.CaptionThrowsWithoutSpend` | components/Explorer/Explorer.tsx:339 | as written, a selected category with no counted transaction in the window makes rendering throw |
| `ExplorerState.StaleSelectionThrows` | components/Explorer/Explorer.tsx:300-339 | clicking a slice and then a quick filter whose window holds no transactions leaves the selection in place; once that window and the category listing have loaded, the spending section is drawn and its caption throws |
| `Spending.ListingChronological` | components/Explorer/Explorer.tsx:379-389 | for valid timestamps, each listed transaction is no later than the next one |
| `Spending.ExampleSpend` | components/Explorer/Explorer.tsx:96-177 | of two category-A debits, a credit and an uncategorised debit, only the A debits count: 1500 cents, in one March 2024 bucket |
| `Grouping.AddKeys` | components/Explorer/Explorer.tsx:119-124 | one spread-and-overwrite step keeps the existing keys in place, appends a key not yet present, and keeps keys distinct |
| `Grouping.AddLookup` | components/Explorer/Explorer.tsx:119-124 | one step adds the value to its own key's entry and leaves every other key's entry as it was |
| `Grouping.AddTotal` | components/Explorer/Explorer.tsx:119-124 | one step adds exactly its value to the sum of all entries |
| `Grouping.GroupSumKeys` | components/Explorer/Explorer.tsx:110-127 | the grouped keys are distinct and listed in order of first occurrence |
| `Grouping.GroupSumLookup` | components/Explorer/Explorer.tsx:138-156 | every key holds the sum of the values given for it |
| `Grouping.GroupSumTotal` | components/Explorer/Explorer.tsx:173-176 | grouping neither loses nor invents any amount |
| `Sorting.SortByCorrect` | components/Explorer/Explorer.tsx:169 | the comparator sort gives a sorted permutation that keeps equal keys in input order and keeps every sum |
| `Sorting.SortByFilter` | components/Explorer/Explorer.tsx:353-357 | filtering a stably sorted list gives the same result as stably sorting the filtered list |
| `Sorting.SortByConstantKey` | components/Explorer/Explorer.tsx:135 | a stable sort under which all elements compare equal leaves the list unchanged |
| `UpApi.InstantKeyOrder` | components/Explorer/Explorer.tsx:380-388 | comparing the timestamp keys is comparing the timestamps chronologically, and equal keys mean equal timestamps |
| `TimeWindow.ResolveWindow` | components/Explorer/Explorer.tsx:45-82 | today and all-time cover today; every week window is one Sunday-to-Saturday week; this week contains today; last week ends the day before this week starts; month and year windows cover exactly the days of the current or previous month or year; since never comes after until |
| `TimeWindow.FetchBounds` | components/Explorer/Explorer.tsx:90-93 | both bounds are sent, except for all-time, which sends neither |
| `TimeWindow.MonthBucketsExactly` | components/Explorer/Explorer.tsx:116 | the filter name contains "year", or the filter is all-time, exactly for all-time, this year and last year |
| `TimeWindow.PreviousMonth` | components/Explorer/Explorer.tsx:68-69 | the previous month is one month earlier in the year-times-twelve count |
| `Calendar.SubMonth` | components/Explorer/Explorer.tsx:68-69 | subtracting a month gives the previous month, crossing into the previous year from January, with the day clamped to that month's length |
| `Calendar.SubYear` | components/Explorer/Explorer.tsx:78-79 | subtracting a year keeps the month and day, except that 29 February becomes 28 February |
| `Calendar.SubMonthFromMarch31` | components/Explorer/Explorer.tsx:68-69 | a month before 31 March is the last day of February, the 29th in leap years |
| `Calendar.WeekOf` | components/Explorer/Explorer.tsx:53-54 | a date's week starts on a Sunday, ends on the Saturday six days later, and contains the date |
| `Calendar.SubWeekIsPreviousWeek` | components/Explorer/Explorer.tsx:58-59 | a week earlier falls on the same weekday, and its week starts seven days earlier |
| `Calendar.SameWeekIff` | components/Explorer/Explorer.tsx:53-54 | a date is in the seven days that start on a given Sunday exactly when its own week starts on that Sunday |
| `Calendar.DateLeIffDayNumber` | components/Explorer/Explorer.tsx:46-49 | calendar order of valid dates is the order of their day numbers |
| `ExplorerState.Explorer.constructor` | components/Explorer/Explorer.tsx:45 | the page opens on today with no category selected |
| `ExplorerState.Explorer.SetTimeFilter` | components/Explorer/Explorer.tsx:235-298 | a quick-filter button sets the filter and keeps the selection |
| `ExplorerState.Explorer.SelectSlice` | components/Explorer/Explorer.tsx:360-362 | clicking a slice selects its category, so the pie keeps only that category's slices; an empty id narrows nothing |
| `ExplorerState.Explorer.ClearCategory` | components/Explorer/Explorer.tsx:342-347 | clearing the selection restores every slice and keeps the filter |
| `ExplorerState.Explorer.Render` | components/Explorer/Explorer.tsx:45-389 | one render gives a valid window, requests the first transactional account with the window's bounds, and derives the bars, the narrowed pie, the listing and the total, where the total equals the spend of every counted transaction; the spending section is drawn exactly when the transactions are not loading and the category listing has arrived (:300-305); there the caption is the one the component renders: with a category selected, a rendering error when the listing is empty and otherwise the total of the listing; a hidden section carries no caption |
| `TransactionsHook.BaseUrlScope` | hooks/useTransactions.ts:105-107 | the URL is scoped to an account exactly when the account id is truthy, and the id can be read back from it |
| `TransactionsHook.InitialParams` | hooks/useTransactions.ts:108-111 | each filter bound is present, once, exactly when it is truthy; no other parameter, the page size included, is set yet |
| `TransactionsHook.PageKeyFor` | hooks/useTransactions.ts:114-126 | there is no key once a loaded page has no next link; the first page gets the listing URL with one more page size; later pages get the previous page's next link verbatim |
| `TransactionsHook.FirstPageKey` | hooks/useTransactions.ts:121-123 | the first page's key asks for exactly one page size of 100, keeps the filter bounds and carries no other parameter |
| `TransactionsHook.Hook.constructor` | hooks/useTransactions.ts:105-111 | the hook starts from the listing URL and the initial parameters |
| `TransactionsHook.Hook.GetKey` | hooks/useTransactions.ts:114-126 | returns the key described for `PageKeyFor`; a first-page key also appends the page size to the shared parameters, and any other call leaves them unchanged |
| `TransactionsHook.Hook.Continue` | hooks/useTransactions.ts:132-142 | the page count grows by one exactly when no page is pending and the end is not reached |
| `TransactionsHook.ShouldLoadMoreIff` | hooks/useTransactions.ts:132-140 | another page is requested exactly when an error arrived before any data, or when every requested page is in and either no page is loaded or the first page is non-empty and the last is full |
| `TransactionsHook.RepeatedFirstPageKeys` | hooks/useTransactions.ts:118-123 | two first-page keys asked of one hook differ; the second carries the page size twice |
| `TransactionsHook.FullLastPageStalls` | hooks/useTransactions.ts:118-146 | when the last page is exactly full and has no next link, another page is requested, no key exists for it, and the hook's `isLoading` flag (:146) stays set for that size and any larger one |
| `TransactionsHook.FixedNeverStalls` | hooks/useTransactions.ts:137-138 | with a missing next link also counted as the end, every requested page has a key; the fix only stops requests, and changes nothing while pages link on |

## Left out

- Rendering: markup, styles, the accounts snapshot, loading placeholders, the
  window caption (`dataDateText`) and the money formatter are not modelled.
- Floating point: amounts stay in integer cents, and the division by 100 with
  its rounding is not modelled.
- Bucket labels: `toLocaleDateString` and `MMM yyyy` are modelled as a day or
  a (year, month) key. A locale that prints two different days the same way
  is not modelled.
- Time zones and times of day: a window is a span of whole local days. Its
  `startOfDay`/`endOfDay` instants and their `toISOString` text are not
  modelled; the hook takes the bounds as opaque strings. A timestamp is its
  local wall-clock reading. The listing compares `createdAt` strings, and
  these agree with that reading only when their UTC offsets agree.
- The clock (`new Date()`) is the `now` parameter of `ResolveWindow` and
  `Render`.
- The API calls, the SWR cache and loader, the fetcher and the token are not
  modelled. Each hook's answer is a parameter: pages, categories, accounts
  and the error flag.
- `URLSearchParams` percent-encoding and `toString` are not modelled. A
  first-page key is the path and the list of name/value pairs.
- The hook's single-page branch (hooks/useTransactions.ts:149-153), taken when
  `all` is false, is not modelled: the explorer always asks for all pages.
- Integer-like object keys: a JavaScript object lists keys such as `"42"`
  first, in ascending order, before all other keys. The grouping model puts
  every new key last. That matches the code only because no key used is
  integer-like: day labels, `MMM yyyy` labels and the API's category ids.
- `ExplorerState.Explorer.Render`: this member states only that the window is
  valid and ordered, and the today/all-time case. The per-filter window
  properties are stated on `ResolveWindow`, which `Render` calls.
- `Spending.ListingChronological`: this member needs valid timestamps.
  Strings that do not parse as dates are not modelled.

## Findings

| source | as written | input that shows it | evidently intended | confidence | as-written member | corrected member |
|---|---|---|---|---|---|---|
| hooks/useTransactions.ts:121-123 | every first-page `getKey` call appends `page[size]=100` to the one `searchParams` the render shares | two first-page keys requested in one render: the second has `page[size]` twice, so the two keys differ | the first-page URL carries the page size once, and the same request always gets the same key | medium, not executed | `TransactionsHook.RepeatedFirstPageKeys` | `TransactionsHook.PageKeyFor` |
| hooks/useTransactions.ts:137-142 | the end is reached only on an empty first page or a short last page | a window whose transactions exactly fill the last page, when the API gives that page no next link: one more page is requested, `getKey` returns no key for it, and the hook reports loading from then on | a page without a next link also ends the listing | low, not executed | `TransactionsHook.FullLastPageStalls` | `TransactionsHook.FixedNeverStalls` |
| components/Explorer/Explorer.tsx:339 | the caption indexes the category summary with the selected id and formats the result; a missing id gives `undefined`, and `valueFormatter` (:179-182) throws on it during rendering | select a category's slice, then switch to a quick filter whose window holds none of its transactions: the selection is kept, and once the window and the category listing have loaded the section is drawn while the summary has no entry for it | a category without spend in the window shows 0 (or the selection is cleared) | high, not executed | `ExplorerState.StaleSelectionThrows` | `Spending.SelectedListingTotal` |
