# Coupon manager — verified model of the list, statistics, calendar, tag and theme logic

This project models the sequential logic of a client-side coupon manager written as React
components and hooks, and proves what that logic promises. It covers:

- the coupon list store. Adding prepends, removing by id and clearing expired coupons filter the list. The list is saved only after the initial load.
- the home page's category filter.
- the pagination bar: the window of at most seven page buttons with `...` gaps, the "items x–y" range and the disabled buttons.
- the expiry flags and border/badge choice of a coupon card.
- the statistics bar's counts.
- the analytics dashboard's integer aggregations. These are the six monthly savings buckets, used/total per category, the top-five source ranking and the counters of the summary cards.
- the calendar grid with its padding, each day's coupons, the urgency colour of a day, month navigation and day selection.
- tag selection and tag usage counts in the tag filter.
- the Enter/Backspace handling of the tag input.
- the edit form: tags are joined into one string and parsed back, and the update is built on submit.
- the light/dark/system theme cycle and how a theme is resolved.

Instants are integer milliseconds since the epoch. "Now" is always a parameter. The local
time zone enters as a function `LocalCalendar` from an instant to its local calendar date.
A JavaScript `Record` filled in a loop is modelled as a sequence of (key, value) pairs in
insertion order, which is the order `Object.keys`/`Object.entries` list string keys in.

Modules, one per source file plus shared ones:

- `Coupons`: the coupon record, `Math.ceil` day arithmetic and calendar dates.
- `Seqs`: `filter`, sums and subsequences.
- `Counting`: the counting record and the stable sort by descending count.
- `JsString`: `trim`, `split` and `join`.
- `Decimal`: `Number.prototype.toString` for integers.
- `UseCoupons`, `HomePage`, `Pagination`, `CouponCard`, `CouponStats`, `AnalyticsDashboard`, `CalendarView`, `TagFilter`, `TagInput`, `EditCouponForm` and `UseTheme`: one per source file.

Where the code works by updating state step by step, the model does too. The
hooks and the calendar's navigation are classes whose methods update fields. The page
window, monthly buckets, category usage, source ranking, tag counting, calendar grid and
day colour are methods with loops, each proved equal to a specification function. The
properties the source promises are proved about those functions.

## Model

| member | source | states |
|---|---|---|
| `UseCoupons.NewCoupon` | hooks/useCoupons.ts:44-48 | the new coupon carries every supplied field unchanged, its id is the decimal text of the current time and `acquiredAt` is the current time |
| `UseCoupons.RemoveById` | hooks/useCoupons.ts:52-54 | no coupon with the id remains; every other coupon keeps its number of occurrences; the result is an order-preserving subsequence |
| `UseCoupons.ClearExpired` | hooks/useCoupons.ts:56-59 | every remaining coupon expires strictly after now; no such coupon is dropped; order is preserved |
| `UseCoupons.RemoveAbsentId` | hooks/useCoupons.ts:52-54 | removing an id no coupon has leaves the list unchanged |
| `UseCoupons.ClearExpiredIdempotent` | hooks/useCoupons.ts:56-59 | clearing twice at the same instant is clearing once |
| `UseCoupons.ClearExpiredLeavesNoExpired` | hooks/useCoupons.ts:56-59 | after clearing no card shows a coupon as expired, and a coupon expiring exactly at now is gone |
| `UseCoupons.CouponStore.constructor` | hooks/useCoupons.ts:13-14 | the store starts empty, loading, with nothing saved |
| `UseCoupons.CouponStore.SaveEffect` | hooks/useCoupons.ts:37-41 | the list is written to storage exactly when loading is over |
| `UseCoupons.CouponStore.Load` | hooks/useCoupons.ts:16-35 | the stored list is used when it parses, else the defaults; loading ends once and that list is the one saved |
| `UseCoupons.CouponStore.AddCoupon` | hooks/useCoupons.ts:43-50 | the new coupon is prepended, the old list follows unchanged, the length grows by one, and storage is written only when loaded |
| `UseCoupons.CouponStore.RemoveCoupon` | hooks/useCoupons.ts:52-54 | the list becomes `RemoveById` of the old list; the saving rule is kept |
| `UseCoupons.CouponStore.ClearExpiredCoupons` | hooks/useCoupons.ts:56-59 | the list becomes `ClearExpired` of the old list; the saving rule is kept |
| `Decimal.IntToString` | hooks/useCoupons.ts:46 | a minus sign exactly for negative numbers, then one or more digits |
| `Decimal.NatToString` | hooks/useCoupons.ts:46 | the text is a non-empty string of digits without a leading zero |
| `Decimal.IntToStringRoundTrip` | hooks/useCoupons.ts:46 | parsing the text of an integer gives back the integer |
| `Decimal.IntToStringInjective` | hooks/useCoupons.ts:46 | different instants give different ids |
| `HomePage.FilteredCoupons` | app/page.tsx:12-14 | `'all'` passes the list through; a category keeps exactly its coupons, all of them, in order, so the result is no longer than the input |
| `Pagination.Pages` | components/Pagination.tsx:23-25 | the run of page numbers from `lo` to `hi` |
| `Pagination.GetPageNumbers` | components/Pagination.tsx:18-45 | the loop-built button row equals the specified window |
| `Pagination.PageWindow` | components/Pagination.tsx:18-44 | up to seven pages the row is exactly `1..totalPages`; beyond seven it has seven entries in each branch |
| `Pagination.RowOfAllPages` | components/Pagination.tsx:22-25 | the all-pages row is well formed |
| `Pagination.RowNearStart` | components/Pagination.tsx:27-30 | the near-start row is well formed |
| `Pagination.RowNearEnd` | components/Pagination.tsx:31-34 | the near-end row is well formed |
| `Pagination.RowInMiddle` | components/Pagination.tsx:35-41 | the middle row is well formed |
| `Pagination.PageWindowOrdered` | components/Pagination.tsx:22-41 | the numbers strictly increase from 1 to `totalPages`, and each `...` stands between two numbers at least 2 apart |
| `Pagination.PageWindowShowsCurrent` | components/Pagination.tsx:27-41 | a valid current page is always among the buttons |
| `Pagination.Render` | components/Pagination.tsx:13-89 | nothing renders for one page or fewer; start and end of the shown range; the buttons are exactly the row `getPageNumbers` builds; prev disabled exactly on page 1, next exactly on the last page |
| `Pagination.ShownRangeValid` | components/Pagination.tsx:15-16 | on a valid page the first shown item is at most the last and both lie within the items |
| `Pagination.ThirteenCouponsExample` | components/Pagination.tsx:15-16 | 13 items at 12 per page show 1–12, then 13–13 |
| `Coupons.CeilDiv` | components/CouponCard.tsx:29 | the quotient is the least integer whose multiple reaches the dividend |
| `Coupons.DaysUntilExpiry` | components/CouponCard.tsx:29 | the whole days left, rounded up |
| `CouponCard.IsExpired` | components/CouponCard.tsx:26 | an expired coupon has no days left, one that is not expired never has a negative count |
| `CouponCard.IsExpiringSoon` | components/CouponCard.tsx:29-30 | expiring soon exactly when the expiry lies in (now, now + 7 days] |
| `CouponCard.IsExpiringVeryEarly` | components/CouponCard.tsx:29-31 | expiring very early exactly when the expiry lies in (now, now + 3 days] |
| `CouponCard.UrgencyConsistent` | components/CouponCard.tsx:26-31 | very early implies soon; an expired coupon is neither |
| `CouponCard.UrgencyExamples` | components/CouponCard.tsx:29-31 | two days out is soon and very early; ten days out is neither |
| `CouponCard.BorderOf` | components/CouponCard.tsx:35-41 | red exactly when very early, orange exactly when soon but not very early, neutral otherwise |
| `CouponCard.BadgesOf` | components/CouponCard.tsx:117-126 | at most one badge, present exactly when soon; it shows the days left and is red exactly with the red border |
| `CouponStats.CountOfCategory` | components/CouponStats.tsx:25-28 | a category's count is at most the number of coupons, and zero exactly when no coupon has that category |
| `CouponStats.ByCategory` | components/CouponStats.tsx:25-28 | a category is a key exactly when some coupon has it, and its value is that category's count |
| `CouponStats.CountOfCategorySnoc` | components/CouponStats.tsx:25-28 | one more coupon raises its own category's count by one and no other |
| `CouponStats.GetByCategory` | components/CouponStats.tsx:25-28 | reading a category (0 when absent) gives its count |
| `CouponStats.CountTotalIsLength` | components/CouponStats.tsx:25-28 | the six category counts add up to the number of coupons |
| `CouponStats.ByCategoryTotal` | components/CouponStats.tsx:25-28 | the `byCategory` values add up to `total` |
| `CouponStats.ComputeStats` | components/CouponStats.tsx:14-36 | total, expired (strictly before now), expiring soon (now to now + 7 days inclusive); `active = total - expired >= 0`; `expired + expiringSoon <= total` |
| `CouponStats.DisjointCounts` | components/CouponStats.tsx:19-23 | two filters that never both accept count at most the list together |
| `CouponStats.FilterCountMonotone` | components/CouponStats.tsx:19-23 | a stricter filter keeps no more |
| `CouponStats.EmptyStats` | components/CouponStats.tsx:14-36 | an empty list gives zeros and no categories |
| `CouponStats.StatsAgreeWithCards` | components/CouponStats.tsx:19-23 | the bar's expired count is the number of cards shown expired; the cards' soon flag never counts more than the bar's soon count |
| `Coupons.NormalizeMonth` | components/AnalyticsDashboard.tsx:49 | an out-of-range month lands in the same month index, with a month 0–11 |
| `AnalyticsDashboard.BookingInstant` | components/AnalyticsDashboard.tsx:56 | the `usedAt` instant when the coupon has one, its `acquiredAt` instant otherwise |
| `AnalyticsDashboard.BookingMonth` | components/AnalyticsDashboard.tsx:57 | the month key determines the year and the month of the booking instant |
| `AnalyticsDashboard.MonthlyBuckets` | components/AnalyticsDashboard.tsx:46-61 | six buckets for the consecutive months ending with the current one, oldest first |
| `AnalyticsDashboard.MonthlySavings` | components/AnalyticsDashboard.tsx:43-71 | the loop-built table equals the buckets; each holds the savings of used coupons booked in that month (`usedAt`, else `acquiredAt`, missing amounts 0) |
| `AnalyticsDashboard.MonthlyBucketsEmpty` | components/AnalyticsDashboard.tsx:46-52 | with no coupons every bucket is 0 |
| `AnalyticsDashboard.MonthlyTotalSnoc` | components/AnalyticsDashboard.tsx:55-61 | one more coupon adds its amount to its own month only when it is used |
| `AnalyticsDashboard.MonthlyBucketsSnoc` | components/AnalyticsDashboard.tsx:55-61 | one more coupon changes only its bucket, and only when it is used and inside the window |
| `AnalyticsDashboard.MonthlyWithinActual` | components/AnalyticsDashboard.tsx:55-113 | with non-negative amounts the chart total is at most `actualSavings` |
| `AnalyticsDashboard.MonthlySumSnoc` | components/AnalyticsDashboard.tsx:55-61 | one more coupon raises the chart total by its amount exactly when it is used and booked in one of the six months |
| `AnalyticsDashboard.ActualSavingsSnoc` | components/AnalyticsDashboard.tsx:113 | one more coupon raises `actualSavings` by its amount exactly when it is used |
| `AnalyticsDashboard.ActualSavings` | components/AnalyticsDashboard.tsx:113 | with non-negative amounts the used coupons' savings are non-negative |
| `AnalyticsDashboard.TotalSavings` | components/AnalyticsDashboard.tsx:112 | the savings of all coupons are the used coupons' savings plus the unused coupons' savings |
| `AnalyticsDashboard.ActualWithinTotal` | components/AnalyticsDashboard.tsx:112-113 | with non-negative amounts `actualSavings` is at most `totalSavings` |
| `AnalyticsDashboard.CategoriesOf` | components/AnalyticsDashboard.tsx:77 | the category of each coupon, in order |
| `AnalyticsDashboard.UsedOfSnoc` | components/AnalyticsDashboard.tsx:82-84 | one more coupon raises its category's used count exactly when it is used |
| `AnalyticsDashboard.UsedOfAbsent` | components/AnalyticsDashboard.tsx:78-84 | a category no coupon has has no used coupons |
| `AnalyticsDashboard.CategoriesOfSnoc` | components/AnalyticsDashboard.tsx:77 | one more coupon appends its category |
| `AnalyticsDashboard.CategoryUsage` | components/AnalyticsDashboard.tsx:74-91 | the loop-built record lists each category once, in first-seen order, with its coupon count and used count |
| `AnalyticsDashboard.FindCategory` | components/AnalyticsDashboard.tsx:78 | the lookup finds the category's entry, or reports that there is none |
| `AnalyticsDashboard.CountCoupon` | components/AnalyticsDashboard.tsx:78-84 | the entry is created when missing, then its total and (for a used coupon) used count go up by one |
| `AnalyticsDashboard.CategoryUsageStep` | components/AnalyticsDashboard.tsx:77-85 | one loop step keeps the record equal to the counts so far |
| `AnalyticsDashboard.CountOneMore` | components/AnalyticsDashboard.tsx:77-85 | counting one more coupon keeps totals and used counts exact |
| `AnalyticsDashboard.TotalsStep` | components/AnalyticsDashboard.tsx:78-81 | the totals follow the counting record step by step |
| `AnalyticsDashboard.UsedStep` | components/AnalyticsDashboard.tsx:82-84 | the used counts follow the used coupons step by step |
| `AnalyticsDashboard.UsedWithinTotal` | components/AnalyticsDashboard.tsx:82-84 | no category has more used coupons than coupons |
| `AnalyticsDashboard.CategoryUsageTable` | components/AnalyticsDashboard.tsx:77-87 | each total is the category's coupon count and at least its used count; the totals add up to the coupon count; categories come in first-seen order |
| `AnalyticsDashboard.SourcesOf` | components/AnalyticsDashboard.tsx:97-99 | the source of each coupon, in order |
| `AnalyticsDashboard.SourceRanking` | components/AnalyticsDashboard.tsx:94-106 | the loop-built ranking is the first five of the count record sorted by descending count |
| `AnalyticsDashboard.SortedSourceCounts` | components/AnalyticsDashboard.tsx:97-102 | every sorted entry's count is its source's number of coupons |
| `AnalyticsDashboard.RankingCounts` | components/AnalyticsDashboard.tsx:97-105 | at most five distinct sources, counts non-increasing and exact |
| `AnalyticsDashboard.RankingLeavesOutNoLarger` | components/AnalyticsDashboard.tsx:101-103 | a source left out has no more coupons than any ranked one |
| `AnalyticsDashboard.RankingStable` | components/AnalyticsDashboard.tsx:101-102 | sources with equal counts keep their first-seen order |
| `AnalyticsDashboard.ComputeAnalytics` | components/AnalyticsDashboard.tsx:109-131 | `usedCoupons <= totalCoupons`; `expired + active == totalCoupons` and active is never negative; the savings sums |
| `AnalyticsDashboard.EffectiveUtilization` | components/AnalyticsDashboard.tsx:349-351 | the ratio is formed exactly when some coupon is active; its divisor is then positive and the ratio at most 1 |
| `AnalyticsDashboard.ExpiredAgreesWithStats` | components/AnalyticsDashboard.tsx:117-119 | the dashboard's expired and active counts equal the statistics bar's |
| `Counting.KeyIndex` | components/TagFilter.tsx:48 | finds the entry of a key, or reports that the record has none |
| `Counting.Bump` | components/TagFilter.tsx:48 | the key's count goes up by one, or the key is appended with count 1; keys stay distinct and in place |
| `Counting.Tally` | components/TagFilter.tsx:46-50 | the record the counting loop leaves has distinct keys |
| `Counting.TallySpec` | components/TagFilter.tsx:46-50 | the record has an entry exactly for the keys that occur, each with its number of occurrences |
| `Counting.TallyFirstSeenOrder` | components/TagFilter.tsx:46-52 | entries are listed in order of the first occurrence of their keys |
| `Counting.TallyKeysOccur` | components/TagFilter.tsx:46-50 | every key in the record occurs in the input |
| `Counting.FirstSeenStep` | components/TagFilter.tsx:46-52 | counting one more key keeps first-seen order |
| `Counting.TallySnoc` | components/TagFilter.tsx:46-50 | the record after one more key is that key bumped |
| `Counting.TallyTotal` | components/TagFilter.tsx:46-50 | the counts add up to the number of keys counted |
| `Counting.BumpTotal` | components/TagFilter.tsx:48 | one bump adds one to the sum of counts |
| `Counting.Insert` | components/TagFilter.tsx:53 | inserting into a non-increasing record keeps it non-increasing and adds exactly that entry |
| `Counting.SortByCount` | components/TagFilter.tsx:52-53 | the sort is a permutation with non-increasing counts |
| `Counting.InsertWithCount` | components/TagFilter.tsx:53 | inserting keeps the order of the entries of every count |
| `Counting.SortByCountStable` | components/TagFilter.tsx:53 | the sort is stable: entries of equal count keep their order |
| `Counting.SortByCountSum` | components/TagFilter.tsx:53 | the sort keeps the sum of counts |
| `Counting.SortByCountDistinct` | components/TagFilter.tsx:53 | the sort keeps keys distinct |
| `Counting.Take` | components/AnalyticsDashboard.tsx:103 | `slice(0, n)`: a prefix of length at most n, the whole record when it is short |
| `Counting.SortedKeysDistinct` | components/AnalyticsDashboard.tsx:101-103 | a permutation of a record with distinct keys has distinct keys |
| `Counting.PrefixLeavesOutNoLarger` | components/AnalyticsDashboard.tsx:101-103 | an entry left out of a prefix of a sorted record counts no more than any entry kept |
| `Seqs.FilterSpec` | app/page.tsx:14 | `filter` keeps exactly the accepted elements, each as often as before, in order |
| `Seqs.FilterIdempotent` | hooks/useCoupons.ts:58 | filtering twice with one predicate is filtering once |
| `Seqs.FilterNoDuplicates` | components/TagInput.tsx:60 | filtering a list without duplicates leaves none |
| `Seqs.SumFilterBound` | components/AnalyticsDashboard.tsx:112-113 | with non-negative amounts a filtered sum is at most the full sum |
| `CalendarView.DaysInMonth` | components/CalendarView.tsx:30-32 | 28 to 31 days; February has 29 exactly in leap years |
| `CalendarView.Weekday` | components/CalendarView.tsx:39 | a weekday 0 (Sunday) to 6 |
| `CalendarView.WeekdayExamples` | components/CalendarView.tsx:39 | 1 January 1970 is a Thursday, 1 January 2024 a Monday, 29 February 2000 a Tuesday |
| `CalendarView.WeekdayNext` | components/CalendarView.tsx:39 | the next day is the next weekday |
| `CalendarView.DayCoupons` | components/CalendarView.tsx:55-60 | exactly the coupons expiring on that local day, all of them, in order |
| `CalendarView.CalendarDays` | components/CalendarView.tsx:35-83 | 28 to 42 cells, a multiple of 7; leading cells are the previous month's last days with no coupons; then days 1..N of the month with their coupons; then the next month's first days with no coupons |
| `CalendarView.PaddingDatesExist` | components/CalendarView.tsx:42-50 | the leading padding days are real days of the previous month |
| `CalendarView.GetDayColor` | components/CalendarView.tsx:118-139 | none for an empty day; red exactly when some coupon is 0–3 days away; orange exactly when none is but some is 0–7 days away; blue otherwise |
| `CalendarView.RedForJustExpired` | components/CalendarView.tsx:126-130 | a coupon that expired less than a day ago still counts as 0 days away and turns the day red |
| `CalendarView.CalendarState.constructor` | components/CalendarView.tsx:22-23 | today's date and no selection |
| `CalendarView.CalendarState.GoToPreviousMonth` | components/CalendarView.tsx:98-100 | exactly one month back, pinned to day 1, selection kept |
| `CalendarView.CalendarState.GoToNextMonth` | components/CalendarView.tsx:102-104 | exactly one month forward, pinned to day 1, selection kept |
| `CalendarView.CalendarState.GoToToday` | components/CalendarView.tsx:106-108 | back to today, selection kept |
| `CalendarView.CalendarState.HandleDayClick` | components/CalendarView.tsx:111-115 | a day is selected only when it has coupons |
| `CalendarView.CalendarState.ClearSelection` | components/CalendarView.tsx:258 | the close button drops the selection |
| `CalendarView.CalendarState.SelectedDayCoupons` | components/CalendarView.tsx:86-95 | nothing without a selection, else the `filter` of the coupons by the selected day (`DayCoupons`: exactly the coupons expiring that day, in list order, each as often as in the list) |
| `CalendarView.MonthNavigationWrapsYear` | components/CalendarView.tsx:98-104 | January back goes to December of the year before; December forward goes to January of the next |
| `TagFilter.TagLists` | components/TagFilter.tsx:46-47 | the tag list of each coupon, in order |
| `TagFilter.TagStats` | components/TagFilter.tsx:43-55 | the nested loops leave the count record of all tag entries, then sorted by descending count |
| `TagFilter.AllTagsStep` | components/TagFilter.tsx:46-47 | one more coupon appends its tags to the entries |
| `TagFilter.CountTags` | components/TagFilter.tsx:47-49 | the inner loop counts one coupon's tags into the record |
| `Counting.TallyFromTally` | components/TagFilter.tsx:47-49 | counting on from the record of the tags seen so far gives the record of all of them |
| `TagFilter.TagStatsCounts` | components/TagFilter.tsx:46-54 | each tag once, with its number of occurrences over all coupons, counts non-increasing |
| `TagFilter.TagStatsComplete` | components/TagFilter.tsx:46-54 | every tag any coupon has is listed |
| `TagFilter.TagStatsTotal` | components/TagFilter.tsx:46-50 | the counts add up to the number of tag entries |
| `TagFilter.TagStatsStable` | components/TagFilter.tsx:52-53 | tags of equal count stay in first-seen order |
| `TagFilter.ToggleTag` | components/TagFilter.tsx:57-63 | a selected tag is removed (every occurrence, others kept in order), an unselected one appended at the end |
| `TagFilter.FilterDropsSome` | components/TagFilter.tsx:59 | removing a present tag shortens the selection |
| `TagFilter.ToggleTwiceRestores` | components/TagFilter.tsx:57-63 | toggling an unselected tag twice restores the selection |
| `TagFilter.ToggleTwiceMovesToEnd` | components/TagFilter.tsx:57-63 | toggling a selected tag twice moves it to the end |
| `TagFilter.ToggleKeepsDistinct` | components/TagFilter.tsx:57-63 | a selection without duplicates keeps none |
| `TagFilter.ClearTags` | components/TagFilter.tsx:65-67 | the empty selection, from which a toggle selects just that tag |
| `TagFilter.FlipMode` | components/TagFilter.tsx:85 | the mode always changes |
| `TagFilter.FlipModeTwice` | components/TagFilter.tsx:85 | two flips restore the mode |
| `TagInput.KeyDown` | components/TagInput.tsx:41-57 | Enter on a non-blank box empties it and adds the trimmed text, reporting nothing when it is already present; Backspace on an empty box drops exactly the last tag; anything else changes nothing |
| `TagInput.RemoveTag` | components/TagInput.tsx:59-61 | every occurrence of the tag is removed, the rest kept in order |
| `TagInput.KeyDownKeepsNoDuplicates` | components/TagInput.tsx:47-55 | a key press keeps a list without duplicates without duplicates |
| `TagInput.RemoveTagKeepsNoDuplicates` | components/TagInput.tsx:59-61 | removing a tag keeps a list without duplicates without duplicates |
| `TagInput.RemoveAbsentTag` | components/TagInput.tsx:59-61 | removing a tag the list lacks reports the same list |
| `TagInput.TagInputState.constructor` | components/TagInput.tsx:39 | the box starts empty |
| `TagInput.TagInputState.Type` | components/TagInput.tsx:85 | typing replaces the box's text |
| `TagInput.TagInputState.HandleKeyDown` | components/TagInput.tsx:41-57 | the handler reports the list and leaves the text `KeyDown` specifies |
| `JsString.Leading` | components/TagInput.tsx:44 | the length of the whitespace run at the front |
| `JsString.Trailing` | components/TagInput.tsx:44 | the length of the whitespace run at the back |
| `JsString.Trim` | components/TagInput.tsx:44 | the result neither starts nor ends with whitespace, is empty exactly for blank text, and is the text between the two runs |
| `JsString.TrimCutsWhitespace` | components/TagInput.tsx:42-44 | the leading and trailing parts `trim` removes are whitespace only |
| `JsString.TrimTrimmed` | components/EditCouponForm.tsx:36 | trimming a trimmed string changes nothing |
| `JsString.TrimIdempotent` | components/EditCouponForm.tsx:36 | trimming twice is trimming once |
| `JsString.TrimAfterWhitespace` | components/EditCouponForm.tsx:36 | leading whitespace before trimmed text is all that is removed |
| `JsString.Split` | components/EditCouponForm.tsx:36 | at least one piece, none containing the separator |
| `JsString.Join` | components/EditCouponForm.tsx:23 | the joined text starts with the first part and is as long as all parts plus one delimiter between each two |
| `JsString.JoinSplit` | components/EditCouponForm.tsx:36 | joining the pieces with the separator rebuilds the string |
| `JsString.SplitJoin` | components/EditCouponForm.tsx:36 | splitting separator-free pieces joined by the separator gives them back |
| `JsString.SplitNoSeparator` | components/EditCouponForm.tsx:36 | a string without the separator is one piece |
| `JsString.SplitPrefix` | components/EditCouponForm.tsx:36 | a separator-free prefix before a separator is the first piece |
| `EditCouponForm.InitialForm` | components/EditCouponForm.tsx:16-24 | the date field is the UTC day containing the expiry (the tag text, `tags.join(", ")`, is stated by `SubmitUnedited` and `ParseJoinedTags`) |
| `EditCouponForm.ParseTags` | components/EditCouponForm.tsx:36 | each parsed tag is non-empty, trimmed and comma-free; no more tags than pieces |
| `EditCouponForm.TrimAll` | components/EditCouponForm.tsx:36 | each piece trimmed, in order |
| `EditCouponForm.TrimWithin` | components/EditCouponForm.tsx:36 | trimming adds no character |
| `EditCouponForm.Submit` | components/EditCouponForm.tsx:26-41 | one update for the coupon's own id, then close; the text fields and category pass through, expiry is midnight UTC of the chosen day, and the tags are parsed |
| `EditCouponForm.Spaced` | components/EditCouponForm.tsx:23 | the pieces the joined string splits into: the first tag, then each later tag behind a space |
| `EditCouponForm.JoinSpaced` | components/EditCouponForm.tsx:23 | joining with `", "` is joining the spaced pieces with `","` |
| `EditCouponForm.JoinPrependFirst` | components/EditCouponForm.tsx:23 | a character in front of the first part is in front of the joined string |
| `EditCouponForm.ParseJoinedTags` | components/EditCouponForm.tsx:23-36 | non-empty, trimmed, comma-free tags survive join then parse unchanged |
| `EditCouponForm.ParseTagsStable` | components/EditCouponForm.tsx:23-36 | saving parsed tags and reopening the form shows the same tags |
| `EditCouponForm.SubmitUnedited` | components/EditCouponForm.tsx:16-41 | an untouched form keeps every field and well-formed tags and moves the expiry back to midnight UTC of its day |
| `UseTheme.NameOf` | hooks/useTheme.ts:5 | for themes whose name does not clash, the name is `light`, `dark` or `system` exactly for the theme of that name |
| `UseTheme.ThemeOf` | hooks/useTheme.ts:17 | the theme read from storage has the stored string as its name |
| `UseTheme.ThemeOfNameOf` | hooks/useTheme.ts:17-38 | a stored theme reads back as itself |
| `UseTheme.ThemeOfNamed` | hooks/useTheme.ts:17 | a read theme never carries a declared name as an undeclared one |
| `UseTheme.Next` | hooks/useTheme.ts:48-54 | the toggle always changes the theme to a declared one |
| `UseTheme.NextThreeTimes` | hooks/useTheme.ts:48-54 | toggling three times returns to the starting declared theme |
| `UseTheme.NextFromOther` | hooks/useTheme.ts:48-54 | from an undeclared name the toggle goes light, dark, system |
| `UseTheme.Resolve` | hooks/useTheme.ts:26-34 | system resolves to the dark-mode preference; light and dark resolve to themselves; never to system |
| `UseTheme.InitialTheme` | hooks/useTheme.ts:13-20 | system, replaced by the stored string only when there is a non-empty one |
| `UseTheme.ThemeState.constructor` | hooks/useTheme.ts:13-14 | system chosen, light shown |
| `UseTheme.ThemeState.ApplyTheme` | hooks/useTheme.ts:23-38 | the shown theme is the resolved choice, the `dark` class is set exactly when it is dark, and the choice is stored |
| `UseTheme.ThemeState.Mount` | hooks/useTheme.ts:16-38 | after mounting the theme is the initial theme and is applied and stored |
| `UseTheme.ThemeState.ToggleTheme` | hooks/useTheme.ts:48-54 | the theme moves one step in the cycle and is applied |
| `UseTheme.ThemeState.SetTheme` | hooks/useTheme.ts:59 | for a declared theme, the theme becomes it; the effect runs only when it changed |
| `UseTheme.ThemeState.SystemPreferenceChanged` | hooks/useTheme.ts:40-45 | under system, a preference change re-resolves the shown theme and the `dark` class and leaves the stored choice untouched |

## Left out

- JSX, CSS class strings, labels, chart.js registration and options. They are presentation; the model stops at the values rendered (border, badge, colour, rows).
- localStorage and JSON. The stored coupon list is a `Stored` value (missing, unparsable or a list) and the stored theme an optional string. The re-hydration of dates from JSON is not modelled.
- DOM and media queries. The dark-mode preference is a boolean parameter, and the `dark` class is a boolean field.
- Floating-point statistics: `usageRate`, `averageCouponValue`, the effective-utilization percentage, `toFixed` and `toLocaleString`. Only their integer inputs and the guard of the division are modelled.
- `getTagColor`. Its hash mixes 32-bit shifts with unbounded double arithmetic, and it only picks a CSS class.
- Time zones and locale. `Date`'s local fields come from a `LocalCalendar` parameter, and `toLocaleDateString` is not modelled.
- `Date.now()` and `new Date()`. They are parameters; the uniqueness of ids made from the clock is not guaranteed by the code and is not claimed.
- Toast, SearchBar, SortControl and CategoryFilter. They hold no logic beyond callbacks, a timeout and option lists.
- The `CouponSource.fetchCoupons` interface. It is an asynchronous foreign call that nothing uses.
- Integer width. Amounts, instants and counts are unbounded integers. JavaScript numbers are doubles, so sums beyond 2^53 would round.
- Fractional amounts. `savedAmount` is taken to be a whole number: fractional amounts, the rounding of their double sums (0.1 + 0.2) in `monthlySavingsData`, `totalSavings` and `actualSavings`, and a `NaN` amount (which `|| 0` turns into 0) are not modelled.
- Record key order. `Object.keys` lists integer-like keys first. The model keeps insertion order, which matches the category names but not a source or tag spelled as an integer (such as `"7"`).
- Inherited record keys. A source or tag named like an `Object.prototype` member (`"constructor"`) would start from that member instead of `undefined`; the model treats every key as absent at first.
- Two-digit and out-of-range years. `new Date(y, m, d)` reads a year 0–99 as 1900 + y and gives an Invalid Date beyond ±8.64e15 ms; `Coupons.NormalizeMonth`, `CalendarView.DaysInMonth`, `CalendarView.Weekday`, `CalendarView.CalendarDays`, `CalendarView.CalendarState.GoToPreviousMonth`, `CalendarView.CalendarState.GoToNextMonth`, `CalendarView.MonthNavigationWrapsYear`, `AnalyticsDashboard.MonthlyBuckets` and `AnalyticsDashboard.MonthlySavings` use the proleptic Gregorian calendar for every year, so they match the source only for years 100 to 275759.
- Month keys. The `YYYY-MM` strings are modelled by the month index they encode, so two months are taken never to share a key (years 100–9999).
- `usedAt` truthiness. A present `usedAt` is taken as truthy. An empty string re-hydrated from storage would be falsy and fall back to `acquiredAt`.
- The calendar's month field. `CalendarView.CalendarDays` and the navigation methods require a month 0–11, as `getMonth()` always reports.
- EditCouponForm per-keystroke field handlers. They copy the input's value into `formData`; `FormData` is taken as whatever they left.
- An emptied date field. The form's date is a day number, so the Invalid Date that `new Date('')` gives is not modelled. Neither is the `RangeError` `toISOString` throws beyond year 275760.
- The unchecked theme cast. A stored string that is not one of the three names is kept as `Other(name)`, and the model follows what the code then does with it.
- React scheduling. Each state update and the effects it triggers are modelled as one method call in program order; batching and re-render timing are not modelled.
- `UseTheme.ThemeState.Mount`: the intermediate write of `system` to storage before the stored theme is applied is made, but the contract only states the final state.
