# FoodCalendar inventory layer, in Dafny

FoodCalendar is an iPad app that keeps a list of food items, each with a
name, a picture name and an expiry date. Its screens show the items on a
month calendar, in an inventory list, on a statistics page and in recipe
suggestions. This project models the list logic under those screens and
proves what it promises:

- the month grid's padding days from the neighbouring months;
- drag-to-trash deletion with an undo stack;
- the inventory list sorted by expiry, its per-row warning, and deletion by
  row offsets;
- the name search in the header and the rotating tip;
- the expiry queries: per-day cells, the "expiring soon" window, the five
  per-day bars and columns, and the detail card's day count, ring colour,
  ring fill and storage tip;
- recipe recommendation and the per-recipe list of matching items.

Dates are seconds on a fixed local-time line where every day has 86400
seconds (`Dates`). "Now" and the statistics screen's reference date are
parameters. A month's shape is an input (`CalendarGrid.MonthGeometry`): the
day number of its 1st, the weekday of the 1st, its length, and the length of
the month before it. Every filter of the app is an instance of one
order-preserving `Seqs.Filter`. Its generic lemmas cover membership, order,
multiplicity, monotonicity, counting and composition.

Modules, one per source file: `FoodItems`, `CalendarGrid`, `FoodInventory`,
`HeaderSections`, `Statistics`, `CalendarDateCell`, `FullInventoryCard`,
`RecipeRecommendations`, `RecipeDetail`. The shared helper modules are
`Seqs`, `Text` and `Dates`.

## Model

| member | source | states |
|---|---|---|
| Dates.StartOfDay | FoodCalendar/StatisticsView.swift:139 | the result is the first instant of the instant's day: a whole number of days, at or before the instant, less than one day before it, and on the same day |
| Dates.AddDays | FoodCalendar/StatisticsView.swift:141 | adding n days moves the day number by exactly n and keeps the time of day |
| Dates.StartOfDayShiftedOrder | FoodCalendar/StatisticsView.swift:145-148 | comparing start-of-day instants, one shifted by whole days, is comparing day numbers, in both directions |
| Dates.SameDayIffSameStart | FoodCalendar/CalendarDateCell.swift:70 | two instants are on the same day exactly when their days start at the same instant, and exactly when one lies within the day that starts at the start of the other's day |
| FoodItems.FreshId | FoodCalendar/FoodItem.swift:4 | a new id is larger than every id in use |
| FoodItems.NewFoodItem | FoodCalendar/FoodItem.swift:3-7 | a new item carries the given name, picture and date, and has an id that differs from the id of every existing item |
| FoodItems.AddNewKeepsIdsUnique | FoodCalendar/FoodItem.swift:4 | appending a newly created item to a list with unique ids keeps the ids unique |
| FoodItems.DistinctIdsDistinctItems | FoodCalendar/FoodItem.swift:3-7 | the synthesized equality compares all fields: items alike except for the id are equal exactly when the ids are equal |
| CalendarDateCell.ItemsForDate | FoodCalendar/CalendarDateCell.swift:69-71 | an item is listed exactly when it is in the list and falls on the same day as the cell |
| CalendarDateCell.ItemsForDateKeepsOrder | FoodCalendar/CalendarDateCell.swift:70 | the cell's items keep their list order, and every copy of a same-day item is kept |
| Statistics.ItemsExpiringSoon | FoodCalendar/StatisticsView.swift:137-149 | an item is counted exactly when its day lies between the reference day and three days later, both included; the result is the day-window filter |
| Statistics.ItemsExpiringSoonKeepsOrder | FoodCalendar/StatisticsView.swift:145-148 | the expiring items keep their list order |
| Statistics.DayItems | FoodCalendar/StatisticsView.swift:95-97 | the items of a column are the items of the reference day plus the column's offset |
| Statistics.BarChartData | FoodCalendar/StatisticsView.swift:164-176 | there are five bars, and bar k counts the items of day k+1 after the reference day |
| Statistics.MakeColumn | FoodCalendar/StatisticsView.swift:379-392 | a column shows the first items of its day, at most three, and reports the full count |
| Statistics.DayColumns | FoodCalendar/StatisticsView.swift:95-99 | there are five columns, for the offsets 1 to 5 in order |
| Statistics.ColumnMatchesBar | FoodCalendar/StatisticsView.swift:95-99 | column k shows a prefix of its day's items, at most three of them, and reports the same count as bar k |
| Statistics.BarIsDayCount | FoodCalendar/StatisticsView.swift:168-171 | bar k is the size of the one-day filter for day k+1 |
| Statistics.ExpiringSoonIsDayPlusThreeBars | FoodCalendar/StatisticsView.swift:137-176 | the expiring-soon count is the reference day's items plus the first three bars |
| Statistics.BarChartTotalIsWindow | FoodCalendar/StatisticsView.swift:164-176 | the five bars add up to the number of items whose day is one of the five days after the reference day |
| Statistics.BarChartTotalBounded | FoodCalendar/StatisticsView.swift:164-176 | the five bars together never count more items than the list holds, because the days are disjoint |
| FullInventoryCard.DaysUntilExpiry | FoodCalendar/FullInventoryCard.swift:88-97 | the count is the expiry day minus today; it is 0 exactly on the same day and negative exactly when the day has passed |
| FullInventoryCard.ExpiryDisplayFor | FoodCalendar/FullInventoryCard.swift:41-50 | the card shows "expired" exactly when the expiry day has passed; otherwise it shows a ring with a 10-day scale and the non-negative days left |
| FullInventoryCard.RingColorFor | FoodCalendar/FullInventoryCard.swift:153-162 | red exactly for 0 to 2 days, orange exactly for 3 to 5, green for every other count, negatives included |
| FullInventoryCard.RingColorMonotone | FoodCalendar/FullInventoryCard.swift:153-162 | for counts of zero or more, more days left never give a more urgent colour |
| FullInventoryCard.RatioBounds | FoodCalendar/FullInventoryCard.swift:126-127 | days over scale exceeds 1 exactly when the days exceed the scale, equals 1 exactly when they are equal, and is negative exactly when the days are |
| FullInventoryCard.Fraction | FoodCalendar/FullInventoryCard.swift:124-128 | the fill is 0 for a non-positive scale; otherwise it is days over scale, clamped to the range 0 to 1 |
| FullInventoryCard.FractionMonotone | FoodCalendar/FullInventoryCard.swift:124-128 | more days left never give a smaller fill |
| FullInventoryCard.StorageTips | FoodCalendar/FullInventoryCard.swift:100-115 | a lowercased name that is one of the five known foods gets that food's own tip; any other name gets the default text |
| FullInventoryCard.DefaultTipIffUnknown | FoodCalendar/FullInventoryCard.swift:100-115 | the default text is returned exactly when the lowercased name is not one of the five known foods |
| FullInventoryCard.StorageTipsIgnoresCase | FoodCalendar/FullInventoryCard.swift:101 | the tip depends on the name only up to case |
| Text.Lower | FoodCalendar/RecipeRecommendationsView.swift:32 | lowercasing keeps the length and lowercases each character |
| Text.LowerIdempotent | FoodCalendar/RecipeDetailView.swift:11 | lowercasing twice is lowercasing once |
| Text.ContainsIgnoringCase | FoodCalendar/HeaderSections.swift:189 | the text contains the needle exactly when the needle is non-empty and its lowercase form is a window of the lowercased text |
| Text.IsInfixAt | FoodCalendar/HeaderSections.swift:189 | the containment test holds exactly when some window of the text equals the query |
| Text.QueryCaseIrrelevant | FoodCalendar/HeaderSections.swift:189 | the case of the query does not change the match |
| Text.TextCaseIrrelevant | FoodCalendar/HeaderSections.swift:189 | the case of the searched name does not change the match |
| Text.ContainsItself | FoodCalendar/HeaderSections.swift:189 | a non-empty name matches itself |
| FoodInventory.SortByDate | FoodCalendar/FoodInventoryView.swift:108-110 | the sorted list has exactly as many items as the input; its order and its being a permutation are proved in FoodInventory.SortByDateSorts |
| FoodInventory.InsertByDateSorts | FoodCalendar/FoodInventoryView.swift:109 | inserting into a date-sorted list keeps it sorted and adds exactly the one item |
| FoodInventory.SortByDateSorts | FoodCalendar/FoodInventoryView.swift:108-110 | the sorted list is in non-decreasing date order and is a permutation of the items |
| FoodInventory.SortKeepsIdsUnique | FoodCalendar/FoodInventoryView.swift:108-110 | sorting a list with unique ids keeps them unique |
| FoodInventory.IsExpiringSoon | FoodCalendar/FoodInventoryView.swift:167-174 | a row is flagged exactly when the item's day lies between today and two days later, both included |
| FoodInventory.WarningIffRedRing | FoodCalendar/FoodInventoryView.swift:167-174 | a row is flagged exactly when its detail card shows a red ring |
| FoodInventory.FlaggedRowsAreExpiringSoon | FoodCalendar/FoodInventoryView.swift:167-174 | every flagged row is counted by the expiring-soon query for the same day |
| FoodInventory.Selected | FoodCalendar/FoodInventoryView.swift:113-115 | the k-th target is the sorted snapshot's item at the k-th offset |
| Seqs.FirstIndex | FoodCalendar/FoodInventoryView.swift:116 | the first position that satisfies the predicate, or -1 exactly when none does |
| FoodInventory.RemoveFirstWithId | FoodCalendar/FoodInventoryView.swift:116-117 | one removal takes away at most one item, and a list it does not shorten is left as it was |
| FoodInventory.RemoveEachById | FoodCalendar/FoodInventoryView.swift:114-119 | the loop removes at most one item per target, never more |
| FoodInventory.RemoveFirstIsFilter | FoodCalendar/FoodInventoryView.swift:116-117 | with unique ids, one removal by id removes every item with that id |
| FoodInventory.RemoveEachIsFilter | FoodCalendar/FoodInventoryView.swift:114-119 | with unique ids, the deletion loop keeps exactly the items whose id was not selected |
| FoodInventory.WithoutIdsCount | FoodCalendar/FoodInventoryView.swift:116-117 | removing a set of ids that all occur in a list with unique ids shrinks it by the size of that set |
| FoodInventory.DeleteRemovesExactlySelected | FoodCalendar/FoodInventoryView.swift:112-120 | with unique ids, deletion removes exactly the items at the chosen rows of the sorted snapshot; the rest stay in their order, and the count drops by the number of rows |
| FoodInventory.FoodInventoryView.constructor | FoodCalendar/FoodInventoryView.swift:7-9 | the view starts from the bound list |
| FoodInventory.FoodInventoryView.DeleteItems | FoodCalendar/FoodInventoryView.swift:112-120 | the loop removes, for each offset in ascending order, the first item whose id matches the snapshot's item at that offset |
| HeaderSections.SearchResult | FoodCalendar/HeaderSections.swift:183-191 | an empty query gives the whole list; otherwise an item is listed exactly when its name contains the query, ignoring case |
| HeaderSections.SearchResultKeepsOrder | FoodCalendar/HeaderSections.swift:189 | the search result keeps the list order and every copy of a matching item |
| HeaderSections.SearchIgnoresQueryCase | FoodCalendar/HeaderSections.swift:189 | a query gives the same result in any case |
| HeaderSections.NextTip | FoodCalendar/HeaderSections.swift:153 | the next index is in range; it is the next tip, or the first tip after the last one |
| HeaderSections.AdvanceTipsIsModular | FoodCalendar/HeaderSections.swift:153 | n ticks move a valid index n places round the five tips |
| HeaderSections.TipsCycle | FoodCalendar/HeaderSections.swift:152-154 | after five ticks the same tip is back, and every tip is reached within five ticks |
| HeaderSections.Header.constructor | FoodCalendar/HeaderSections.swift:38-41 | on appearing, the stored result is the search result and the first tip is shown |
| HeaderSections.Header.ItemsToShow | FoodCalendar/HeaderSections.swift:61 | the whole list for an empty query and the stored result otherwise; whenever the stored result is current, exactly the search result |
| HeaderSections.Header.FilterItems | FoodCalendar/HeaderSections.swift:183-191 | the stored result becomes the search result, and the item list, the query and the tip do not change |
| HeaderSections.Header.SetSearchQuery | FoodCalendar/HeaderSections.swift:47-50 | after typing, the stored result and the list shown are both the search result for the new query (the whole list for an empty query); the item list and the tip do not change |
| HeaderSections.Header.AdvanceTip | FoodCalendar/HeaderSections.swift:152-154 | the index moves to the next tip and stays in range; nothing else changes |
| CalendarGrid.WeekdayOf | FoodCalendar/CalendarGridView.swift:186 | a weekday is a number from 1 (Sunday) to 7 (Saturday) |
| CalendarGrid.LastWeekday | FoodCalendar/CalendarGridView.swift:207-210 | the value is the weekday of the month's last day |
| CalendarGrid.LeadingDays | FoodCalendar/CalendarGridView.swift:180-201 | the padding before the 1st has one cell per weekday before the 1st's weekday, none when the month starts on a Sunday |
| CalendarGrid.MonthDays | FoodCalendar/CalendarGridView.swift:223-235 | one cell per day of the month |
| CalendarGrid.TrailingDays | FoodCalendar/CalendarGridView.swift:204-221 | the padding after the last day fills the week, none when the month ends on a Saturday |
| CalendarGrid.LeadingDaysInPreviousMonth | FoodCalendar/CalendarGridView.swift:189-196 | the leading cells are days of the previous month, ending on its last day |
| CalendarGrid.TrailingDaysInNextMonth | FoodCalendar/CalendarGridView.swift:212-216 | the trailing cells are the next month's days from its 1st, fewer than a week |
| CalendarGrid.GridLengthWholeWeeks | FoodCalendar/CalendarGridView.swift:12 | the cell count is a multiple of seven |
| CalendarGrid.GridIsWholeWeeks | FoodCalendar/CalendarGridView.swift:32-50 | the grid is consecutive days in whole weeks; every day sits in the column of its weekday, and the 1st sits under its own weekday |
| CalendarGrid.GeneratePreviousMonthDates | FoodCalendar/CalendarGridView.swift:180-201 | when the range is well formed, the loop produces exactly the leading days |
| CalendarGrid.GenerateDates | FoodCalendar/CalendarGridView.swift:223-235 | the loop produces the month's days in ascending order |
| CalendarGrid.GenerateNextMonthDates | FoodCalendar/CalendarGridView.swift:204-221 | when the range is well formed, the loop produces exactly the trailing days |
| CalendarGrid.PreviousRangeTrapsOnSunday | FoodCalendar/CalendarGridView.swift:186-194 | the previous-month range is well formed exactly when the month does not start on a Sunday |
| CalendarGrid.NextRangeTrapsOnSaturday | FoodCalendar/CalendarGridView.swift:210-214 | the next-month range is well formed exactly when the month does not end on a Saturday |
| CalendarGrid.December2024Traps | FoodCalendar/CalendarGridView.swift:192-194 | for December 2024 the previous-month range is `31...30` |
| CalendarGrid.November2024Traps | FoodCalendar/CalendarGridView.swift:211-214 | for November 2024 the next-month range is `1...0` |
| CalendarGrid.Drop | FoodCalendar/CalendarGridView.swift:242-245 | a drop either changes nothing, or pushes exactly one item that has the picture and came from the list onto the undo stack, leaving the earlier stack below it, and makes the list shorter |
| CalendarGrid.Undo | FoodCalendar/CalendarGridView.swift:255-259 | no item is lost or gained across the two lists (their multisets together are kept); the items keep their old list as a prefix, the stack keeps a prefix of the old stack, and it shrinks by one unless it was empty |
| CalendarGrid.DropMeaning | FoodCalendar/CalendarGridView.swift:243-246 | a drop with an unknown picture changes nothing; otherwise exactly the first item with that picture is pushed, every item with it is removed, and the rest keep their order |
| CalendarGrid.DropKeepsCopies | FoodCalendar/CalendarGridView.swift:242-245 | after a drop the list holds every copy of each item without the picture and no copy of an item with it |
| CalendarGrid.UndoMeaning | FoodCalendar/CalendarGridView.swift:256-260 | undo pops the most recent deletion and appends it, or does nothing on an empty stack; no item is lost or duplicated |
| CalendarGrid.DropThenUndo | FoodCalendar/CalendarGridView.swift:243-260 | dropping the one item with a picture and undoing restores the stack and the same items, with the restored item moved to the end |
| CalendarGrid.CalendarGridView.constructor | FoodCalendar/CalendarGridView.swift:5-6 | the undo stack starts empty |
| CalendarGrid.CalendarGridView.HandleDrop | FoodCalendar/CalendarGridView.swift:242-247 | the two lists become the drop's result |
| CalendarGrid.CalendarGridView.UndoDelete | FoodCalendar/CalendarGridView.swift:256-260 | the two lists become the undo's result |
| RecipeRecommendations.HasItemNamed | FoodCalendar/RecipeRecommendationsView.swift:32 | true exactly when some item's name equals the ingredient, ignoring case |
| RecipeRecommendations.AllAvailable | FoodCalendar/RecipeRecommendationsView.swift:31-33 | true exactly when every ingredient has a matching item; true for no ingredients |
| RecipeRecommendations.FilteredRecipes | FoodCalendar/RecipeRecommendationsView.swift:29-35 | a recipe is recommended exactly when it is in the list and every ingredient has a matching item |
| RecipeRecommendations.FilteredRecipesKeepsOrder | FoodCalendar/RecipeRecommendationsView.swift:29-35 | recommendations keep the recipe list order |
| RecipeRecommendations.NoIngredientsAlwaysKept | FoodCalendar/RecipeRecommendationsView.swift:31 | a recipe without ingredients is always recommended |
| RecipeRecommendations.MoreFoodKeepsRecipes | FoodCalendar/RecipeRecommendationsView.swift:31-33 | a larger inventory keeps every recommendation, in order |
| RecipeRecommendations.ApplesAloneCookNothing | FoodCalendar/RecipeRecommendationsView.swift:8-12 | with only an "Apple" in stock none of the three shipped recipes is shown, not even the apple pie |
| RecipeRecommendations.NoFallback | FoodCalendar/RecipeRecommendationsView.swift:29-35 | when no recipe qualifies the result is empty |
| RecipeDetail.UsesIngredient | FoodCalendar/RecipeDetailView.swift:11 | true exactly when some ingredient equals the name, ignoring case |
| RecipeDetail.MatchingFoodItems | FoodCalendar/RecipeDetailView.swift:9-13 | an item is listed exactly when its name equals one of the ingredients, ignoring case |
| RecipeDetail.MatchingKeepsOrderAndCopies | FoodCalendar/RecipeDetailView.swift:10-12 | matching items keep their order, and every copy is listed |
| RecipeDetail.NoIngredientsNoMatches | FoodCalendar/RecipeDetailView.swift:11 | a recipe without ingredients matches no item |
| RecipeDetail.ShowsAvailableIngredients | FoodCalendar/RecipeDetailView.swift:68 | the section appears exactly when some item matches an ingredient |
| RecipeDetail.RecommendedRecipeHasMatches | FoodCalendar/RecipeDetailView.swift:68 | a recommended recipe with at least one ingredient always shows the section |

## Left out

- SwiftUI layout, colours, gradients, shadows, animations and dark mode: they have no contract.
- Drop handling: the `NSItemProvider` loading and the hop to the main queue are not modelled. `CalendarGrid.CalendarGridView.HandleDrop` is the body that runs once a picture name has arrived.
- The tip timer is not modelled; `HeaderSections.Header.AdvanceTip` is the body of its callback.
- `DateFormatter` strings (month titles, day labels, "Expires on" text) are locale-dependent and not modelled.
- Calendar: time zones and daylight saving are not modelled. Every day has 86400 seconds. `Date()` is the `now` parameter.
- The statistics screen hard-codes its reference date (2 November 2024); here it is a parameter.
- HeaderSections.Header: the calendar screen passes one item list to both the header and the grid, but in this model `Header.foodItems` and `CalendarGridView.foodItems` are separate fields. The header refreshes its stored search result only when it appears and when the query changes. So after a drop or an undo while a query is typed, the header goes on listing a deleted item, or misses a restored one, until the query changes again. `Header.ItemsToShow` states what is shown in terms of the stored result, but this sharing and the staleness it causes are not modelled.
- Calendar results that can be nil are always present in this model. So these fallbacks are not modelled: the empty list in `itemsExpiringSoon`, the `0.0` bar, the `-1` day count, the `false` row warning in `isExpiringSoon`, and the skipped cell in the grid loops.
- Floating point: the bars are integer counts rather than `Double`, and the ring fill is a `real` rather than a `CGFloat`. The savings ring, the savings text and the chart heights are not modelled.
- Text: `lowercased()` and `localizedCaseInsensitiveContains` fold ASCII letters only. Unicode and locale rules are not modelled.
- `UUID()` is modelled as a number above every id in use. Random generation is not modelled.
- `FoodItem.date` is the only `var` field of the record. No core operation changes it, so the model's record is immutable.
- FoodInventory.SortByDate: a stable insertion sort, which is one of the orders Swift's `sorted` may return. Stability itself is not stated, because Swift's `sorted` does not promise it.
- FoodInventory.DeleteRemovesExactlySelected: proved for lists with unique ids only. With duplicate ids the loop may remove a different copy than the one on the chosen row.
- CalendarGrid.Valid: checks month lengths and the weekday of the 1st. It does not check that the lengths match the real calendar.
- Settings actions (print-only stubs and a support URL), the camera sheet, the tab bar, the sample data, the calendar wrapper, the recipe card and the older statistics view are not part of this model.
- Recipe filtering has no "any ingredient" mode. It does not fall back to the full list when nothing qualifies (`RecipeRecommendations.NoFallback`). The windows are fixed: the statistics window covers the reference day plus three days, and the row warning covers today plus two days.

## Findings

| source | as written | input that shows it | evidently intended | confidence | as-written member | corrected member |
|---|---|---|---|---|---|---|
| FoodCalendar/CalendarGridView.swift:192-194 | the loop runs over `startDay...totalDaysPreviousMonth` with `startDay = total - (weekday of the 1st - 1) + 1` | December 2024, whose 1st is a Sunday: the range is `31...30`, and a closed range with a lower bound above its upper bound traps | no leading cells when the month starts on a Sunday | high; not executed | CalendarGrid.December2024Traps | CalendarGrid.LeadingDays |
| FoodCalendar/CalendarGridView.swift:211-214 | the loop runs over `1...(7 - weekday of the last day)` | November 2024, whose 30th is a Saturday: the range is `1...0`, which traps | no trailing cells when the month ends on a Saturday | high; not executed | CalendarGrid.November2024Traps | CalendarGrid.TrailingDays |

In both cases the as-written loops (`CalendarGrid.GeneratePreviousMonthDates` and `CalendarGrid.GenerateNextMonthDates`) take the well-formed range as a precondition. `CalendarGrid.PreviousRangeTrapsOnSunday` and `CalendarGrid.NextRangeTrapsOnSaturday` prove exactly when that precondition fails. The corrected lists are total, agree with the loops wherever the loops do not trap, and make up the grid proved in `CalendarGrid.GridIsWholeWeeks`.
