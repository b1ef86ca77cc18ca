# Expense tracker views: a verified model

This project models the derived data of a React expense tracker's views
and proves properties of it. Each view works on an in-memory list of
expense (or income) records and shows something computed from them:

- the detail view of one day;
- the "Add Expense" dialog;
- the budget manager;
- the category and daily charts;
- the four summary cards;
- the grouped expense list;
- the month calendar;
- the quote of the day.

Each component is one module.

**Shared foundation**
- `Records`: records, filters, totals and the colour fallback.
- `Tally`: JS objects used as dictionaries, and the forEach loops that fill them.
- `Ranking`: the stable sort, largest first.
- `Breakdown`: per-key sums, sorted.

**Component modules**
`DayDetail`, `AddExpense`, `Budgets`, `Charts`, `SummaryCards`,
`ExpenseList`, `Calendar`, `Quote`.

**Modelling choices**
- A date is a day number (days since 1970-01-01). ISO `YYYY-MM-DD` strings
  compare like these numbers, so `localeCompare` on dates is integer order.
- Amounts are exact `real`s. `Math.round` is `floor(x + 1/2)`.
- A JS object used as a dictionary is a sequence of entries with distinct
  keys, in insertion order. That is the order `Object.entries` lists keys
  that are not array indices.
- State the components keep with `useState` becomes a class with fields:
  - `DayDetail.View`
  - `AddExpense.Dialog`
  - `Budgets.SaveForm`
  - `ExpenseList.Editor`
- The forEach loops that fill dictionaries and maps are methods with loops,
  proved against fold functions (`Tally.SumBy`, `ExpenseList.GroupByDate`,
  `Calendar.BuildDayMap`).

**Behaviour taken from the component code**
- The daily bar chart stops at today in the current month. It does not
  cover the whole month.
- The budget statuses are the class names `destructive` / `warning` /
  `success`.
- The summary card's budget progress uses the month's total spending.
- Duplicate budgets:
  - the category list shows every non-"Overall" budget;
  - the budget card uses the first "Overall" budget.

## Model

| member | source | states |
|---|---|---|
| Records.Filter | src/components/expenses/DayDetailView.tsx:33 | `filter` keeps exactly the elements passing the test, each as often as in the input, and is never longer |
| Records.FilterInOrder | src/components/expenses/DayDetailView.tsx:33 | what `filter` keeps is a subsequence of its input: input order is kept |
| Records.FilterConcat | src/components/expenses/DayDetailView.tsx:33 | filtering a concatenation filters each part and keeps the parts in order |
| Records.Where | src/components/expenses/DayDetailView.tsx:33 | the records with a given key, each as often as in the input, and no others |
| Records.WhereInOrder | src/components/expenses/DayDetailView.tsx:33 | the records with a given key come in input order |
| Records.OnDay | src/components/expenses/DayDetailView.tsx:33-34 | exactly the input records dated that day, each as often as in the input |
| Records.OnDayInOrder | src/components/expenses/DayDetailView.tsx:33-34 | the day's records are a subsequence of the input: input order is kept |
| Records.WithTag | src/components/expenses/BudgetManager.tsx:57 | exactly the records with that category, each as often as in the input |
| Records.WithTagInOrder | src/components/expenses/BudgetManager.tsx:57 | the category's records are a subsequence of the input |
| Records.TotalConcat | src/components/expenses/DayDetailView.tsx:35 | the total of a concatenation is the sum of the parts' totals |
| Records.Weekday | src/components/expenses/MonthCalendarView.tsx:33 | `getDay` of a day number is between 0 (Sunday) and 6 |
| Records.WeekdayFacts | src/components/expenses/MonthCalendarView.tsx:33 | 1970-01-01 is a Thursday; the next day's weekday is one further, modulo 7; a week later is the same weekday |
| Records.Total | src/components/expenses/DayDetailView.tsx:35-36 | the reduce total is never negative when no amount is |
| Records.Round | src/components/expenses/ExpenseCharts.tsx:83 | `Math.round` is the integer within half of its argument, halves rounded up |
| Records.TotalPartition | src/components/expenses/ExpenseSummaryCards.tsx:25-30 | a filter and its complement split the total of a list exactly |
| Records.ColorOf | src/components/expenses/DayDetailView.tsx:153 | a name with a non-empty colour gets it; any other name gets the "Other" colour |
| Tally.Get | src/components/expenses/DayDetailView.tsx:40 | `acc[k] \|\| 0`: 0 for a key the dictionary does not hold |
| Tally.Accumulate | src/components/expenses/DayDetailView.tsx:39-42 | the reduce's dictionary has distinct keys and no more entries than records |
| Tally.KeysFromHas | src/components/expenses/DayDetailView.tsx:39-42 | a key is seen exactly when some record has it |
| Tally.AccumulateFacts | src/components/expenses/DayDetailView.tsx:39-42 | the dictionary's keys are the distinct keys in first-seen order, each key's value is its records' total, the values sum to the total, empty iff no records |
| Tally.Add | src/components/expenses/DayDetailView.tsx:40 | `acc[k] = (acc[k] \|\| 0) + v`: the key is appended only if new; only its value grows, by `v`; the sum grows by `v` |
| Tally.DatesSeenDistinct | src/components/expenses/ExpenseList.tsx:21-24 | the dates in first-seen order have no repeats |
| Tally.DatesSeenHas | src/components/expenses/ExpenseList.tsx:21-24 | a date is listed exactly when some record has it |
| Tally.AccumulateKeys | src/components/expenses/DayDetailView.tsx:39-42 | the dictionary's keys are the records' distinct keys in first-seen order |
| Tally.AccumulateGet | src/components/expenses/DayDetailView.tsx:39-42 | each key's value is the total of the records with that key |
| Tally.AccumulateSum | src/components/expenses/DayDetailView.tsx:39-42 | the values add up to the total of all records |
| Tally.AccumulateEmpty | src/components/expenses/DayDetailView.tsx:142 | the dictionary is empty exactly when there are no records |
| Tally.SumBy | src/components/expenses/ExpenseCharts.tsx:17-18 | the forEach loop leaves the dictionary of the fold: distinct keys in first-seen order, per-key totals, values summing to the total |
| Ranking.Insert | src/components/expenses/DayDetailView.tsx:144-145 | one insertion step of the stable sort: one more entry, the same entries plus the new one, headed by it or by the old head |
| Ranking.InsertSorted | src/components/expenses/DayDetailView.tsx:144-145 | inserting into a largest-first list keeps it largest first |
| Ranking.SortDesc | src/components/expenses/DayDetailView.tsx:144-145 | the sort output is a permutation of its input and is non-increasing |
| Ranking.SortDescKeys | src/components/expenses/DayDetailView.tsx:144-145 | sorting keeps the set of keys and keeps them distinct |
| Ranking.SortDescStable | src/components/expenses/DayDetailView.tsx:144-145 | for every value, the entries holding it keep their input order (stability) |
| Ranking.SortDescMax | src/components/expenses/ExpenseSummaryCards.tsx:35 | no entry is larger than `sort(...)[0]` |
| Ranking.SortDescFirst | src/components/expenses/ExpenseSummaryCards.tsx:35 | `sort(...)[0]` has the largest value and is the first such entry in the input |
| Breakdown.Ranked | src/components/expenses/DayDetailView.tsx:144-145 | the sorted entries are a permutation of the dictionary's entries, largest first |
| Breakdown.SumValuesSort | src/components/expenses/DayDetailView.tsx:144-145 | sorting does not change the sum of the values |
| Breakdown.RankedFacts | src/components/expenses/DayDetailView.tsx:39-47 | a sorted breakdown: one entry per distinct key, each its key's total, summing to the total, largest first, ties in first-seen order, empty iff no records |
| Breakdown.RankedExample | src/components/expenses/DayDetailView.tsx:39-42 | A 30, B 50, A 20 gives A 50 then B 50 |
| Breakdown.RankedFirst | src/components/expenses/ExpenseSummaryCards.tsx:35 | the first sorted entry has the largest sum; ties go to the entry seen first |
| Breakdown.RankedTop | src/components/expenses/ExpenseSummaryCards.tsx:33-35 | the first sorted entry's value is its key's total; no record's key has a larger total |
| Breakdown.RankedFirstKey | src/components/expenses/ExpenseSummaryCards.tsx:33-35 | every key first seen before the top key has a strictly smaller total |
| DayDetail.DayPanel | src/components/expenses/DayDetailView.tsx:33-47 | rows are the day's filter of the list (its entries in input order); total is their sum; chips have distinct tags, one per tag present, each that tag's day total, summing to the total, largest first, tied tags in first-seen order; chips exist iff rows exist |
| DayDetail.TransactionNoun | src/components/expenses/DayDetailView.tsx:77 | "transaction" plus an "s" exactly when the count is not 1 |
| DayDetail.TransactionCount | src/components/expenses/DayDetailView.tsx:77 | the count is the rows of both tabs together; it is 0 iff neither tab has chips |
| DayDetail.View.constructor | src/components/expenses/DayDetailView.tsx:31 | the view opens on the expenses tab |
| DayDetail.View.SelectTab | src/components/expenses/DayDetailView.tsx:85 | a tab click selects that tab; the date and both lists are constant fields, so no total or breakdown changes |
| DayDetail.View.Shown | src/components/expenses/DayDetailView.tsx:127 | the shown panel is the day panel of the active tab's list |
| AddExpense.Errors | src/components/expenses/AddExpenseDialog.tsx:19-24 | no error iff the schema (`Valid`) accepts; each message iff its rule fails (amount not a number, not positive, above 99999999; empty category; note over 200) |
| AddExpense.Defaults | src/components/expenses/AddExpenseDialog.tsx:39-44 | the default values are dated today and rejected, for a missing amount and category |
| AddExpense.ToPayload | src/components/expenses/AddExpenseDialog.tsx:58-63 | the request carries the accepted amount, category and date; the note is dropped exactly when absent or empty |
| AddExpense.Dialog.constructor | src/components/expenses/AddExpenseDialog.tsx:34 | the dialog starts closed, with the defaults |
| AddExpense.Dialog.ApplyDefaultDate | src/components/expenses/AddExpenseDialog.tsx:48-53 | a clicked day becomes the form's date, opens the dialog and is reported used; no date changes nothing |
| AddExpense.Dialog.SetOpen | src/components/expenses/AddExpenseDialog.tsx:73 | opening or closing keeps the values |
| AddExpense.Dialog.PickDate | src/components/expenses/AddExpenseDialog.tsx:143 | the picker changes the date only for days `Selectable` from it, those up to today |
| AddExpense.Dialog.Submit | src/components/expenses/AddExpenseDialog.tsx:56-70 | a request is sent iff the values are valid, carrying their payload; success resets to the defaults and closes; rejection or failure changes nothing |
| Budgets.CategoryBudgets | src/components/expenses/BudgetManager.tsx:28 | exactly the budgets whose category is not "Overall", each as often as given, in input order |
| Budgets.Spent | src/components/expenses/BudgetManager.tsx:57 | a category's spending is between 0 and the month total when no amount is negative |
| Budgets.Pct | src/components/expenses/BudgetManager.tsx:58 | at most 100; `None` exactly for a zero ceiling with spending at most 0 (NaN for 0/0, minus infinity for negative spending); 100 for positive spending over a zero ceiling (`Math.min(Infinity, 100)`) and from a positive ceiling up; below 100 over a non-zero ceiling it is exactly spent/ceiling*100, and it is that value for any spending below a positive ceiling |
| Budgets.PctExamples | src/components/expenses/BudgetManager.tsx:58-59 | 950/1000 is 95 and destructive, 750/1000 75 and warning, 100/1000 10 and success, 2000/1000 capped at 100 |
| Budgets.StatusOf | src/components/expenses/BudgetManager.tsx:59 | destructive iff at least 90, warning iff 70 up to 90, success otherwise (also for NaN) |
| Budgets.StatusMonotone | src/components/expenses/BudgetManager.tsx:58-59 | against a positive ceiling, more spending never gives a less severe status |
| Budgets.Rows | src/components/expenses/BudgetManager.tsx:56-59 | one row per category budget, in order, with its category total, its percentage `Pct(spent, amount)` and that percentage's status |
| Budgets.SpentIsCategoryTotal | src/components/expenses/BudgetManager.tsx:57 | a row's spending equals the category's value in the accumulated category dictionary |
| Budgets.SaveForm.constructor | src/components/expenses/BudgetManager.tsx:21-23 | closed, on "Overall", with an empty amount |
| Budgets.SaveForm.SetOpen | src/components/expenses/BudgetManager.tsx:21 | changes only `open` |
| Budgets.SaveForm.SetCategory | src/components/expenses/BudgetManager.tsx:22 | changes only `category` |
| Budgets.SaveForm.SetAmount | src/components/expenses/BudgetManager.tsx:23 | changes only `amount` |
| Budgets.SaveForm.HandleSave | src/components/expenses/BudgetManager.tsx:30-40 | a request is sent iff the amount parses to a positive number, carrying it, the category and the month; only a successful save clears the amount; category and open never change |
| Charts.CategoryData | src/components/expenses/ExpenseCharts.tsx:16-22 | the sorted category totals: one per category present, each its total, summing to the month's total, largest first, stable; empty iff no expenses |
| Charts.DailyData | src/components/expenses/ExpenseCharts.tsx:24-34 | one bar per day from the first of the month to the earlier of its end and today, numbered from 1, each that day's total, 0 for a day without expenses |
| Charts.Series | src/components/expenses/ExpenseCharts.tsx:30-33 | bar `i` is day `i + 1` with the dictionary's value for that date |
| Charts.Share | src/components/expenses/ExpenseCharts.tsx:83 | 0 for a zero total; otherwise the rounded percentage, within half of the exact share |
| Charts.ShareInRange | src/components/expenses/ExpenseCharts.tsx:36 | with no negative amount, every category's share is between 0 and 100 |
| SummaryCards.ChangePercent | src/components/expenses/ExpenseSummaryCards.tsx:20 | 0 with no previous spending; otherwise within half of the exact percentage change |
| SummaryCards.ChangePercentExamples | src/components/expenses/ExpenseSummaryCards.tsx:20 | 100 after 0 is 0, 150 after 100 is 50, 50 after 100 is -50 |
| SummaryCards.TrendOf | src/components/expenses/ExpenseSummaryCards.tsx:54-60 | up iff positive, down iff negative, flat iff zero |
| SummaryCards.Magnitude | src/components/expenses/ExpenseSummaryCards.tsx:62 | the change without its sign |
| SummaryCards.TrendMatchesTotals | src/components/expenses/ExpenseSummaryCards.tsx:18-20 | when no amount of last month is negative: up means more spent than last month, down means less, equal totals show flat |
| SummaryCards.WeekStart | src/components/expenses/ExpenseSummaryCards.tsx:23 | a Monday, at most six days before today |
| SummaryCards.InWeekIsSameWeek | src/components/expenses/ExpenseSummaryCards.tsx:25-29 | `isWithinInterval` of this week: an expense is in it exactly when its own Monday-start week is today's |
| SummaryCards.WeeklySpend | src/components/expenses/ExpenseSummaryCards.tsx:22-30 | with no negative amount, between 0 and the month's total |
| SummaryCards.WeekSplitsMonth | src/components/expenses/ExpenseSummaryCards.tsx:25-30 | this week's spending plus the rest of the month's is the month's total |
| SummaryCards.HighestDay | src/components/expenses/ExpenseSummaryCards.tsx:33-35 | none iff no expenses; else its total is its date's total, no date's total is larger, and every date seen before it has a smaller one |
| SummaryCards.OverallBudget | src/components/expenses/ExpenseSummaryCards.tsx:38 | the first budget named "Overall", none iff there is none |
| SummaryCards.BudgetProgress | src/components/expenses/ExpenseSummaryCards.tsx:38-42 | no card iff no "Overall" budget; else the first such budget, with percentage `Pct(totalSpend, amount)`, at most 100, non-negative for a positive budget, and the status thresholds |
| ExpenseList.Push | src/components/expenses/ExpenseList.tsx:22 | `(acc[d] ??= []).push(exp)`: the date becomes a key, its group gains the expense at the end, other groups are unchanged |
| ExpenseList.GroupedOf | src/components/expenses/ExpenseList.tsx:21-24 | every group of the reduce is non-empty |
| ExpenseList.GroupedKeys | src/components/expenses/ExpenseList.tsx:21-24 | a date has a group exactly when it is among the dates seen |
| ExpenseList.GroupedFacts | src/components/expenses/ExpenseList.tsx:21-24 | the seen dates are distinct and are the group keys; each group is its date's expenses in input order, non-empty; every expense is grouped |
| ExpenseList.GroupedAt | src/components/expenses/ExpenseList.tsx:21-24 | a date has a group iff some expense has that date, and the group is exactly those expenses in input order |
| ExpenseList.GroupByDate | src/components/expenses/ExpenseList.tsx:21-24 | the loop's groups: keys distinct and naming the groups; each group is its date's expenses, non-empty; every expense is in a group |
| ExpenseList.InsertDateSorted | src/components/expenses/ExpenseList.tsx:26 | inserting a new date into newest-first dates keeps them strictly newest first |
| ExpenseList.SortedDatesFacts | src/components/expenses/ExpenseList.tsx:26 | sorting distinct dates keeps the same dates, distinct and strictly newest first |
| ExpenseList.SortDatesDesc | src/components/expenses/ExpenseList.tsx:26 | a permutation of the dates; distinct dates come out strictly newest first |
| ExpenseList.SumOverDaysSnoc | src/components/expenses/ExpenseList.tsx:51 | one more expense adds its amount to the day totals once, if its date is listed |
| ExpenseList.DayTotalsPartition | src/components/expenses/ExpenseList.tsx:49-51 | over distinct dates covering all expenses, the day totals add up to the total |
| ExpenseList.Render | src/components/expenses/ExpenseList.tsx:37-51 | empty state iff no expenses; else blocks newest first, each its date's expenses and total, every expense shown, block totals adding up to the total |
| ExpenseList.Blocks | src/components/expenses/ExpenseList.tsx:49-51 | one block per date in order, holding its group and the group's total |
| ExpenseList.Editor.constructor | src/components/expenses/ExpenseList.tsx:18 | no expense is being edited; the dialog is closed |
| ExpenseList.Editor.StartEdit | src/components/expenses/ExpenseList.tsx:79 | the pencil opens the dialog (`IsOpen`) on that expense |
| ExpenseList.Editor.OnOpenChange | src/components/expenses/ExpenseList.tsx:98-101 | closing clears the expense, so the dialog (`IsOpen`) is closed; opening changes nothing |
| Calendar.LeadingBlanks | src/components/expenses/MonthCalendarView.tsx:32-33 | fewer than 7; 0 for a Monday start, 6 for Sunday; the header at that column names the first day's weekday |
| Calendar.Cells | src/components/expenses/MonthCalendarView.tsx:62-66 | the blanks first, then the month's days, each in the month, in increasing order |
| Calendar.CellColumn | src/components/expenses/MonthCalendarView.tsx:33 | a day's cell lands in column `(weekday + 6) % 7` |
| Calendar.CellsLayout | src/components/expenses/MonthCalendarView.tsx:22 | every day of the month is in exactly one cell, under the header of its weekday |
| Calendar.AddToDay | src/components/expenses/MonthCalendarView.tsx:36-40 | the forEach body: the date becomes a key, its total and its category subtotals' sum grow by the amount, other dates are unchanged |
| Calendar.DayMapKeys | src/components/expenses/MonthCalendarView.tsx:35-40 | a date has an entry exactly when it is among the dates seen |
| Calendar.DayMapHas | src/components/expenses/MonthCalendarView.tsx:35-40 | a date has an entry exactly when some expense carries it |
| Calendar.DayMapDomain | src/components/expenses/MonthCalendarView.tsx:36-37 | in the map the loop builds (`DayMapOf`), a date has an entry iff some expense has that date |
| Calendar.DayMapValue | src/components/expenses/MonthCalendarView.tsx:38-39 | a date's entry holds that date's total and its per-category subtotals |
| Calendar.BuildDayMap | src/components/expenses/MonthCalendarView.tsx:35-40 | the loop's map: an entry iff an expense has the date, its total, its category subtotals adding up to the total; keys distinct |
| Calendar.DayMapFacts | src/components/expenses/MonthCalendarView.tsx:35-40 | the fold's map and its keys satisfy all of the above for every date at once |
| Calendar.DayTotals | src/components/expenses/MonthCalendarView.tsx:46 | one total per key, in order |
| Calendar.MaxDayTotal | src/components/expenses/MonthCalendarView.tsx:46 | at least 1 and at least every total, and equal to 1 or to one of them |
| Calendar.Intensity | src/components/expenses/MonthCalendarView.tsx:71 | 0 without data; at most 1; 1 from the maximum up; otherwise the day's share of the maximum |
| Calendar.IntensityExamples | src/components/expenses/MonthCalendarView.tsx:45-47 | a zero month divides by 1 and gives 0; 50 of 100 gives 0.5; 150 of 100 gives 1 |
| Calendar.IntensityIsShare | src/components/expenses/MonthCalendarView.tsx:45-47 | for the map's own maximum, a day's intensity is exactly its share of the busiest day, in [0, 1] |
| Calendar.Opacity | src/components/expenses/MonthCalendarView.tsx:104 | between 0.4 and 1 for intensities in [0, 1] |
| Calendar.TopCategory | src/components/expenses/MonthCalendarView.tsx:74-76 | none without data; some whenever the day has categories; always one of the day's categories |
| Calendar.TopCategoryIsLargest | src/components/expenses/MonthCalendarView.tsx:74-76 | for a day with expenses, the top category has the largest subtotal, and every category seen before it that day has a smaller one |
| Quote.JsRem | src/components/expenses/MedievalQuote.tsx:25 | `%` truncating toward zero: the Euclidean remainder for non-negative dividends, in (-n, 0] and congruent otherwise |
| Quote.QuoteOfDay | src/components/expenses/MedievalQuote.tsx:25 | a saying exists iff the index is in the table; for a day of the year of at least 0, it is entry `day % 12` |
| Quote.SayingsDistinct | src/components/expenses/MedievalQuote.tsx:4-17 | the twelve sayings are pairwise different |
| Quote.QuotePeriodic | src/components/expenses/MedievalQuote.tsx:25 | days twelve apart get the same saying |
| Quote.QuoteChangesDaily | src/components/expenses/MedievalQuote.tsx:21-25 | consecutive days of a 365- or 366-day year, including the last day to January 1st, get different sayings |

## Left out

- Network mutations and their toasts are left out:
  - the insert, upsert and delete requests;
  - the delete handlers of the day view, the budget manager and the list.

  Where a mutation's outcome drives local state, it is a boolean parameter (`insertSucceeds`, `upsertSucceeds`).
- Rendering is left out: JSX, CSS classes, recharts, the `Progress` bar, icons and currency formatting. So are the `isToday`/`isFuture` styling of calendar cells and the disabled future days there.
- The date library is replaced by parameters:
  - the month's first and last days (`monthStart`, `monthEnd`);
  - today;
  - the day of the year.

  Weekdays are computed from day numbers.
- `Charts.DailyData` requires that the month has started (`monthStart <= today`). The month picker never moves past the current month, and the interval enumeration needs start <= end.
- The millisecond arithmetic that derives the day of the year from the clock is left out; the day of the year is a parameter.
- Floating point is left out. Amounts are exact reals, so rounding error, NaN and infinity are not modelled.
  - `Budgets.Pct` writes the two results that are not a number at most 100 as `None`: NaN (0 over 0) and minus infinity (negative spending over a zero ceiling).
  - `Budgets.Pct` caps a positive amount over a zero ceiling (infinity) at 100.
- Budgets.Pct: for a negative ceiling the contract does not say whether the result is the ratio or the cap of 100; it says only that a result below 100 is the exact ratio. The components never produce a negative ceiling: saving a budget rejects amounts at or below 0.
- `parseFloat` is a parameter of `Budgets.SaveForm.HandleSave`, and the zod coercion of the amount is an `Option<real>` field. The parsers themselves are not modelled.
- The note length limit counts `seq<char>` elements, not UTF-16 code units.
- The colour tables' contents are left out: `Records.ColorOf` takes the table as a parameter.
- `Calendar.TopCategory`: the dot's fallback colour when there is no top category is presentation.
- `ExpenseList.GroupByDate` does not state the order of its keys beyond their being distinct, because the list sorts them right afterwards.
- The month picker is not part of this model: it only steps the month with the date library against the clock.
- The edit-expense dialog and the data hooks are not part of this model.
- The weekly card's count line is left out. It shows `expenses.length` followed by "transactions", always plural, and is display text only.
