# Expenso finance tracker — Dafny model

This project models the logic of Expenso, a personal finance tracker. The
central part is the in-memory store: transactions, categories, budgets and
the colour theme, with the operations that change them. That includes the
sweep that turns due recurring transactions into new records. Around the
store sit the read-only computations the views make from a snapshot of it:

- the filter of the transaction list (date window, global search, column filters);
- the dashboard's monthly totals, all-time balance and savings rate;
- the expense chart's per-category breakdown and monthly series;
- the budget panel's spend, usage percentage and colour band;
- the add-transaction form's validator and submit handler.

Modules, one per source file (plus two of shared vocabulary):

| file | module | models |
|---|---|---|
| seqs.dfy | `Seqs` | `filter`, `reduce` sums, `reverse` and string `includes`, with their laws |
| text.dfy | `Text` | `toLowerCase` (ASCII), `trim`, integer `toString`, the `parseFloat` outcome `Parsed` |
| dates.dfy | `Dates` | calendar dates and the date-fns operations used: `addDays`, `addMonths`, `addYears`, `startOfWeek`/`endOfWeek`, `startOfMonth`/`endOfMonth`, `subMonths`, `format` |
| types.dfy | `Types` | `src/types.ts` |
| recurrence.dfy | `Recurrence` | `getNextRecurringDate` |
| store.dfy | `Store` | `src/store.ts`: a class `ExpenseStore` whose methods replace its fields |
| transaction_list.dfy | `TransactionList` | `getDateRange` and `filteredTransactions` |
| dashboard.dfy | `Dashboard` | the dashboard metrics |
| expense_chart.dfy | `ExpenseChart` | the breakdown, total and monthly series |
| budget_alerts.dfy | `BudgetAlerts` | category spend, `handleSetBudget`, percentage and band |
| add_transaction.dfy | `AddTransactionForm` | `validateForm` and `handleSubmit` |

Modelling choices:

- Amounts are integers (whole currency units). Percentages and the savings rate are `real`.
- A date is a (year, month, day) triple in the proleptic Gregorian calendar. `CalendarDate` is the subset of triples that name a real day.
- "Now"/"today" is a parameter. The month labels `format(d, 'MMM yyyy')` are modelled as `YearMonth` values, which name months one-to-one just as the labels do.
- Every id that `crypto.randomUUID()` would produce is passed in by the caller, with the precondition that it is not already in use.
- What `parseFloat` makes of a text field is passed in as `Parsed` (`NaN` or a number).
- Each store operation is specified by a pure function of the old collection, such as `TransactionsAfterDelete`. The matching method of `ExpenseStore` is proved to assign exactly that result, to leave the other fields alone and to keep the invariant `Valid()`. The invariant says transaction ids are unique, category ids are unique, and there is at most one budget per category.
- The sweep `ProcessRecurringTransactions` keeps the source's loop: it pushes one copy per due template onto a local list, then appends the list when it is not empty.

Two facts about the code are stated as they are:

- The store does not validate amounts. `ExpenseStore.AddTransaction` and `ExpenseStore.SetBudget` accept any integer. Only the add-transaction form and the budget editor check amounts.
- The sweep never changes a template. A template that is due stays due, and a second sweep on the same day materialises it again (`Store.SweepRepeatsDueTemplates`). The sweep is therefore not idempotent.

Weeks start on Sunday, as date-fns' `startOfWeek` does by default, not on Monday as ISO weeks do.

## Model

| member | source | states |
|---|---|---|
| `Recurrence.Advance` | src/store.ts:33-45 | the next occurrence is strictly later than the date it advances from |
| `Recurrence.NextRecurringDate` | src/store.ts:33-45 | the date is returned unchanged exactly when the interval is missing (the `default` branch that `recurringInterval!` reaches) |
| `Recurrence.WeeklyIsSevenDays` | src/store.ts:36-37 | weekly advances by seven days: going back seven days from the result gives the date again |
| `Recurrence.MonthlyIsNextMonth` | src/store.ts:38-39 | monthly lands in the next calendar month, with the day clamped to that month's length |
| `Recurrence.YearlyIsNextYear` | src/store.ts:40-41 | yearly keeps month and day in the next year, except that 29 February becomes 28 February |
| `Recurrence.AdvanceExamples` | src/store.ts:33-45 | 31 Jan 2024 monthly gives 29 Feb 2024; 31 Jan 2023 gives 28 Feb 2023; 29 Feb 2024 yearly gives 28 Feb 2025; weekly crosses a year end |
| `Dates.DaysInMonth` | src/store.ts:39-41 | months have 28 to 31 days, and 29 only for February of a leap year |
| `Dates.AddDays` | src/store.ts:37 | adding days gives a real date that is not earlier, and strictly later for a positive count |
| `Dates.AddSubDays` | src/store.ts:37 | adding and subtracting the same number of days are inverse |
| `Dates.AddOneMonth` | src/store.ts:39 | `addMonths(d, 1)`: the month index grows by one and the day is the smaller of the old day and the new month's length |
| `Dates.AddOneYear` | src/store.ts:41 | `addYears(d, 1)`: next year, same month, same day except 29 February to 28 February |
| `Dates.LessEqTotalOrder` | src/store.ts:117 | the date comparison the sweep uses is a total order |
| `Dates.SubMonths` | src/components/ExpenseChart.tsx:103 | going back `i` months lowers the month index by `i` and gives a valid month |
| `Dates.InOwnWeek` | src/components/TransactionList.tsx:29-30 | a day lies between the start and the end of its own week |
| `Dates.InMonthIffSameMonth` | src/components/TransactionList.tsx:31-32 | a date lies between the first and last day of a month exactly when it is in that month |
| `Dates.FormatShape` | src/components/TransactionList.tsx:61 | `yyyy-MM-dd` text of a four-digit-year date is ten characters with dashes at positions 4 and 7, digits elsewhere, and its three fields read back as the year, the month and the day |
| `Text.PadZeroRoundTrip` | src/components/TransactionList.tsx:61 | a zero-padded number is all digits and reads back as the number |
| `Text.LeadingZerosIgnored` | src/components/TransactionList.tsx:61 | leading zeros do not change the number a digit string reads as |
| `Dates.WeekdaySubDays` | src/components/TransactionList.tsx:29 | going back `k` days moves the weekday back by `k` modulo 7 |
| `Dates.WeekdayAddDays` | src/components/TransactionList.tsx:30 | going forward `k` days moves the weekday forward by `k` modulo 7 |
| `Dates.WeekIsSundayToSaturday` | src/components/TransactionList.tsx:29-30 | the week starts on a Sunday, ends on a Saturday, and the day lies `Weekday(d)` days after the start |
| `Text.Lower` | src/components/TransactionList.tsx:49-51 | lower-casing keeps the length, maps each character, and leaves no upper-case ASCII letter |
| `Text.LowerIdempotent` | src/components/TransactionList.tsx:49-51 | lower-casing twice is lower-casing once |
| `Text.TrimEmptyIffBlank` | src/components/AddTransaction.tsx:27 | a string trims to empty exactly when every character is white space |
| `Text.IntToString` | src/components/TransactionList.tsx:52 | the amount text is non-empty and starts with a minus exactly for negative amounts |
| `Text.IntToStringInjective` | src/components/TransactionList.tsx:52 | different amounts have different texts |
| `Store.DefaultCategories` | src/store.ts:22-31 | there are eight seed categories |
| `Store.DefaultCategoriesUnique` | src/store.ts:22-31 | the seed categories have distinct ids |
| `Store.Stamp` | src/store.ts:54-66 | the stored record has the fresh id and the input's fields; when it is recurring with an interval its next date is the date advanced by that interval (weekly, monthly, yearly), which is later than the date; otherwise the next date is copied from the input |
| `Store.AddTransactionSpec` | src/store.ts:54-69 | adding appends exactly one record at the end, keeps the earlier records, adds exactly the fresh id to the id set, and keeps ids unique |
| `Store.DeleteUndoesAdd` | src/store.ts:54-74 | deleting the id just added restores the list |
| `Store.DeleteTransactionSpec` | src/store.ts:71-74 | deleting keeps exactly the records with another id, in order; it does nothing for an absent id and is idempotent |
| `Store.ReplaceWhereSpec` | src/store.ts:77-79 | mapping with replace-on-match changes exactly the matching positions and is the identity when nothing matches |
| `Store.UpdateTransactionSpec` | src/store.ts:75-80 | updating keeps length and order, replaces exactly the records with the same id, does nothing for an unknown id, and keeps ids unique |
| `Store.SetBudgetSpec` | src/store.ts:81-87 | after setting, the new budget is last and the only one for its category, and the other budgets keep their order |
| `Store.Toggled` | src/store.ts:88-91 | toggling always changes the theme |
| `Store.ToggleTwice` | src/store.ts:88-91 | toggling twice restores the theme |
| `Store.AddCategorySpec` | src/store.ts:92-95 | a new category goes last with the fresh id, and category ids stay unique |
| `Store.UpdateCategorySpec` | src/store.ts:96-101 | updating a category keeps length and order and replaces exactly the entries with the same id |
| `Store.DeleteCategorySpec` | src/store.ts:102-107 | after deleting a category, no category, transaction or budget refers to its id, and everything else survives in order |
| `Store.Materialize` | src/store.ts:119-130 | a copy has the fresh id, is dated at the template's next date, and its own next date is one interval later; all other fields are the template's |
| `Store.DueCopiesSpec` | src/store.ts:113-133 | a sweep makes one copy per due template, each copy a materialisation of a due template |
| `Store.DueTemplateIsCopied` | src/store.ts:113-133 | every due template is materialised |
| `Store.NothingDueNoCopies` | src/store.ts:113-135 | when nothing is due, nothing is materialised |
| `Store.DueIndices` | src/store.ts:113-118 | the positions of the due templates, strictly increasing, and every due position is listed |
| `Store.DueCopiesInOrder` | src/store.ts:113-133 | the `j`-th copy is the materialisation of the `j`-th due template with its reserved id |
| `Store.DueCopiesIds` | src/store.ts:121 | the copies take the reserved ids and have distinct ids |
| `Store.SweepRepeatsDueTemplates` | src/store.ts:113-139 | the template is unchanged by a sweep, stays due, and a second sweep materialises it again |
| `Store.ExpenseStore.constructor` | src/store.ts:50-53 | first run: no transactions or budgets, the seed categories, the light theme |
| `Store.ExpenseStore.AddTransaction` | src/store.ts:54-70 | appends the stamped record; nothing else changes |
| `Store.ExpenseStore.DeleteTransaction` | src/store.ts:71-74 | removes the records with the id; nothing else changes |
| `Store.ExpenseStore.UpdateTransaction` | src/store.ts:75-80 | replaces the records with the id; nothing else changes |
| `Store.ExpenseStore.SetBudget` | src/store.ts:81-87 | drops the category's budget and appends the new one; nothing else changes |
| `Store.ExpenseStore.ToggleTheme` | src/store.ts:88-91 | flips the theme; nothing else changes |
| `Store.ExpenseStore.AddCategory` | src/store.ts:92-95 | appends the category with the fresh id; nothing else changes |
| `Store.ExpenseStore.UpdateCategory` | src/store.ts:96-101 | replaces the categories with the id; nothing else changes |
| `Store.ExpenseStore.DeleteCategory` | src/store.ts:102-107 | removes the category, its transactions and its budgets in one step; the theme is unchanged |
| `Store.ExpenseStore.ProcessRecurringTransactions` | src/store.ts:108-139 | appends, in template order, one copy per due template and leaves existing records as they were; every method keeps the store invariant |
| `TransactionList.GetDateRange` | src/components/TransactionList.tsx:24-36 | there is no window exactly for `all`, and every window contains today |
| `TransactionList.FindCategory` | src/components/TransactionList.tsx:50 | finds the first category with the id, or none when no category has it |
| `TransactionList.FilteredSpec` | src/components/TransactionList.tsx:38-84 | the list shows a subsequence of the transactions, in order, holding exactly those that pass the predicate |
| `TransactionList.NoRestrictionKeepsAll` | src/components/TransactionList.tsx:38-84 | with range `all`, no search and no column filter, every transaction is shown |
| `TransactionList.SearchIgnoresColumns` | src/components/TransactionList.tsx:47-57 | with a search term, the column filters have no effect |
| `TransactionList.SearchCaseInsensitive` | src/components/TransactionList.tsx:48-56 | the search ignores the case of the term |
| `TransactionList.EmptyTermMatchesEverything` | src/components/TransactionList.tsx:48 | an empty term would match everything, which is why only a non-empty term searches |
| `TransactionList.ColumnsAreConjunctive` | src/components/TransactionList.tsx:59-83 | the column filters pass exactly when each one set alone passes, and unset filters pass everything |
| `TransactionList.ColumnsCaseInsensitive` | src/components/TransactionList.tsx:65-72 | the description and category filters ignore the case of what is typed |
| `TransactionList.UnresolvedCategoryHidden` | src/components/TransactionList.tsx:65-68 | a category filter hides transactions whose category id resolves to no category |
| `TransactionList.KindFilterIsEquality` | src/components/TransactionList.tsx:79-81 | the type filter keeps exactly the transactions of that type |
| `TransactionList.DayWindowIsToday` | src/components/TransactionList.tsx:27-28 | the day window keeps exactly today's transactions |
| `TransactionList.MonthWindowIsCurrentMonth` | src/components/TransactionList.tsx:31-32 | the month window keeps exactly the current month's transactions |
| `TransactionList.WeekWindowBounds` | src/components/TransactionList.tsx:29-30 | the week window runs from the Sunday on or before today (a Sunday, `Weekday(now)` days back) to the Saturday six days later, and contains today |
| `TransactionList.WeekExample` | src/components/TransactionList.tsx:29-30 | the week of Wednesday 10 January 2024 is Sunday 7 to Saturday 13 January |
| `Dashboard.SavingsRate` | src/components/Dashboard.tsx:31 | zero without positive income; otherwise rate × income = (income − expenses) × 100, so at most 100 when expenses are not negative |
| `Dashboard.BalanceIsIncomeMinusExpenses` | src/components/Dashboard.tsx:28-29 | the all-time balance is all income minus all expenses |
| `Dashboard.TotalsAdditive` | src/components/Dashboard.tsx:20-29 | balance, monthly income and monthly expenses are additive over concatenated lists |
| `Dashboard.OtherMonthsOnlyMoveBalance` | src/components/Dashboard.tsx:12-29 | a transaction outside the current month changes the balance only |
| `Dashboard.MonthWindowIsMonthlyTransactions` | src/components/Dashboard.tsx:15-18 | the dashboard's month filter keeps the same transactions as the list's `month` window |
| `Dashboard.EmptyIsZero` | src/components/Dashboard.tsx:15-31 | with no transactions all four figures are zero |
| `Dashboard.MarchExample` | src/components/Dashboard.tsx:12-31 | income 1000 and expense 200 in March 2024 give balance 800, income 1000, expenses 200 and rate 80 |
| `BudgetAlerts.CategoryExpensesSpec` | src/components/BudgetAlerts.tsx:10-14 | spend is zero for no transactions, and each expense of the category adds its amount while anything else adds nothing |
| `BudgetAlerts.CategoryExpensesNonNegative` | src/components/BudgetAlerts.tsx:10-14 | with positive amounts, spend is not negative |
| `BudgetAlerts.FindBudget` | src/components/BudgetAlerts.tsx:33 | `Array.find`: the first budget of the category, or none exactly when no budget has that category |
| `BudgetAlerts.Percentage` | src/components/BudgetAlerts.tsx:35 | zero without a budget; otherwise percentage × limit = expenses × 100 |
| `BudgetAlerts.BandThresholds` | src/components/BudgetAlerts.tsx:74-76 | rose above 90, amber above 70 up to 90, emerald otherwise; more spending never gives a milder band |
| `BudgetAlerts.BarWidth` | src/components/BudgetAlerts.tsx:78 | the bar width is the percentage capped at 100 |
| `BudgetAlerts.GuardedSetKeepsLimitsPositive` | src/components/BudgetAlerts.tsx:16-23 | setting a positive budget keeps every limit positive |
| `BudgetAlerts.HandleSetBudget` | src/components/BudgetAlerts.tsx:16-23 | the budget is set and the editor closed exactly for a number above zero; otherwise nothing changes |
| `BudgetAlerts.RowFor` | src/components/BudgetAlerts.tsx:32-35 | the row shows the category's first budget and its expenses; without a budget it shows 0 percent in emerald; with one, percentage × limit = expenses × 100; the colour band and the bar width follow the percentage |
| `ExpenseChart.Slices` | src/components/ExpenseChart.tsx:86-96 | one entry per category, carrying the category's all-time expense sum |
| `ExpenseChart.Insert` | src/components/ExpenseChart.tsx:98 | inserting adds exactly the one entry |
| `ExpenseChart.InsertSorted` | src/components/ExpenseChart.tsx:98 | inserting into a largest-first list keeps it largest first |
| `ExpenseChart.SortByValue` | src/components/ExpenseChart.tsx:98 | the sort gives a permutation of its input, largest value first |
| `ExpenseChart.SumSortByValue` | src/components/ExpenseChart.tsx:98-100 | sorting does not change the sum of the values |
| `ExpenseChart.BreakdownEntry` | src/components/ExpenseChart.tsx:84-98 | every entry is a selected category with a positive value equal to its expense sum |
| `ExpenseChart.BreakdownComplete` | src/components/ExpenseChart.tsx:84-98 | every selected category with positive spend has an entry |
| `ExpenseChart.DropZeros` | src/components/ExpenseChart.tsx:97-100 | with non-negative values, dropping zero entries keeps the sum |
| `ExpenseChart.SumSlices` | src/components/ExpenseChart.tsx:86-100 | the entries sum to the categories' total spend |
| `ExpenseChart.TotalIsSelectedSpend` | src/components/ExpenseChart.tsx:100 | with positive amounts, the total is the all-time spend of the selected categories |
| `ExpenseChart.MonthsSpec` | src/components/ExpenseChart.tsx:102-105 | exactly `n` consecutive month labels, oldest first, ending with the current month |
| `ExpenseChart.TotalsKeys` | src/components/ExpenseChart.tsx:108-124 | the reduce writes one key per category name |
| `ExpenseChart.TotalsAt` | src/components/ExpenseChart.tsx:108-124 | a category's key holds its monthly expense sum unless a later category has the same name |
| `ExpenseChart.MonthlyDataSpec` | src/components/ExpenseChart.tsx:107-127 | one bucket per month label; each has the label and one key per selected category name other than `month`, zero sums included, holding the category's expense sum for that month |
| `ExpenseChart.InitialSelection` | src/components/ExpenseChart.tsx:79-81 | the ids of the first five categories, or of all when there are fewer |
| `ExpenseChart.DefaultSelection` | src/components/ExpenseChart.tsx:79-81 | with the seed categories, ids 1 to 5 are selected |
| `AddTransactionForm.ErrorFieldsSpec` | src/components/AddTransaction.tsx:21-36 | each field is reported exactly when its own check fails; a description fails when it is only white space |
| `AddTransactionForm.ValidateForm` | src/components/AddTransaction.tsx:21-39 | the error dictionary holds exactly the failed fields with their messages, and the form is valid exactly when it is empty |
| `AddTransactionForm.InitialFormErrors` | src/components/AddTransaction.tsx:10-36 | a fresh form reports exactly the amount and the description |
| `AddTransactionForm.NaNAmountPasses` | src/components/AddTransaction.tsx:24-26 | as written, an unparsable amount passes once the other fields are filled |
| `AddTransactionForm.NaNAmountExample` | src/components/AddTransaction.tsx:24-26 | the amount text "abc" passes validation |
| `AddTransactionForm.ErrorFieldsStrictSpec` | src/components/AddTransaction.tsx:24-26 | the intended check differs only for NaN, and a form that passes it has a positive amount, a description and a category |
| `AddTransactionForm.ValidateFormStrict` | src/components/AddTransaction.tsx:21-39 | the error dictionary holds exactly the fields failing the intended checks |
| `AddTransactionForm.Submit` | src/components/AddTransaction.tsx:41-51 | a form that passes the corrected amount check appends one transaction with the fresh id and the parsed positive amount; any other form changes nothing |
| `AddTransactionForm.SubmittedIsPlain` | src/components/AddTransaction.tsx:45-49 | the stored record carries the form's fields and is never due for the sweep; the payment method it also carries is not modelled |

The types of `src/types.ts` are datatypes in `Types`. Their shape gives the
listed facts directly. A transaction's type is `Income` or `Expense`. The
three recurrence fields are independent `Option`s. A budget is a
(category id, limit) pair, and transactions refer to categories by id.
`Theme` has two values and `DateRange` four. The type filter is `AllTypes`
or one transaction type.

## Left out

- Persistence of the store in local storage under the key `expense-tracker` (a library's serialisation, not visible here).
- `crypto.randomUUID`: fresh ids are parameters with a not-in-use precondition.
- Parsing of date strings, `toISOString`, time of day and time zones. Dates are calendar days, so `startOfDay`/`endOfDay` become the day itself.
- IEEE floating point: fractional and NaN amounts, `toFixed`, `Math.round` and `Intl.NumberFormat` currency text. Amounts are integers.
- `parseFloat` text parsing: its result is an input.
- Store.ExpenseStore.AddTransaction: a NaN or fractional amount, which the store would accept, cannot be stored, because amounts are integers.
- AddTransactionForm.Submit: follows the corrected amount check (`ValidateFormStrict`), not `validateForm` as written at src/components/AddTransaction.tsx:44. As written, a NaN parse passes and the store would receive a NaN amount, which an integer amount cannot hold. For every amount that parses to a number the two checks agree (`AddTransactionForm.ErrorFieldsStrictSpec`), so the model differs only there.
- BudgetAlerts.Percentage: requires a non-zero limit; JavaScript would give Infinity or NaN. The guarded editor only stores positive limits (`BudgetAlerts.GuardedSetKeepsLimitsPositive`).
- BudgetAlerts.RowFor: requires all limits positive, the state the guarded editor keeps.
- ExpenseChart.SortByValue: stability is a property of the definition (ties keep category order) but is not stated as a lemma.
- Text.Lower: case folding covers ASCII letters only.
- Dates.FormatShape: stated for years 0 to 9999 only.
- `SortOption` (declared in src/types.ts but unused by the core) and the list's sorting UI.
- The `paymentMethod` form field: it is validated and the spread carries it into the stored record, but it is not modelled as a transaction field.
- PDF and CSV export, with its month-on-month comparison and insight text.
- src/components/TransactionForm.tsx, Sidebar.tsx and App.tsx, the routing after submit, chart geometry and tooltips. TransactionForm.tsx is not part of this model.

## Findings

| source | as written | input that shows it | evidently intended | confidence | as-written member | corrected member |
|---|---|---|---|---|---|---|
| src/components/AddTransaction.tsx:24-26 | the amount is rejected only when the text is empty or parses to a number at most 0; `NaN <= 0` is false, so text that does not parse passes, and `handleSubmit` then stores a NaN amount | amount "abc", description "Lunch", category "1", payment "cash" | reject any amount that does not parse to a positive number, as the budget editor does with `isNaN` | low, not executed; the amount input has `type="number"` (src/components/AddTransaction.tsx:75), which in a browser usually hands over an empty string rather than unparsable text | `AddTransactionForm.NaNAmountExample` | `AddTransactionForm.ValidateFormStrict` |
