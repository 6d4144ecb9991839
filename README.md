# Personal-finance calculators: a Dafny model

This project models the two numeric engines of a pair of browser
personal-finance widgets.

- **The compound-interest calculator** (`script.js`). `generateProjection` is a
  month-by-month fold. Each month earns interest on the previous balance
  first, then the monthly contribution is added. The fold emits one row per
  month with the running total invested and the accumulated interest. The
  results table and the chart are views over those rows. The yearly views
  keep the rows that end a year. The monthly table keeps the first twelve
  months and the last one. A yearly line's interest is summed by a loop over
  the year's months. `validateInputs`, the period guard and the years-to-months
  conversion in `calculate`, and the string cleanup of `parseCurrency` complete
  the component.
- **The expense tracker** (`gastos.js`). The controller holds categories,
  expenses, the monthly income and the active month and year. For each
  category, `renderResumo` computes the allocation (income × percentage / 100),
  the amount spent in the active period, the utilisation (0 when nothing is
  allocated) and the remainder, and accumulates the totals. The controller's
  actions are: append an expense (with validation), delete by id, clear the
  active period, and clamp-and-set a category percentage. The percentage total
  is checked against 100.

Files and modules:

- `wrappers.dfy`, module `Wrappers`: the shared `Option` type.
- `projection.dfy`, module `CompoundInterest`: the row type, the recursive
  balance `Balance` and the closed-form total `Invested`, the projection loop `GenerateProjection` proved against the function
  `Projection`, `Calculate` and `ValidateInputs`.
- `projection_views.dfy`, module `ProjectionViews`: the row selections, the
  interest loop `PeriodInterest`, the yearly and monthly tables and the chart
  series.
- `text.dfy`, module `Text`: the currency cleanup, `ParseCurrency` and `Trim`.
- `budget.dfy`, module `Budget`: the expense and category types, the date a
  new expense receives, the period filter, the `Summarize` loop behind `renderResumo`, and the percentage
  helpers.
- `expense_controller.dfy`, module `ExpenseTracker`: the class
  `ExpenseController` and its state-changing actions.

Money is `real`, so no rounding is modelled. An expense date is reduced to a
`Period(year, month)`.

## Model

| member | source | states |
|---|---|---|
| `CompoundInterest.GenerateProjection` | script.js:184-214 | The loop with its running balance and running total invested returns exactly the month-by-month projection `Projection`: max(period, 0) rows, row i being month i + 1 computed from the balance after i and i + 1 months. The per-row promises are the four lemmas below. |
| `CompoundInterest.ProjectionNumbered` | script.js:189-203 | The projection has max(period, 0) rows and row i has month i + 1. |
| `CompoundInterest.ProjectionChained` | script.js:186-190 | Row 1's previous balance is the initial amount, and each later row's previous balance is the prior row's final balance. |
| `CompoundInterest.ProjectionInterestFirst` | script.js:193-199 | Each row: interest = previous balance × rate, and final = previous + interest + contribution. |
| `CompoundInterest.ProjectionTotals` | script.js:200-209 | Row i has totalInvested = initial + (i+1)·contribution, and totalInterest = finalBalance − totalInvested. |
| `CompoundInterest.PeriodInMonths` | script.js:166 | The period in months is positive exactly when the period is. Months are taken as given, and years become a multiple of 12 whose twelfth is the number of years. |
| `CompoundInterest.MonthlyRate` | script.js:169-175 | A monthly rate is the percentage divided by 100, so it is non-negative for a non-negative percentage. An annual rate gives the equivalent monthly rate passed in by the caller. |
| `CompoundInterest.ValidateInputs` | script.js:143-150 | Inputs with a non-positive period, or with a negative initial amount, rate or contribution, are rejected. Accepted inputs give a positive number of months for either period type. |
| `CompoundInterest.Calculate` | script.js:157-177 | It gives no projection exactly when period <= 0. Otherwise it gives the projection at the monthly rate over period months, or 12·period months when the type is years. |
| `CompoundInterest.ZeroRateBalance` | script.js:186-200 | With rate 0, the balance after k months equals the initial amount plus k contributions. |
| `CompoundInterest.ZeroRateEarnsNothing` | script.js:193-209 | With rate 0, every row has zero monthly interest and zero accumulated interest, and its final balance is initial + (i+1)·contribution. |
| `CompoundInterest.NoLossBalance` | script.js:186-200 | With a non-negative initial amount, rate and contribution, the balance after k months is at least what was invested, and that is at least 0. |
| `CompoundInterest.ValidatedProjectionEarnsNoLoss` | script.js:143-150 | Inputs accepted by `validateInputs` (initial, rate and contribution >= 0, period > 0), for the annual type given a non-negative equivalent monthly rate, give a non-empty projection. In every row the accumulated interest is >= 0 and final >= invested >= 0. |
| `ProjectionViews.YearEnds` | script.js:397 | The filter `(i + 1) % 12 === 0` over n rows keeps n / 12 indices, the j-th being 12·j + 11. |
| `ProjectionViews.TableYearIndicesSelection` | script.js:397-401 | The yearly table selects ceil(n/12) rows in strictly increasing order, so there are no duplicates. An index i < n is selected iff (i+1) % 12 = 0 or i = n − 1. The last row is always selected, and the j-th selected row falls in year j + 1. |
| `ProjectionViews.ChartSelectsTableYears` | script.js:235 | The chart filter `(i + 1) % 12 === 0 \|\| i === n - 1` selects exactly the same indices as the table's filter followed by the conditional push. |
| `ProjectionViews.ChartSeries` | script.js:233-245 | By months the chart has one point per row, labelled with that row's month and showing its total invested, final balance and accumulated interest. By years it has ceil(n/12) points, and the last point shows the last row's balance and total invested. |
| `ProjectionViews.YearlyChartPoints` | script.js:235-239 | The yearly chart has one point per row the yearly table selects, and point j plots that row's total invested, final balance and accumulated interest. |
| `ProjectionViews.YearlyChartMatchesTable` | script.js:233-239 | The yearly chart has ceil(n/12) points labelled year 1, 2, ... in order. Each point's balance is the final balance of the matching line of the table as built. |
| `ProjectionViews.PeriodInterest` | script.js:415-424 | The loop returns the sum of `monthlyInterest` over indices [(ceil(m/12) − 1)·12, m), cut off at the number of rows. |
| `ProjectionViews.InterestTelescopes` | script.js:193-199 | Over rows that chain and add interest and then the contribution, the final balance at hi − 1 equals the previous balance at lo, plus the interest summed over [lo, hi), plus (hi − lo) contributions. |
| `ProjectionViews.YearlyTableAsWritten` | script.js:395-433 | The yearly table as built has ceil(n/12) lines labelled year 1, 2, ... in order. Line j ends at the final balance of month 12·j + 12 when that month exists, and the last line ends at the last month's balance. |
| `ProjectionViews.MonthlyTable` | script.js:402-408 | The monthly table has min(n, 12) lines, plus one when n > 12. Line j shows month j + 1 as it is, and line 12, when present, shows the last month. |
| `ProjectionViews.TableView` | script.js:395-408 | The table shown is the yearly table as built for the years view and the monthly table for the months view. |
| `ProjectionViews.YearlyTablesAgreeAfterFirst` | script.js:426-433 | The table as built and the corrected table have the same length and the same lines from the second on. The first lines differ at most in their previous balance. |
| `ProjectionViews.YearlyTableAsWrittenAddsUp` | script.js:410-433 | In the table as built over chained rows covering whole years, every line after the first starts at the previous line's final balance, and its previous balance plus the year's interest plus 12 contributions equals its final balance. |
| `ProjectionViews.YearlyTableAsWrittenLaterLines` | script.js:426-433 | The same holds for the calculator's projection over whole years, so only the first line of the table as built is off. |
| `ProjectionViews.YearlyTableAddsUp` | script.js:410-433 | Corrected table, for chained rows over whole years, yearly line j is year j + 1. It starts at the previous balance of month 12·j + 1 and ends at the final balance of month 12·j + 12. Its previous balance plus the year's interest plus 12 contributions equals its final balance. |
| `ProjectionViews.YearlyTableBalances` | script.js:410-433 | Corrected table: the same for the calculator's projection, and the first yearly line starts from the initial amount. |
| `ProjectionViews.YearlyFirstLineAsWritten` | script.js:426-433 | As built, the first yearly line of a projection of at least 12 months shows the balance after 11 months as its previous balance. The corrected table shows the initial amount. |
| `ProjectionViews.YearlyFirstLineMismatch` | script.js:426-433 | Initial 0, rate 0, contribution 100, 12 months: the line as built shows previous balance 1100 and final 1200, so previous + interest + contributions does not equal final. |
| `ProjectionViews.MonthlyTableShape` | script.js:402-408 | The monthly table shows months 1..min(n, 12) in order and, only when n > 12, month n once after them. Periods strictly increase, so there are no duplicates, and every line adds up. |
| `Text.RemoveDotsCounts` | script.js:130 | Removing the thousands dots shortens the text by its number of dots, leaves no dot, and keeps the number of occurrences of every other character. |
| `Text.RemoveDotsConcat` | script.js:130 | Dot removal works piecewise over a concatenation, so the kept characters stay in their order. |
| `Text.ReplaceFirstComma` | script.js:130 | The length is kept. The only position that changes is the first ',', and it becomes '.'. |
| `Text.CleanCurrencyExample` | script.js:126-130 | The cleanup turns "1.234,56" into "1234.56". |
| `Text.CleanCurrencyCounts` | script.js:130 | The cleaned string contains one '.' if the input has a ',' and none otherwise, so no '.' survives except the one that replaced the first ','. It has one ',' fewer, and every other character is kept. |
| `Text.ParseCurrency` | script.js:127-132 | One member for both identical copies of `parseCurrency` (the other is gastos.js:141-145). Empty input gives 0. Otherwise the result is the number the parser reads from the cleaned string, and 0 when the parser gives NaN. |
| `Text.TrimStart` | gastos.js:334 | The result is no longer than the input, the characters in front of its length from the end are all whitespace, and it does not start with whitespace. |
| `Text.TrimStartIsRest` | gastos.js:334 | TrimStart keeps the rest of the input in place: its result is the input's suffix of that length. |
| `Text.TrimEnd` | gastos.js:334 | The result is no longer than the input, the characters of the input past its length are all whitespace, and it does not end with whitespace. |
| `Text.TrimEndIsFront` | gastos.js:334 | TrimEnd keeps the front of the input in place: its result is the input's prefix of that length. |
| `Text.TrimmedPart` | gastos.js:334 | The trimmed description is the slice s[a..b] of the input, where a is the length of the dropped prefix. Everything before a and from b on is whitespace, and the slice neither starts nor ends with whitespace. It is empty iff the input is all whitespace. |
| `Budget.TotalAllocatedIsShare` | gastos.js:233-264 | The totals line allocates income · (sum of the percentages) / 100. |
| `Budget.BalancedAllocatesIncome` | gastos.js:207-214 | With a positive income, the totals line allocates exactly the income iff the percentage total is 100, the state the percentage display shows as balanced. |
| `Budget.Summarize` | gastos.js:225-264 | There is one line per category, in order, computed over the active period's expenses. allocated = income·pct/100 and remaining = allocated − spent. Utilisation is spent/allocated·100 when allocated > 0 and 0 otherwise. The totals are the running sums of spent and allocated, with utilisation under the same guard and remaining = allocated − spent. |
| `Budget.TotalRemainingIsDifference` | gastos.js:238-264 | The totals line's remaining amount equals the sum of the per-category remaining amounts. |
| `Budget.TotalSpentIsKnownSpending` | gastos.js:234-240 | With distinct category ids, the total spent is the sum of exactly the expenses whose category exists. |
| `Budget.OrphanExpenseIgnored` | gastos.js:234-240 | An expense with an unknown category id, wherever it sits in the list, changes no category line and no total. |
| `Budget.ZeroPercentageCategory` | gastos.js:233-238 | A 0% category is allocated 0 and shows 0% utilisation regardless of spending. |
| `Budget.OverBudgetExactly` | gastos.js:237 | When allocated > 0, utilisation is above 100 iff spent > allocated, and exactly 100 iff spent = allocated. |
| `Budget.SplitExample` | gastos.js:233-238 | Income 5000 split 30/70 with no expenses allocates 1500 and 3500. Nothing is spent and the remainders equal the allocations. |
| `Budget.PeriodExpenses` | gastos.js:320-326 | An expense is in the period's list iff it is in the list and dated in the active month and year. |
| `Budget.PeriodPartition` | gastos.js:320-326 | The period's expenses and what clearing keeps partition the list as multisets. Membership in each is exactly "in the list and in / not in the period". Nothing of the period survives clearing. |
| `Budget.OtherPeriodIgnored` | gastos.js:320-326 | An expense dated outside the active month/year never reaches the period's list, so it affects no spent sum. |
| `Budget.PeriodOfAppend` | gastos.js:320-326 | Appending an expense of the period appends it to the period's list. Appending any other expense leaves that list unchanged. |
| `Budget.DeletePreservesOthers` | gastos.js:364-365 | Deleting an id keeps exactly the expenses with other ids, distributes over concatenation (order kept), and changes nothing when no expense has the id. |
| `Budget.Clamp` | gastos.js:200 | The result is within 0..100. It equals v when v is in range, 0 below and 100 above. |
| `Budget.FindCategory` | gastos.js:198 | None iff no category has the id. Otherwise it gives the index of the first category with the id. |
| `Budget.SumPercentagesAppend` | gastos.js:208 | The `reduce` total over the categories followed by one more is the earlier total plus that category's percentage. |
| `Budget.PercentageTotalBound` | gastos.js:207-208 | With every percentage in 0..100, the total shown lies between 0 and 100 times the number of categories. |
| `Budget.DaysIn` | gastos.js:352 | A month has 28 to 31 days. December has 31, and February has 29 exactly in a leap year. |
| `Budget.ExpenseDateInMonth` | gastos.js:352 | A new expense dated on day d of the active month stays in that month iff the month has d days. Otherwise it lands in the next month of the same year. Days up to 28 never roll over. |
| `Budget.FebruaryRollover` | gastos.js:352 | An expense added on the 30th with February 2026 active is dated March 2026. The 29th of February 2024 stays in February. |
| `Budget.SumAfterUpdate` | gastos.js:207-208 | Setting one category's percentage to p changes the percentage sum by p minus the old value. |
| `ExpenseTracker.DefaultCategories` | gastos.js:4-11 | The six default categories have distinct ids, percentages within 0..100, and a sum of exactly 100 (balanced). |
| `ExpenseTracker.ExpenseController.constructor` | gastos.js:2-15 | The controller starts with the default categories, no expenses, income 5000 and the given month and year. |
| `ExpenseTracker.ExpenseController.AddExpense` | gastos.js:332-355 | An empty trimmed description or a value <= 0 leaves the list unchanged and reports why. Otherwise exactly one expense is appended, with the trimmed description and dated `new Date(year, month - 1, today)`. It is also appended to the active period's list exactly when that date stays in the active month, that is when the month has that day. |
| `ExpenseTracker.ExpenseController.DeleteExpense` | gastos.js:364-365 | The list becomes the expenses without that id, in their order. Membership is exactly "was there and has another id". |
| `ExpenseTracker.ExpenseController.ClearCurrentPeriodExpenses` | gastos.js:370-375 | It keeps exactly the other periods' expenses in order: the complement, as multisets, of what `getCurrentPeriodExpenses` returned. Afterwards the active period is empty. |
| `ExpenseTracker.ExpenseController.UpdateCategoryPercentage` | gastos.js:197-205 | The first category with the id gets max(0, min(100, v)) and all others are unchanged. An unknown id is a no-op. The percentage sum changes by the difference, and percentages in range stay in range. |

## Left out

- DOM access, event listeners, `innerHTML` templates and CSS classes are left out. This includes the colour thresholds, the "..." separator line of the monthly table and `updateSummary`, which only displays the last row.
- `localStorage` loading and saving and the JSON encoding are left out, because they are I/O.
- The Chart.js construction and `destroy` are left out, because they are a foreign library. Only the data series is modelled (`ProjectionViews.ChartSeries`).
- `toLocaleString`, `formatCurrency`, `formatCurrencyInput` and `toFixed` are left out, because they are locale formatting.
- `parseFloat` is a function parameter of `Text.ParseCurrency` (None stands for NaN). The expense tracker's copy of `parseCurrency` (gastos.js:141-145), which reads the income and the expense value, is the same function; `ExpenseTracker.ExpenseController.AddExpense` receives the value after that parsing. `parseInt` of the period and percentage fields is not modelled, so those inputs arrive as integers. The character filter of the currency inputs (script.js:98) is not modelled either.
- The annual-to-monthly conversion `Math.pow(1 + r/100, 1/12) - 1` is transcendental floating point. The caller passes its result in as `annualEquivalent`. The monthly branch (`rate / 100`) is modelled.
- IEEE-754 rounding is not modelled. All money is `real`.
- `Date` handling is abstracted. An expense date is its (year, month). The day of the month from the clock is the `today` parameter of `AddExpense`, and the roll-over of a day the month lacks is modelled by `Budget.ExpenseDate`. The expense id (`Date.now()`) is a parameter of `AddExpense`. The date sort in `renderExpensesList` is left out.
- ExpenseTracker.ExpenseController.AddExpense: JavaScript maps the years 0..99 to 1900..1999 in `new Date(year, ...)`, and a date stored with `toISOString` keeps its instant, so it is read back in a neighbouring day, month or year only when it is read under a different time zone from the one it was written in; neither is modelled.
- `alert` becomes the `AddOutcome` result of `AddExpense`. `ClearCurrentPeriodExpenses` models what happens after the `confirm` dialog is accepted.
- `initializeYearSelect` and the handlers that only assign the income, month or year fields are left out.
- `renderResumo` has no method of its own on the class. It is `Budget.Summarize` applied to the controller's income, categories, expenses and active month and year.
- In the source, `updateCategoryPercentage` mutates the found category object in place. The model replaces that element of the `categories` sequence. Aliasing of category objects is not modelled.
- ProjectionViews.YearlyTableAddsUp: stated only for whole years (`n % 12 == 0`). For a trailing partial year the table shows `contribution * 12` although fewer months were contributed. `calculate` never produces such a row sequence in the yearly view, because it passes 12 · period months.
- The model follows the code as written. Where that looks unintended, as with the first yearly line's previous balance, both the built behaviour and a corrected one are modelled: see "## Findings".

## Findings

| source | as written | input that shows it | evidently intended | confidence | as-written member | corrected member |
|---|---|---|---|---|---|---|
| script.js:426-433 | The yearly table uses the previous year's final balance only for display positions after the first (`index > 0`). The first yearly line keeps the previous balance of its own row, month 12. | Initial 0, monthly rate 0, contribution 100, period 1 year. The first line shows previous balance 1100, interest 0, contribution 1200 and final balance 1200. | The first year starts from the initial amount (0 here), so previous + interest + contributions = final on every yearly line. | medium, not executed | `ProjectionViews.YearlyFirstLineMismatch` | `ProjectionViews.YearlyTableBalances` |
