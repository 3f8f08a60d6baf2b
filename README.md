# Personal ledger of the finance tracker, in Dafny

This project models the core of a personal finance tracker. It is an Express/Mongoose
backend with a React frontend. Users record income and expense transactions, set a budget
per expense category and month, track money lent to or borrowed from other people, and read
alerts and spending insights. The model covers four parts.

- **Record schemas** as validity predicates and constructors: `Transaction`, `Budget`
  (the `YYYY-MM` month key of ISO 8601:2004 section 4.1.2.3 and the unique index on
  user, category and month), `Debt` and the live `Alert` schema. It also covers the
  frontend category lists and how they relate to the schema's enum.
- **Backend handlers** with their owner checks. Transactions can be listed, added and
  deleted. Budgets are upserted and listed. Debts can be listed, added, toggled and
  deleted. Alerts can be listed (unread only) and all marked read. Each store is a class
  holding a `seq` (or, for budgets, a `map` keyed on the unique index). Its methods return
  the HTTP status and are proved against pure functions that state the outcome.
- **Aggregations**:
  - the insights engine: the top category of a month, the six-month average with its
    default fallback, and the 1.2× / 25 % warning;
  - the monthly expense report;
  - the frontend spending map, the dashboard totals and lists, the three charts, and the
    debt search with its lent/borrowed split.
- **String logic**: `trim`, `toLowerCase`/`includes`, and `split('**')` with the bold
  parts of insight messages. It is proved against the `**`-wrapped messages that the
  insights handler builds.

Modelling choices:

- Amounts are `real`, with no IEEE-754 rounding.
- `Number(x)` that yields NaN is `None`.
- Dates are UTC calendar fields (`Calendar.Date`). `Ordinal` orders them the way the
  database compares instants.
- Record ids are `nat`. Each store keeps a `nextId` and an invariant that ids are
  distinct.
- The current time, the server's year and every HTTP reply the frontend receives are
  parameters.
- The order of records with equal sort keys is not fixed by the database. The contracts
  state only sortedness and permutation. The model keeps ties in collection order.

The code contains no budget-threshold alert engine, i.e. nothing that computes 50/90/100 %
crossings or inserts alerts. `addTransaction` (backend/controllers/transactionController.js:15-32)
only saves the record. The model follows the code, so alerts are only listed and marked
read, and `Alert` is modelled as a schema.

## Model

| member | source | states |
|---|---|---|
| TransactionModel.NewTransaction | backend/models/Transaction.js:3-39 | A record is built exactly when description, amount, type and category are present, the trimmed description is non-empty and its JavaScript `length` (UTF-16 code units, so a character beyond the Basic Multilingual Plane counts twice) is at most 50, the type is income/expense and the category is one of the 17 enum values. It then has the caller as owner, the trimmed description, the given fields and the creation time as date. |
| TransactionModel.AstralDescriptionCountsTwice | backend/models/Transaction.js:9-14 | `maxLength` counts code units: a description of 26 emoji, fewer than 50 characters, is rejected. |
| TransactionModel.BodyDateIgnored | backend/controllers/transactionController.js:17-25 | Any `date` in the request body is ignored; the record gets the schema default. |
| TransactionModel.TypeAndCategoryIndependent | backend/models/Transaction.js:19-34 | Type and category are checked independently: an `income` with category `Food` is admitted. |
| TransactionModel.NegativeAmountAdmitted | backend/models/Transaction.js:15-18 | The amount is required but has no minimum: a negative amount is admitted. |
| TransactionModel.BlankDescriptionRejected | backend/models/Transaction.js:9-14 | A description of white space only trims to empty and is rejected as missing. |
| Text.TrimPadded | backend/models/Transaction.js:12 | `trim` removes exactly the leading and trailing white space: a trimmed string padded on both sides trims back to itself. |
| Text.TrimIdempotent | backend/models/Debt.js:17 | Trimming twice is trimming once. |
| BudgetModel.ParseFormatted | backend/models/Budget.js:7 | A year 0-9999 and a two-digit month written as `YYYY-MM` match the pattern and read back as the same year and month. |
| BudgetModel.FormatParsed | backend/models/Budget.js:7 | Every string the pattern `^\d{4}-\d{2}$` admits is the `YYYY-MM` key of the numbers it spells. |
| BudgetModel.PatternAdmitsMonthOutOfRange | backend/models/Budget.js:7 | The pattern does not bound the month: `2024-13` and `2024-00` match. |
| BudgetController.OneBudgetPerKey | backend/models/Budget.js:10-11 | In a table kept in the invariant, two budgets with the same (user, category, month) are the same entry. |
| DebtModel.NewDebt | backend/models/Debt.js:3-36 | A debt is built exactly when type, person and amount are present, the type is lent/borrowed, the trimmed person is non-empty, and neither description nor due date is present but uncastable (a due date must be a valid date). An omitted description or due date is stored as absent, a given one trimmed or as given. The status defaults to `pending`, and both timestamps are the creation time. |
| DebtModel.OptionalFieldsMayBeOmitted | backend/models/Debt.js:19-29 | A body without description and due date still builds a debt, with both absent. |
| AlertModel.NewAlert | backend/models/Alert.js:13-22 | An alert is built exactly when the message is non-empty and the threshold is 50, 90 or 100. `isRead` defaults to false and `createdAt` to the creation time. |
| AlertModel.NewAlertUnread | backend/models/Alert.js:18 | An alert created with only the required fields is unread. |
| Categories.ListsDistinctAndDisjoint | frontend/src/utils/categories.jsx:3-21 | Each list has 7 distinct entries and no category is in both lists. |
| Categories.IncomeCategoriesAdmitted | frontend/src/utils/categories.jsx:3-11 | Every income category is in the transaction schema's enum. |
| Categories.ExpenseCategoriesAdmitted | frontend/src/utils/categories.jsx:13-21 | Six expense categories are in the enum. `Other` is not, so a transaction filed under it is never built. |
| TransactionController.TransactionsOf | backend/controllers/transactionController.js:4-12 | `getTransactions` returns exactly the caller's transactions (a permutation of them), sorted by date, newest first. |
| TransactionController.TransactionStore.AddTransaction | backend/controllers/transactionController.js:15-32 | A record that validates is appended, with 200 and the record. Otherwise the store is unchanged and the answer is 500. |
| TransactionController.AddIsListed | backend/controllers/transactionController.js:6 | After an add, the new record is in its owner's listing and every other user's listing is unchanged. |
| TransactionController.Deleted | backend/controllers/transactionController.js:35-51 | 404 when no record has the id and 401 when another user owns it; both leave the records unchanged. Otherwise 200 and exactly that record is removed, the rest kept in order. |
| TransactionController.TransactionStore.DeleteTransaction | backend/controllers/transactionController.js:35-51 | The handler's status and new records are those of `Deleted`, and the store invariant is kept. |
| TransactionController.DeleteRemovesExactlyOne | backend/controllers/transactionController.js:45 | With distinct ids, a successful delete leaves one record fewer, none with the id, and every other record. |
| BudgetController.Upsert | backend/controllers/budgetController.js:16-20 | The key's entry gets the new amount. An existing entry keeps its id (count unchanged); a new key is inserted (count + 1). Every other key's budget is unchanged. |
| BudgetController.UpsertIdempotent | backend/controllers/budgetController.js:16-20 | Repeating the same upsert changes nothing. |
| BudgetController.UpsertKeepsInvariant | backend/models/Budget.js:11 | An upsert keeps one entry per key, filed under its own key, with distinct ids. |
| BudgetController.UpsertStoresAnyMonth | backend/controllers/budgetController.js:5-20 | No month check runs on this path: a month that is not `YYYY-MM` is stored. |
| BudgetController.BudgetStore.SetBudget | backend/controllers/budgetController.js:4-27 | A NaN or non-positive amount gives 400 with the table unchanged. Otherwise the (caller, category, month) entry is upserted with the amount and returned with 200. |
| BudgetController.GetBudgets | backend/controllers/budgetController.js:29-41 | 400 iff the month is missing or empty; otherwise exactly the caller's budgets for that month. |
| DebtController.DebtsOf | backend/controllers/debtController.js:4-12 | `getDebts` returns exactly the caller's debts, most recently created first. |
| DebtController.DebtStore.AddDebt | backend/controllers/debtController.js:15-32 | A debt that validates is appended, with 201 and status `pending`. Otherwise the store is unchanged and the answer is 500. |
| DebtController.Toggle | backend/controllers/debtController.js:45 | The new status is always in the enum, and it is `paid` iff the old one was `pending`. |
| DebtController.ToggleInvolution | backend/controllers/debtController.js:45 | On the enum, toggling changes the status, and toggling twice restores it. |
| DebtController.Toggled | backend/controllers/debtController.js:44-47 | The saved debt differs from the old one only in `status` and in `updatedAt`, which the timestamps option stamps. |
| DebtController.Updated | backend/controllers/debtController.js:35-53 | 404 for an unknown id and 401 for another user's debt, both with no change. Otherwise 200 and only that debt is replaced by its toggled copy. |
| DebtController.UpdateTwiceRestores | backend/controllers/debtController.js:44-47 | Two successful updates restore the debt's status; other debts are unchanged. |
| DebtController.DebtStore.UpdateDebt | backend/controllers/debtController.js:35-53 | The handler's status and records are those of `Updated`, and on success it returns the saved debt. |
| DebtController.DebtDeleted | backend/controllers/debtController.js:55-72 | 404 for an unknown id and 401 for another user's debt, both with no change. Otherwise 200 and exactly that debt is removed. |
| DebtController.DebtDeleteRemovesExactlyOne | backend/controllers/debtController.js:66 | With distinct ids, a successful delete leaves no debt with the id and every other debt. |
| DebtController.DebtStore.DeleteDebt | backend/controllers/debtController.js:55-72 | The handler's status and records are those of `DebtDeleted`. |
| AlertController.UnreadAlerts | backend/controllers/alertController.js:4-11 | `getAlerts` returns exactly the caller's unread alerts, newest first. |
| AlertController.MarkRead | backend/controllers/alertController.js:16 | Every unread alert of the caller becomes read. No other alert changes, and the count is the same. |
| AlertController.MarkReadEffect | backend/controllers/alertController.js:16 | Afterwards no alert of the caller is unread and the unread listing is empty. Other users' alerts are unchanged, and only `isRead` can differ. |
| AlertController.MarkReadIdempotent | backend/controllers/alertController.js:16 | A second `markAllAsRead` changes nothing. |
| AlertController.AlertStore.MarkAllAsRead | backend/controllers/alertController.js:14-21 | 200, and the records become `MarkRead` of the old ones with the store invariant kept. |
| InsightsController.CurrentWindowIsTargetMonth | backend/controllers/insightsController.js:24-29 | The closed window [startOf month, endOf month] holds exactly the caller's expenses dated in the target month. |
| InsightsController.AverageWindowIsSixMonths | backend/controllers/insightsController.js:43-46 | The window [start of month − 6, start of month) holds exactly the caller's expenses of the six months before. |
| InsightsController.MonthNumberGroupsAreMonths | backend/controllers/insightsController.js:47-48 | Grouping by month number never merges two different calendar months of the average window. |
| InsightsController.TopCategory | backend/controllers/insightsController.js:28-33 | None iff there are no expenses in the window. Otherwise a category that has expenses there and whose total no other category exceeds. |
| InsightsController.TopCategoryInsight | backend/controllers/insightsController.js:35-40 | At most one `info` insight. There is one iff the month has expenses, and it names a top category. |
| InsightsController.AverageOverActiveMonths | backend/controllers/insightsController.js:45-55 | A category's average is its window total divided by the number of months in which it has expenses (not by six). |
| InsightsController.AverageMapSpec | backend/controllers/insightsController.js:57-60 | The average map has an entry for exactly the categories with expenses in the window, holding their average. |
| InsightsController.EffectiveAverage | backend/controllers/insightsController.js:70-74 | A missing or zero personal average falls back to `DEFAULT_AVERAGES`. None when that is missing too. |
| InsightsController.WarnRuleIff | backend/controllers/insightsController.js:76-79 | The rule warns iff the average is positive and current > 1.25 × average; the 1.2 test adds nothing. |
| InsightsController.NoBaselineNoWarning | backend/controllers/insightsController.js:7-14 | A category with neither a personal average nor a default never warns. |
| InsightsController.RoundedPercent | backend/controllers/insightsController.js:82 | The percentage in the message is the increase rounded half up. |
| InsightsController.WarningsSound | backend/controllers/insightsController.js:67-86 | Every warning comes from a group the rule fires on. |
| InsightsController.WarningsComplete | backend/controllers/insightsController.js:67-86 | Every group the rule fires on has its warning in the list. |
| InsightsController.CheckGroup | backend/controllers/insightsController.js:68-85 | The `forEach` callback pushes exactly the warning the rule calls for, if any. |
| InsightsController.CollectWarnings | backend/controllers/insightsController.js:67-86 | The loop appends the warnings of the groups, in group order, after what the list already holds. |
| InsightsController.AverageSpendingMap | backend/controllers/insightsController.js:57-60 | The `reduce` builds the map of the (category, average) pairs. |
| InsightsController.GetInsights | backend/controllers/insightsController.js:16-94 | The info insight, if any, followed by the warnings. Every insight is info or warning, and only the first can be info. |
| ReportController.ReportWindowSpec | backend/controllers/reportController.js:12-15 | The window holds the dates of the year up to midnight of December 31; the rest of that day is excluded. |
| ReportController.ReportIgnoresOthers | backend/controllers/reportController.js:9-12 | Other users' transactions and income do not change the matched list. |
| ReportController.RowsUpTo | backend/controllers/reportController.js:18-24 | One row per month number that has a matching expense, in ascending order, each holding the sum of that month's amounts. |
| ReportController.ReportRowsSpec | backend/controllers/reportController.js:7-26 | A successful report has a row for month k iff the caller has an expense in the window in month k, and the row's total is their sum. |
| ReportController.ReportSumsToTotal | backend/controllers/reportController.js:19-22 | With valid dates, the row totals add up to the total of the matched expenses. |
| ReportController.GetMonthlyExpenses | backend/controllers/reportController.js:4-30 | A failure gives 500 with the error message. Success gives 200 with rows in ascending month order, months 1-12. |
| TransactionContext.TransactionProvider.GetTransactions | frontend/src/context/TransactionContext.jsx:15-27 | Without a token nothing changes. Otherwise a reply replaces the list, a failure is recorded, and `loading` ends false either way. |
| TransactionContext.TransactionProvider.AddTransaction | frontend/src/context/TransactionContext.jsx:29-40 | Without a token nothing changes. On success the saved record goes first, the rest keep their order, and it is returned. On failure the list is unchanged and the error is recorded and rethrown. |
| TransactionContext.TransactionProvider.DeleteTransaction | frontend/src/context/TransactionContext.jsx:42-51 | Without a token nothing changes. On success every entry with the id is dropped. On failure the list is unchanged and the error is recorded. |
| TransactionContext.WithoutIdSpec | frontend/src/context/TransactionContext.jsx:47 | The delete update keeps no entry with the id and every other entry; kept and removed entries together are the old list. |
| TransactionContext.WithoutIdIdempotent | frontend/src/context/TransactionContext.jsx:47 | Removing an id twice is removing it once. |
| BudgetsPage.SpendingMap | frontend/src/pages/BudgetsPage.jsx:45-53 | The keys are exactly the categories of some expense. Every category reads as its expense total (0 when absent), and income is ignored. |
| BudgetsPage.SpendingOfSpec | frontend/src/pages/BudgetsPage.jsx:48-52 | The reduce keys the map by the categories of the list, and each entry (0 when absent) is that category's total. |
| BudgetsPage.SpendingIgnoresMonth | frontend/src/pages/BudgetsPage.jsx:41 | The month argument is dropped, so an expense of any month adds its amount to its category's spending. |
| BudgetsPage.ServerBudgetsHaveDistinctCategories | frontend/src/pages/BudgetsPage.jsx:31-34 | The budgets the server answers for one user and month have distinct categories. |
| BudgetsPage.FetchedBudgetsSpec | frontend/src/pages/BudgetsPage.jsx:31-34 | The fetched-budgets map has the fetched categories as keys, each holding its budget's amount. |
| BudgetsPage.BudgetsPageState.FetchBudgets | frontend/src/pages/BudgetsPage.jsx:23-38 | With a token and an array reply, the budgets become the fetched assignments; otherwise they are unchanged. |
| BudgetsPage.BudgetsPageState.SetMonth | frontend/src/pages/BudgetsPage.jsx:23-43 | The month input (line 86) sets the month and the effect fetches again: with a token and an array reply the budgets become the new month's, otherwise the previous month's budgets stay on screen. |
| BudgetsPage.BudgetsPageState.HandleBudgetChange | frontend/src/pages/BudgetsPage.jsx:55-57 | Only the given category's entry changes. |
| BudgetsPage.BudgetsPageState.HandleSave | frontend/src/pages/BudgetsPage.jsx:59-75 | An empty or non-positive amount sets the error message and sends nothing. Otherwise the request is sent and the message reports the outcome. |
| BudgetsPage.ClientAndServerChecks | frontend/src/pages/BudgetsPage.jsx:60-66 | What the client sends is accepted by the server iff it is a number. A NaN passes the client's check and gets 400. |
| BudgetsPage.BudgetValue | frontend/src/pages/BudgetsPage.jsx:93 | The budget a row uses is 0 exactly for the entries `handleSave` finds falsy (`!amount`), and otherwise the same `Number(amount)` that `handleSave` tests and sends; for an entry a save would accept it is that positive number, or NaN. |
| BudgetsPage.GreenIff | frontend/src/pages/BudgetsPage.jsx:93-103 | "Remaining" is green iff the budget is a number no smaller than the category's expense total. Without a budget, it is green iff that total is not positive. |
| BudgetsPage.Rows | frontend/src/pages/BudgetsPage.jsx:92-122 | One row per expense-form category, in order, holding `amountLeft` = budget − spent and its colour. |
| BudgetsPage.OtherRowNeverSpent | frontend/src/pages/BudgetsPage.jsx:94 | Over saved transactions the `Other` row's spending is always 0. |
| BudgetsPage.ComparisonChart | frontend/src/pages/BudgetsPage.jsx:124 | The page passes no `data`, so the chart always shows its loading text. |
| Dashboard.Render | frontend/src/pages/Dashboard.jsx:19-62 | Loading screen iff loading with an empty list. Otherwise the page shows the income and expense totals, balance = income − expense, the type sublists in order, the first min(5, n) transactions, and "View All" iff n > 5. |
| Dashboard.NetOfKinds | frontend/src/pages/Dashboard.jsx:19-27 | Income total − expense total is the signed sum of the list. |
| Dashboard.TypeSublistsPartition | frontend/src/pages/Dashboard.jsx:29-30 | When every type is income or expense, the two sublists share nothing and together hold the list. |
| Dashboard.ViewAllIffTruncated | frontend/src/pages/Dashboard.jsx:31-62 | "View All" is shown iff the recent list leaves a transaction out. |
| DebtsPage.FilteredDebtsSpec | frontend/src/pages/DebtsPage.jsx:18-23 | An empty term keeps all debts. Otherwise exactly the debts whose lowercased person contains the lowercased term are kept, unchanged. |
| DebtsPage.SearchIgnoresCase | frontend/src/pages/DebtsPage.jsx:21 | The search ignores letter case: `ALI` finds `Alice`. |
| DebtsPage.LentAndBorrowedPartition | frontend/src/pages/DebtsPage.jsx:25-26 | The two columns share no debt. When every type is lent/borrowed, together they are the searched list. |
| DebtsPage.ButtonMatchesToggle | frontend/src/pages/DebtsPage.jsx:54 | The button reads "Mark as Paid" iff the server's toggle moves the debt to `paid`. |
| DebtsPage.ColumnSigns | frontend/src/pages/DebtsPage.jsx:25-40 | Every card of the lent column is prefixed `-` and every card of the borrowed column `+`. |
| InsightsView.ServerInsightsHaveKnownIcons | frontend/src/components/dashboard/Insights.jsx:7-16 | For the `info` and `warning` insights the server sends, no card shows the lightbulb, and a card shows the triangle iff its insight is a warning. |
| InsightsView.FormatMessage | frontend/src/components/dashboard/Insights.jsx:18-23 | One segment per `**`-part, with part i bold iff i is odd. |
| InsightsView.FormatMessageRoundTrip | frontend/src/components/dashboard/Insights.jsx:19 | The parts joined with `**` give the message back. The number of parts is the count of non-overlapping `**` plus one. |
| InsightsView.TopMessageFormat | frontend/src/components/dashboard/Insights.jsx:19-21 | For a category without `*`, the top-category message renders as three parts with the category, alone, in bold. |
| InsightsView.WarningMessageFormat | frontend/src/components/dashboard/Insights.jsx:19-21 | A warning message renders as five parts, with the category and "N% higher" in bold. |
| InsightsView.TrailingStarBreaksBold | frontend/src/components/dashboard/Insights.jsx:19 | A category containing `*` can shift the parts, so the `*`-free requirement is needed. |
| InsightsView.Render | frontend/src/components/dashboard/Insights.jsx:33-65 | Analysing text iff loading. Placeholder iff the list is missing or empty. Otherwise one card per insight with its icon and its message, which loses nothing. |
| IncomeChart.IncomeChartData | frontend/src/components/charts/IncomeChart.jsx:8-18 | Four values aligned with the four labels, each the total of that category (0 when none). |
| IncomeChart.UnchartedCategoryIgnored | frontend/src/components/charts/IncomeChart.jsx:14-18 | A transaction of an uncharted category (Investments, Gifts, Rental Income) changes no slice. |
| IncomeChart.SlicesSumToChartedTotal | frontend/src/components/charts/IncomeChart.jsx:14-18 | The slices add up to the total of the charted categories. |
| ExpenseChart.ExpenseChartData | frontend/src/components/charts/ExpenseChart.jsx:9-18 | Five values aligned with the five labels, each the total of that category (0 when none). |
| ExpenseChart.UnchartedCategoryIgnored | frontend/src/components/charts/ExpenseChart.jsx:12-18 | An expense of a category without a slice (Shopping, Other Expense) changes no slice. |
| ExpenseChart.ChartedCategoryCounted | frontend/src/components/charts/ExpenseChart.jsx:13-17 | An expense of a charted category adds its amount to that slice only. |
| ExpenseChart.OtherSliceOfSavedIsZero | frontend/src/components/charts/ExpenseChart.jsx:17 | Over saved transactions the `Other` slice is always 0. |
| BudgetComparisonChart.Render | frontend/src/components/charts/BudgetComparisonChart.jsx:23-56 | Loading iff `data` is not an array. Placeholder iff nothing is kept. Otherwise labels, budgeted and spent arrays of the kept length, index-aligned with the kept items. |
| BudgetComparisonChart.FilteredDataSpec | frontend/src/components/charts/BudgetComparisonChart.jsx:28 | The filter keeps exactly the items with budgeted > 0 or spent > 0, unchanged; none kept iff none qualifies. |
| BudgetComparisonChart.BarsArePositive | frontend/src/components/charts/BudgetComparisonChart.jsx:28-55 | Every bar pair shown has a positive budget or positive spending. |

## Left out

- Threshold-crossing alert generation (50/90/100 %): no handler of the ledger computes it
  or inserts alerts, so alerts exist only as records to list and mark read.
- Database internals: ObjectId generation and casting, update validators and the
  aggregation engine. Ids are `nat`. A required body field that cannot be cast is `None`, like an omitted
  one, since `save` rejects both; the debt's optional description and due date keep
  omitted and uncastable apart.
  Grouped results come out in first-occurrence order.
- Failures of the database itself are not modelled, except in the report handler, where
  the error message is a parameter. The 500 answers of the other handlers' `catch` blocks
  for infrastructure errors are left out.
- Dates: moment.js and `Date` parsing and time zones are replaced by UTC calendar fields.
  The insights' target month and the report's year are parameters.
- Floating point: amounts are exact reals. `toFixed(2)` formatting is left out.
  `toFixed(0)` is modelled as rounding half up, with no binary rounding error.
- String case: `toLowerCase` is modelled on the ASCII letters only. `trim` knows the
  common white-space characters but not every Unicode space separator.
- HTTP plumbing, auth middleware, routes, and the auth and profile pages are left out.
  The caller's user id and the token are parameters.
- The debts page reads `debts`, `getDebts`, `updateDebt` and `deleteDebt` from the
  transaction context, whose shown provider does not supply them. Only the page's own
  search, split, label and sign logic is modelled.
- Presentation: JSX markup, Chart.js options, and form-field state outside the budgets
  page are left out.
- Concurrency and React scheduling: each handler and each state update is one atomic
  step. The `setTimeout` that clears the budgets page message is left out.
- BudgetController.BudgetStore.SetBudget: the request's category and month are always
  strings. An omitted category or month, which the database would match as missing, is
  not modelled.
