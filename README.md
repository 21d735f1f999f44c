# Minhas Finanças: the single-account ledger, in Dafny

This project models the core of a personal-finance web application. The core
is one account row (`balance`, `credit_limit`, `credit_used`, `credit_due_day`)
and an append-only `transactions` ledger. A few server routes change them, and
two card widgets do arithmetic on them. The model proves what each route does
to that state.

- `ledger.dfy` (`Ledger`): the rows of both tables and the four transaction
  types the CHECK constraint admits. It also holds calendar keys and the
  shapes of replies and errors. A storage failure is an input `Fault`:
  `FailWrite(n, m)` makes the n-th write statement of a request raise.
- `store.dfy` (`Store`): the `Database` class. It holds the account row
  (absent until provisioned), the ledger and the autoincrement counter. Its
  invariant is that ids increase along the ledger. BEGIN takes a `Snapshot`
  and ROLLBACK restores it.
- `queries.dfy` (`Queries`): the SQL reads. `ORDER BY created_at DESC LIMIT n`
  is an insertion sort followed by a prefix. `COALESCE(SUM(amount), 0)` is
  taken over a set of types and a day or a month.
- `transactions_route.dfy`, `credit_card_route.dfy`, `balance_route.dfy`:
  one module per route file. Each HTTP handler is a method over the
  `Database` (POST, PUT, DELETE) or a function of the stored state (GET).
- `config.dfy` (`Config`): the `transactionTypes` table and the validators.
- `due_dates.dfy` (`DueDates`): month lengths and the days-until-due
  arithmetic shared by the card route and the dashboard widget.
- `dashboard_card.dfy`, `compact_card.dfy`: the two credit-card widgets.
- `scenarios.dfy`: request sequences proved from the contracts alone: a
  debit, a payment, a refused payment, a double reset and a rolled-back write.

Amounts are exact `real`s. Values that JavaScript parses arrive already
parsed, as `Option<real>`, where `None` stands for NaN. "Today" and the
current timestamp are parameters.

Where the code and its intended design differ, the model follows the code:
- An explicit bill payment is not clamped at zero, and nothing keeps
  `credit_used` within `[0, credit_limit]`. `CreditCardRoute.ExplicitAmountUnchecked`
  shows both failures. `CreditCardRoute.PaymentKeepsDebtInRange` states when
  the range does hold.
- The statement reset (DELETE) runs outside any SQL transaction. If its
  second write fails, `credit_used` stays zeroed.
- A balance adjustment with no account row commits its ledger row and still
  replies 500.
- The wait after the due day has passed counts through the current month's
  length only. When the next month has no such day, the wait overshoots: from
  31 January 2025 with due day 30 it is 30 days, which ends on 2 March
  (`DueDates.WaitOvershootsShortMonth`).

## Model

| member | source | states |
|---|---|---|
| `Ledger.ParseType` | lib/db.js:36 | a type text is admitted exactly when it names one of debit, credit, income, salary, and then it names that type |
| `Queries.NewestSpec` | app/api/transactions/route.js:6-13 | `ORDER BY created_at DESC LIMIT n` returns min(n, rows) rows of the ledger (a sub-multiset), newest first |
| `Queries.NewestComplete` | app/api/transactions/route.js:11-12 | no row the LIMIT leaves out is later than the last row returned |
| `Queries.NewestLastBound` | app/api/transactions/route.js:11-12 | the same for any ledger and limit, whenever something is returned |
| `Queries.TotalPermutation` | app/api/balance/route.js:32-56 | a sum does not depend on the order of the rows: ledgers holding the same rows (as a multiset) give the same sum |
| `Queries.TotalIgnoresOrder` | app/api/balance/route.js:32-56 | in particular the sums over the ledger and over its newest-first order agree |
| `Queries.TotalOfUnselected` | app/api/balance/route.js:32-38 | `COALESCE(SUM(amount), 0)` is 0 when no row is selected |
| `Queries.TotalNonNegative` | app/api/balance/route.js:32-56 | with non-negative amounts every sum is non-negative |
| `Queries.DayWithinMonth` | app/api/balance/route.js:32-47 | with non-negative amounts today's sum never exceeds this month's |
| `Queries.TotalSplit` | app/api/balance/route.js:41-56 | a sum over two disjoint type sets is the sum of the two sums |
| `Queries.TotalIgnoresLabels` | app/api/balance/route.js:32-56 | the sums read only type, amount and date |
| `Config.TableIdsAreKeys` | lib/config.js:91-124 | each `transactionTypes` entry's id equals its key and parses back to its type |
| `Config.ImpactIsExpense` | lib/config.js:91-124 | impact is negative exactly for debit and credit (the aggregates' expense types) and positive exactly for income and salary |
| `Config.ValidatorBoundaries` | lib/config.js:128-147 | each validator's boundary: amount 0.01 yes, 0 and NaN no; category 'x' yes, '' and missing no; description of 100 characters yes, 101 no; password of 6 yes, 5 no; username of 3 and 20 yes, 2 and 21 no |
| `Config.ValidatorsMonotone` | lib/config.js:128-147 | the validators are thresholds: a larger amount stays valid, appending text keeps a category or password valid, cutting text keeps a description valid, every valid username is a valid category |
| `DueDates.DaysInMonth` | app/api/credit-card/route.js:38-42 | the Gregorian length of the month: 31 exactly for months 1, 3, 5, 7, 8, 10, 12; 30 exactly for 4, 6, 9, 11; 29 exactly for February of a leap year; 28 exactly for February of a common year |
| `DueDates.DaysUntilDueIsFirstArrival` | app/api/credit-card/route.js:34-44 | for a real day and a due day the month has, the wait is below the month length; counting it forward through this month and the real next month lands on the due day, at most one month ahead, and no shorter wait does; when the due day has passed this needs the next month to have that day |
| `DueDates.WaitOvershootsShortMonth` | app/api/credit-card/route.js:38-43 | as written, from 31 January 2025 with due day 30 the wait is 30 days, and 30 days later the calendar shows 2 March, not a 30th |
| `DueDates.DaysUntilDueRange` | components/dashboard/CreditCard.jsx:8-20 | for 1 ≤ today ≤ month length and due day ≥ 1: the result is ≥ 0 and is 0 exactly on the due day; for a due day the month has, it is (due − today) mod month length |
| `TransactionsRoute.ApplyFollowsImpact` | app/api/transactions/route.js:49-64 | debit lowers balance by the amount, credit raises `credit_used` by it, income and salary raise balance by it; net position moves as the impact table says; limit and due day never change |
| `TransactionsRoute.Post` | app/api/transactions/route.js:33-73 | on success exactly one row (given type, amount, category, description, next id) is appended and the account moves by type; an unknown type or a failing write rolls back account and ledger and replies 500; the sign of the amount and the limit are not checked |
| `TransactionsRoute.LabelsMatchConfig` | app/api/transactions/route.js:23-28 | `typeLabel` is Débito, Cartão, Entrada, Salário, the titles of the type table |
| `TransactionsRoute.ViewShowsRow` | app/api/transactions/route.js:16-29 | a view keeps id, type, amount, description and timestamp; its category text is exactly the icon (or nothing), a space and the name, with nothing in between; its label is the type table's title |
| `TransactionsRoute.Get` | app/api/transactions/route.js:3-31 | min(20, rows) entries, the views of `Newest(ledger, 20)` in order: newest first, a sub-multiset of the ledger, and no row left out is later than the last entry |
| `TransactionsRoute.GetShowsEachRowOnce` | app/api/transactions/route.js:6-13 | with the increasing ids the database hands out, no row is listed twice |
| `CreditCardRoute.EffectiveDueDay` | app/api/credit-card/route.js:31 | a zero due day becomes 15, any other is kept, so the result is never zero |
| `CreditCardRoute.PercentUsed` | app/api/credit-card/route.js:79 | percent × limit = used × 100; undefined exactly when the limit is 0 |
| `CreditCardRoute.LatestAreCardRows` | app/api/credit-card/route.js:47-57 | min(10, card purchases) rows, each a card purchase of the ledger, newest first, a sub-multiset of the card purchases, and no card purchase left out is later than the last one kept |
| `CreditCardRoute.LatestPurchases` | app/api/credit-card/route.js:47-57 | min(10, card purchases) entries, the card rows of those newest purchases in order, newest first |
| `Store.Database.Insert` | app/api/transactions/route.js:42-46 | appends exactly one row carrying the next id and keeps ids increasing; the account is untouched |
| `Store.Database.Restore` | app/api/transactions/route.js:69-72 | ROLLBACK: the state is exactly the snapshot taken at BEGIN |
| `CreditCardRoute.Get` | app/api/credit-card/route.js:4-90 | defaults 5000/0/5000/15 without an account; otherwise available = limit − used, the stored due day, the wait to the falling-back due day in the current month, percent used and the latest purchases |
| `CreditCardRoute.ClassifyPayment` | app/api/credit-card/route.js:95-116 | a missing `paymentType` or 'full' is a full payment, 'minimum' the minimum, any other text an explicit amount |
| `CreditCardRoute.PaymentAmountChoice` | app/api/credit-card/route.js:109-116 | full pays the debt; minimum pays 15% of a non-negative debt (never more than the debt); otherwise the parsed amount, or 0 for NaN, unclamped |
| `CreditCardRoute.PaymentDescriptionsDiffer` | app/api/credit-card/route.js:148-154 | the three payment kinds give three different row descriptions |
| `CreditCardRoute.SettleMovesMoney` | app/api/credit-card/route.js:131-137 | a payment keeps balance − debt, raises available credit by the amount, and a full payment leaves no debt and the balance reduced by the old debt |
| `CreditCardRoute.PaymentKeepsDebtInRange` | app/api/credit-card/route.js:131-137 | the debt stays within [0, limit] for full and minimum payments and for explicit amounts between 0 and the debt |
| `CreditCardRoute.ExplicitAmountUnchecked` | app/api/credit-card/route.js:115 | overpaying makes the debt negative; a negative amount raises both balance and debt |
| `CreditCardRoute.Post` | app/api/credit-card/route.js:93-184 | 404 without an account and 400 when the amount exceeds the balance, with no write; otherwise balance and debt both drop by the amount and one debit row with the payment category and kind-specific description is appended, or a failing write rolls both back (500) |
| `CreditCardRoute.WithSettings` | app/api/credit-card/route.js:193-204 | each supplied field takes its new value; balance and debt are kept |
| `CreditCardRoute.Put` | app/api/credit-card/route.js:187-239 | 400 and no write when neither field is supplied; otherwise only the supplied fields change, the ledger never does, and the reply reports the new settings (500 when there is no account row) |
| `CreditCardRoute.PaidTagMatching` | app/api/credit-card/route.js:255 | for all texts: the tag written in any ASCII case, with any text before and after it, is found; texts equal up to ASCII case are matched alike, and a text is matched exactly when its lower-case form is |
| `CreditCardRoute.PaidTagExamples` | app/api/credit-card/route.js:255 | the route's own tag and '[fatura paga]' inside a description are both found |
| `CreditCardRoute.PaidTagMissing` | app/api/credit-card/route.js:255 | for all texts: one shorter than the tag, or one without a '[', is not matched |
| `CreditCardRoute.PaidTagSurvivesText` | app/api/credit-card/route.js:255 | text added before or after a tagged description keeps the tag |
| `CreditCardRoute.MarkPaidOnlyRelabels` | app/api/credit-card/route.js:250-256 | for one row: only an untagged card purchase changes, only its description, by ' [FATURA PAGA]' appended, and a card purchase ends up tagged |
| `CreditCardRoute.MarkedRowIsTagged` | app/api/credit-card/route.js:250-256 | after relabelling, a card purchase's description contains `[FATURA PAGA]` (ignoring ASCII case, as LIKE does) |
| `CreditCardRoute.MarkAllPaidOnlyRelabels` | app/api/credit-card/route.js:250-256 | only untagged card purchases change, and only by ' [FATURA PAGA]' appended to the description |
| `CreditCardRoute.ResetIdempotent` | app/api/credit-card/route.js:247-256 | a second reset changes neither the account nor the ledger |
| `CreditCardRoute.MarkAllPaidKeepsTotals` | app/api/credit-card/route.js:250-256 | relabelling leaves every ledger sum unchanged |
| `CreditCardRoute.Delete` | app/api/credit-card/route.js:242-266 | zeroes the debt and relabels the card purchases; a failure of the second write leaves the debt zeroed and the ledger as it was |
| `BalanceRoute.Get` | app/api/balance/route.js:4-75 | defaults 0/5000/0/5000 and zero sums without an account; otherwise available = limit − used and monthBalance = monthIncome − monthExpenses |
| `BalanceRoute.ValidatedAmountsOrderSums` | app/api/balance/route.js:32-56 | with validated amounts, 0 ≤ todayExpenses ≤ monthExpenses and monthIncome ≥ 0 |
| `BalanceRoute.MonthSumsPartition` | app/api/balance/route.js:41-56 | monthIncome + monthExpenses is the sum of every row of the month |
| `BalanceRoute.RecordedRowMovesMonth` | app/api/balance/route.js:41-66 | a row recorded this month moves monthBalance by what it moves balance − debt; an expense recorded today raises todayExpenses by its amount |
| `BalanceRoute.PaymentCountedAgain` | app/api/balance/route.js:41-47 | a bill payment keeps balance − debt but its debit row lowers monthBalance by the amount paid |
| `BalanceRoute.AdjustmentRow` | app/api/balance/route.js:102-107 | the inserted row: a non-zero adjustment gives an amount the amount validator accepts, an expense type exactly for a negative adjustment, the adjustment category, and the given description or 'Ajuste manual' |
| `BalanceRoute.AdjustmentRowRoundTrip` | app/api/balance/route.js:102-107 | the row is income exactly for a positive adjustment, has amount abs(adjustment) > 0, its signed amount is the adjustment, and recording it would move the account as the adjustment does |
| `BalanceRoute.AdjustmentMovesMonthBalance` | app/api/balance/route.js:96-107 | a completed adjustment moves this month's monthBalance by exactly the adjustment |
| `BalanceRoute.Put` | app/api/balance/route.js:78-129 | missing, NaN or zero adjustment: 400 and no write; a failing write rolls back (500); otherwise balance += adjustment and the adjustment row (default description 'Ajuste manual') is appended |
| `DashboardCard.AvailableMatchesRoutes` | components/dashboard/CreditCard.jsx:7 | fed an account's limit and debt, the widget's available credit equals the account's and both GET replies' |
| `DashboardCard.DaysLeftRange` | components/dashboard/CreditCard.jsx:8-20 | on a real day and any due day from 1 to 31 (one the month lacks included), the wait is in [0, 31) and 0 exactly on the due day |
| `DashboardCard.StatusColor` | components/dashboard/CreditCard.jsx:22-26 | red exactly from 90%, orange exactly in [70, 90), purple exactly below 70 |
| `DashboardCard.ProgressColor` | components/dashboard/CreditCard.jsx:28-32 | red exactly from 90%, orange exactly in [70, 90), green exactly below 70 |
| `DashboardCard.ColorsShareThresholds` | components/dashboard/CreditCard.jsx:22-32 | gradient and bar colour partition percentages alike: red with red, purple with green |
| `DashboardCard.ColorsEscalate` | components/dashboard/CreditCard.jsx:22-26 | a higher percentage never gets a calmer gradient |
| `DashboardCard.BarWidth` | components/dashboard/CreditCard.jsx:98 | the width is ≤ 100 and ≤ the percentage, and is one of the two |
| `DashboardCard.WarningMatchesColor` | components/dashboard/CreditCard.jsx:116 | the ≥ 80% warning never shows on a purple card and always on a red one |
| `DashboardCard.DueAlertWindow` | components/dashboard/CreditCard.jsx:130 | the due alert shows exactly when (due − today) mod month length ≤ 3 for a due day the month has, and exactly when due − today ≤ 3 for one it lacks |
| `CompactCard.DueDayFallbacksAgree` | components/CreditCard.jsx:5 | a missing due date falls back to the route's 15th; a due date of 0 is kept by the widget where the route replaces it |
| `CompactCard.PercentUsed` | components/CreditCard.jsx:7 | percent × limit = used × 100 |
| `CompactCard.PercentMatchesRoute` | components/CreditCard.jsx:7 | for a positive limit the widget's share equals the card route's `percentUsed` |
| `CompactCard.PercentUsedThresholds` | components/CreditCard.jsx:7 | percent ≥ t, and percent > t, exactly when used × 100 is ≥, or >, t × limit; percent ≤ 100 exactly when used ≤ limit |
| `CompactCard.ThirtyDayMonthAgreement` | components/CreditCard.jsx:12-13 | agrees with the real-month wait whenever the due day is ahead, and otherwise exactly when the month has 30 days; the difference is 30 − month length |
| `CompactCard.ZeroDaysBeforeDueDay` | components/CreditCard.jsx:12-13 | on the 31st of January with the due day on the 1st the widget gives 0, the real wait is 1 |
| `CompactCard.WarningsDisagreeOnlyAt80` | components/CreditCard.jsx:39 | the strict > 80 warning differs from the dashboard's ≥ 80 exactly at 80 |
| `CompactCard.Render` | components/CreditCard.jsx:5-45 | available + used = limit; bar width is `min(percent, 100)`, so it is at most 100 and equals the percent while used ≤ limit; warning exactly when used × 100 > 80 × limit; due alert exactly when the 30-day wait is ≤ 3 |

## Findings

| source | as written | input that shows it | evidently intended | confidence | as-written member | corrected member |
|---|---|---|---|---|---|---|
| components/CreditCard.jsx:12-13 | after the due day has passed, the wait rolls over after a fixed 30-day month | due date 1 on January 31: the widget says 0 days, but the bill is due tomorrow; on February 28 of a common year it says 3 days instead of 1 | roll over after the real month length, as components/dashboard/CreditCard.jsx:8-20 and app/api/credit-card/route.js:34-44 do | medium, not executed | `CompactCard.ZeroDaysBeforeDueDay` | `DueDates.DaysUntilDueRange` |

The server route and the dashboard widget already compute the real-month wait as written; `DueDates.DaysUntilDue` models that code, and it is the behaviour the compact widget evidently intends.
The compact widget's own module keeps its code as written.

## Left out

- `DueDates.DaysUntilDueIsFirstArrival`: when the due day has passed and the next month lacks it, the wait does not land on the due day; `DueDates.WaitOvershootsShortMonth` shows that case as written.
- `CompactCard.PercentUsed`: requires a positive limit. With a zero limit JavaScript gives Infinity or NaN, which the model does not represent.
- `CompactCard.Render`: requires a positive limit, for the same reason.
- `CreditCardRoute.PercentUsed`: a zero limit gives `None`. The model does not say which non-finite number JavaScript produces.
- JavaScript numbers: amounts are exact reals. Rounding, `toFixed`, and the leniency of `parseFloat` (`"12abc"` parses as 12) are not modelled. Parsed values are inputs.
- JSON values of other kinds: a boolean `adjustment`, or a numeric string bound into SQL, are not modelled.
- `TransactionsRoute.Post`: takes the amount as a number. A request without `amount` binds NULL; the UPDATE then computes `balance - NULL`, `credit_used + NULL` or `balance + NULL` (app/api/transactions/route.js:42-61), writes NULL into that account field for good, and still replies 200 `{success: true}`. The model cannot express this path.
- Missing request fields: a missing category, description or type is stored as NULL. SQLite's CHECK admits a NULL type, so such a row is inserted with no type and no account update. A NULL description is also skipped by the reset. The model takes every field as present text.
- Date handling: `created_at` is a UTC timestamp, while "today" and "this month" use the local date. The model compares abstract day keys. `toLocaleString` formatting of the `time` field is left out, and rows carry their timestamp instead.
- The category breakdown of the card route (app/api/credit-card/route.js:60-71) is a SQL GROUP BY feeding a display. It is not part of this model.
- The LEFT JOIN on categories is modelled as a name-to-icon map. Duplicate category names, which would repeat rows, are not modelled.
- Ties in `ORDER BY created_at DESC`: `CURRENT_TIMESTAMP` has one-second resolution, so rows can share a stamp, and SQLite leaves their order open. `Queries.InsertByStamp` keeps tied rows in ledger (id) order, so `TransactionsRoute.Get` and `CreditCardRoute.LatestPurchases` pin one legal order among ties, which at the LIMIT boundary also picks which tied row is returned. What `Queries.NewestSpec` and `Queries.NewestComplete` state (length, newest first, rows of the ledger, nothing later left out) is true of every legal tie order.
- Read failures: a failing SELECT in a GET, and a failing BEGIN, COMMIT or ROLLBACK statement, are not modelled. Only failures of the write statements are inputs.
- Concurrency and isolation: each request is one atomic method, and interleavings are not modelled.
- String lengths in the validators count Unicode characters, not UTF-16 code units.
- Authentication (app/api/auth/route.js, contexts/AuthContext.js, app/login/page.js) relies on bcrypt, JWT and browser storage. It is not part of this model.
- Schema creation and seeding (lib/db.js, scripts/) are not part of this model, apart from the type CHECK constraint.
- contexts/FinanceContext.js is not part of this model. It is fetch plumbing that repeats the widget arithmetic.
- app/dashboard/page.js is a client-side demo that charges card purchases to the balance. It is not part of this model.
- The form, list, balance and stats components, the layout and the `formatters` and `categories` of lib/config.js are not part of this model. They are presentation.
