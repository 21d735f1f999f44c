/** The dashboard's credit-card widget: what it derives from its props
    `limit`, `used`, `dueDay` and `percentage` and from today's date. */
module DashboardCard {
  import opened DueDates
  import opened Ledger
  import CreditCardRoute
  import BalanceRoute

  /** What the card can still absorb; not clamped at zero. */
  function Available(limit: real, used: real): (r: real)
    ensures r + used == limit
  {
    limit - used
  }

  /** Fed with an account's limit and debt, the widget shows the same available
      credit as the account model and as both routes' GET replies. */
  lemma AvailableMatchesRoutes(a: Account, ledger: seq<Txn>, today: Date)
    requires 1 <= today.month <= 12
    ensures Available(a.creditLimit, a.creditUsed) == CreditAvailable(a)
    ensures Available(a.creditLimit, a.creditUsed) == CreditCardRoute.Get(Some(a), ledger, today).available
    ensures Available(a.creditLimit, a.creditUsed) == BalanceRoute.Get(Some(a), ledger, today).creditAvailable
  {
  }

  /** The `daysUntilDue` of the widget: the wait until the due day, rolling
      over after the real length of the current month. */
  function DaysLeft(dueDay: int, year: int, month: int, currentDay: int): int
    requires 1 <= month <= 12
  {
    DaysUntilDue(dueDay, currentDay, DaysInMonth(year, month))
  }

  /** On a real calendar day and any due day from 1 to 31 (a due day the
      month lacks included) the wait is within [0, 31), and zero exactly on
      the due day. */
  lemma DaysLeftRange(dueDay: int, year: int, month: int, currentDay: int)
    requires 1 <= month <= 12 && 1 <= currentDay <= DaysInMonth(year, month)
    requires 1 <= dueDay <= 31
    ensures 0 <= DaysLeft(dueDay, year, month, currentDay) < 31
    ensures DaysLeft(dueDay, year, month, currentDay) == 0 <==> dueDay == currentDay
  {
    DaysUntilDueRange(dueDay, currentDay, DaysInMonth(year, month));
  }

  const StatusRed: string := "from-red-500 to-red-600"
  const StatusOrange: string := "from-orange-500 to-orange-600"
  const StatusPurple: string := "from-purple-500 to-indigo-600"

  /** The card's gradient: red from 90%, orange from 70%, purple below. */
  function StatusColor(percentage: real): (c: string)
    ensures c == StatusRed <==> percentage >= 90.0
    ensures c == StatusOrange <==> 70.0 <= percentage < 90.0
    ensures c == StatusPurple <==> percentage < 70.0
  {
    if percentage >= 90.0 then StatusRed
    else if percentage >= 70.0 then StatusOrange
    else StatusPurple
  }

  const ProgressRed: string := "bg-red-500"
  const ProgressOrange: string := "bg-orange-500"
  const ProgressGreen: string := "bg-green-500"

  /** The progress bar's colour: the same thresholds, green below 70%. */
  function ProgressColor(percentage: real): (c: string)
    ensures c == ProgressRed <==> percentage >= 90.0
    ensures c == ProgressOrange <==> 70.0 <= percentage < 90.0
    ensures c == ProgressGreen <==> percentage < 70.0
  {
    if percentage >= 90.0 then ProgressRed
    else if percentage >= 70.0 then ProgressOrange
    else ProgressGreen
  }

  /** The two colourings use the same thresholds: two percentages get the same
      gradient exactly when they get the same bar colour; red and orange
      match, and purple goes with green. */
  lemma ColorsShareThresholds(p: real, q: real)
    ensures StatusColor(p) == StatusColor(q) <==> ProgressColor(p) == ProgressColor(q)
    ensures StatusColor(p) == StatusRed <==> ProgressColor(p) == ProgressRed
    ensures StatusColor(p) == StatusPurple <==> ProgressColor(p) == ProgressGreen
  {
  }

  /** The colours only escalate: a higher usage never gets a calmer colour. */
  lemma ColorsEscalate(p: real, q: real)
    requires p <= q
    ensures StatusColor(p) == StatusRed ==> StatusColor(q) == StatusRed
    ensures StatusColor(p) == StatusOrange ==> StatusColor(q) != StatusPurple
  {
  }

  /** `Math.min(percentage, 100)`: the bar never overflows and shows the
      percentage itself up to 100. */
  function BarWidth(percentage: real): (w: real)
    ensures w <= 100.0 && w <= percentage
    ensures w == percentage || w == 100.0
  {
    if percentage <= 100.0 then percentage else 100.0
  }

  /** The limit warning: shown from 80% usage on. */
  predicate ShowsLimitWarning(percentage: real)
  {
    percentage >= 80.0
  }

  /** The due alert: shown when the due day is at most three days away. */
  predicate ShowsDueAlert(daysUntilDue: int)
  {
    daysUntilDue <= 3
  }

  /** The warning never shows on a purple card, and a red card always shows it. */
  lemma WarningMatchesColor(p: real)
    ensures ShowsLimitWarning(p) ==> StatusColor(p) != StatusPurple
    ensures StatusColor(p) == StatusRed ==> ShowsLimitWarning(p)
  {
  }

  /** On a real calendar day the due alert shows exactly on the due day and
      the three days before it, counting into the next month; a due day the
      month lacks is counted straight on from today. */
  lemma DueAlertWindow(dueDay: int, year: int, month: int, currentDay: int)
    requires 1 <= month <= 12 && 1 <= currentDay <= DaysInMonth(year, month)
    requires 1 <= dueDay <= 31
    ensures dueDay <= DaysInMonth(year, month) ==>
      (ShowsDueAlert(DaysLeft(dueDay, year, month, currentDay)) <==>
       (dueDay - currentDay) % DaysInMonth(year, month) <= 3)
    ensures dueDay > DaysInMonth(year, month) ==>
      (ShowsDueAlert(DaysLeft(dueDay, year, month, currentDay)) <==> dueDay - currentDay <= 3)
  {
    DaysUntilDueRange(dueDay, currentDay, DaysInMonth(year, month));
  }
}
