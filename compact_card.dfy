/** The compact credit-card widget: its props `limit`, `used`, `dueDate`
    (15 when not given) and today's date. It assumes every month has 30 days
    and warns strictly above 80%. */
module CompactCard {
  import opened Ledger
  import DueDates
  import DashboardCard
  import CreditCardRoute

  /** The `dueDate = 15` default of the props. */
  function DueDateOrDefault(dueDate: Option<int>): (d: int)
    ensures dueDate.Some? ==> d == dueDate.value
    ensures dueDate.None? ==> d == 15
  {
    if dueDate.Some? then dueDate.value else 15
  }

  /** `used / limit * 100`, for a positive limit. */
  function PercentUsed(limit: real, used: real): (p: real)
    requires limit > 0.0
    ensures p * limit == used * 100.0
  {
    used / limit * 100.0
  }

  /** For a positive limit the widget's share is the one the card route reports. */
  lemma PercentMatchesRoute(limit: real, used: real)
    requires limit > 0.0
    ensures CreditCardRoute.PercentUsed(used, limit) == Some(PercentUsed(limit, used))
  {
  }

  /** A missing due date falls back to the same 15th as the route's
      `credit_due_day || 15`; a due date of 0 passed in, though, is kept by the
      widget where the route would replace it. */
  lemma DueDayFallbacksAgree()
    ensures DueDateOrDefault(None) == CreditCardRoute.EffectiveDueDay(0)
    ensures DueDateOrDefault(Some(0)) != CreditCardRoute.EffectiveDueDay(0)
  {
  }

  /** The share crosses a threshold exactly when the debt crosses that share
      of the limit; it stays within 100 exactly while the debt stays within
      the limit. */
  lemma PercentUsedThresholds(limit: real, used: real, threshold: real)
    requires limit > 0.0
    ensures PercentUsed(limit, used) >= threshold <==> used * 100.0 >= threshold * limit
    ensures PercentUsed(limit, used) > threshold <==> used * 100.0 > threshold * limit
    ensures PercentUsed(limit, used) <= 100.0 <==> used <= limit
  {
    var p := PercentUsed(limit, used);
    assert p * limit == used * 100.0;
    if p >= threshold {
      assert p * limit >= threshold * limit;
    } else {
      assert p * limit < threshold * limit;
    }
    if p > threshold {
      assert p * limit > threshold * limit;
    } else {
      assert p * limit <= threshold * limit;
    }
    if p <= 100.0 {
      assert p * limit <= 100.0 * limit;
    } else {
      assert p * limit > 100.0 * limit;
    }
  }

  /** The widget's `daysUntilDue`, rolling over after a fixed 30-day month. */
  function DaysLeft(dueDate: int, currentDay: int): int
  {
    if dueDate >= currentDay then dueDate - currentDay else 30 - currentDay + dueDate
  }

  /** Against the real month length: the two agree whenever the due day is
      still ahead, and otherwise exactly when the month has 30 days; the
      fixed month is off by 30 minus the month's length. */
  lemma ThirtyDayMonthAgreement(dueDate: int, currentDay: int, daysInMonth: int)
    ensures DaysLeft(dueDate, currentDay) == DueDates.DaysUntilDue(dueDate, currentDay, daysInMonth)
        <==> dueDate >= currentDay || daysInMonth == 30
    ensures dueDate < currentDay ==>
      DaysLeft(dueDate, currentDay) == DueDates.DaysUntilDue(dueDate, currentDay, daysInMonth) + (30 - daysInMonth)
  {
  }

  /** On the 31st of a 31-day month with the due day on the 1st, the widget
      says the bill is due today although it is due tomorrow. */
  lemma ZeroDaysBeforeDueDay()
    ensures DaysLeft(1, 31) == 0
    ensures DueDates.DaysUntilDue(1, 31, DueDates.DaysInMonth(2025, 1)) == 1
  {
  }

  /** The warning shows strictly above 80%. */
  predicate ShowsLimitWarning(percentUsed: real)
  {
    percentUsed > 80.0
  }

  /** The two widgets' limit warnings disagree at exactly 80% and nowhere else. */
  lemma WarningsDisagreeOnlyAt80(p: real)
    ensures ShowsLimitWarning(p) != DashboardCard.ShowsLimitWarning(p) <==> p == 80.0
  {
  }

  /** What the widget shows for its props on day `currentDay`: available
      credit, bar width, whether the limit warning and the due alert show. */
  datatype View = View(available: real, barWidth: real, limitWarning: bool, dueAlert: bool)

  function Render(limit: real, used: real, dueDate: Option<int>, currentDay: int): (v: View)
    requires limit > 0.0
    ensures v.available + used == limit
    ensures v.barWidth == DashboardCard.BarWidth(PercentUsed(limit, used))
    ensures v.barWidth <= 100.0 && (used <= limit ==> v.barWidth * limit == used * 100.0)
    ensures v.limitWarning <==> used * 100.0 > 80.0 * limit
    ensures v.dueAlert <==> DaysLeft(DueDateOrDefault(dueDate), currentDay) <= 3
  {
    var p := PercentUsed(limit, used);
    PercentUsedThresholds(limit, used, 80.0);
    View(DashboardCard.Available(limit, used), DashboardCard.BarWidth(p),
         ShowsLimitWarning(p), DashboardCard.ShowsDueAlert(DaysLeft(DueDateOrDefault(dueDate), currentDay)))
  }
}
