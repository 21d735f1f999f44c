/** Day-of-month arithmetic for the card's due date, shared by the card route
    and the dashboard card widget. */
module DueDates {

  predicate IsLeapYear(y: int)
  {
    y % 4 == 0 && (y % 100 != 0 || y % 400 == 0)
  }

  /** The last day of month `m` (1 to 12) of year `y`, as
      `new Date(y, m, 0).getDate()` gives it in the Gregorian calendar. */
  function DaysInMonth(y: int, m: int): (n: int)
    requires 1 <= m <= 12
    ensures 28 <= n <= 31
    ensures n == 31 <==> m in {1, 3, 5, 7, 8, 10, 12}
    ensures n == 30 <==> m in {4, 6, 9, 11}
    ensures n == 29 <==> m == 2 && IsLeapYear(y)
    ensures n == 28 <==> m == 2 && !IsLeapYear(y)
  {
    if m == 2 then (if IsLeapYear(y) then 29 else 28)
    else if m in {4, 6, 9, 11} then 30
    else 31
  }

  /** Days from `currentDay` to the next `dueDay`: later this month when the
      due day has not passed, otherwise in the month that follows a month of
      `daysInMonth` days. */
  function DaysUntilDue(dueDay: int, currentDay: int, daysInMonth: int): int
  {
    if dueDay >= currentDay then dueDay - currentDay
    else daysInMonth - currentDay + dueDay
  }

  /** The length of the month that follows month `m` of year `y`. */
  function DaysInNextMonth(y: int, m: int): int
    requires 1 <= m <= 12
  {
    if m == 12 then DaysInMonth(y + 1, 1) else DaysInMonth(y, m + 1)
  }

  /** A calendar day counted from today: how many months ahead it lies (0 for
      this month) and its day of the month. */
  datatype CalendarDay = CalendarDay(monthsAhead: nat, day: int)

  /** The calendar day `k` days after day `currentDay` of a month of
      `daysInMonth` days followed by one of `nextMonthDays` days; beyond those
      two months the count goes on into the month after. */
  function DayAfter(currentDay: int, k: int, daysInMonth: int, nextMonthDays: int): CalendarDay
  {
    if currentDay + k <= daysInMonth then CalendarDay(0, currentDay + k)
    else if currentDay + k - daysInMonth <= nextMonthDays then CalendarDay(1, currentDay + k - daysInMonth)
    else CalendarDay(2, currentDay + k - daysInMonth - nextMonthDays)
  }

  /** Counting forward day by day from `currentDay` of month `month` of year
      `year`, the wait is the first count at which the calendar shows the due
      day, this month or the next: it lands there, and no shorter wait does.
      When the due day has passed, this needs the next month to have that day
      (see `WaitOvershootsShortMonth` for what happens otherwise). */
  lemma DaysUntilDueIsFirstArrival(year: int, month: int, dueDay: int, currentDay: int)
    requires 1 <= month <= 12
    requires 1 <= currentDay <= DaysInMonth(year, month) && 1 <= dueDay <= DaysInMonth(year, month)
    requires dueDay < currentDay ==> dueDay <= DaysInNextMonth(year, month)
    ensures var dim, next := DaysInMonth(year, month), DaysInNextMonth(year, month);
      var r := DaysUntilDue(dueDay, currentDay, dim);
      && 0 <= r < dim
      && DayAfter(currentDay, r, dim, next).day == dueDay
      && DayAfter(currentDay, r, dim, next).monthsAhead <= 1
      && forall k :: 0 <= k < r ==> DayAfter(currentDay, k, dim, next).day != dueDay
  {
  }

  /** As written, the wait ignores the next month's length: from 31 January
      2025 with due day 30 it is 30 days, and 30 days later the calendar shows
      2 March, since February 2025 has no 30th. */
  lemma WaitOvershootsShortMonth()
    ensures DaysUntilDue(30, 31, DaysInMonth(2025, 1)) == 30
    ensures DayAfter(31, 30, DaysInMonth(2025, 1), DaysInNextMonth(2025, 1)) == CalendarDay(2, 2)
  {
  }

  /** On a real calendar day the wait is never negative, is zero exactly on
      the due day, and, for a due day the month has, is the distance to the
      due day counted modulo the month's length. */
  lemma {:induction false} DaysUntilDueRange(dueDay: int, currentDay: int, daysInMonth: int)
    requires 1 <= currentDay <= daysInMonth && dueDay >= 1
    ensures DaysUntilDue(dueDay, currentDay, daysInMonth) >= 0
    ensures DaysUntilDue(dueDay, currentDay, daysInMonth) == 0 <==> dueDay == currentDay
    ensures dueDay <= daysInMonth ==>
      DaysUntilDue(dueDay, currentDay, daysInMonth) < daysInMonth
      && DaysUntilDue(dueDay, currentDay, daysInMonth) == (dueDay - currentDay) % daysInMonth
  {
    var r := DaysUntilDue(dueDay, currentDay, daysInMonth);
    if dueDay <= daysInMonth {
      if dueDay >= currentDay {
        ModOfSmall(dueDay - currentDay, daysInMonth);
      } else {
        ModOfNegativeSmall(dueDay - currentDay, daysInMonth);
      }
    }
  }

  lemma ModOfSmall(x: int, m: int)
    requires 0 <= x < m
    ensures x % m == x
  {
  }

  lemma ModOfNegativeSmall(x: int, m: int)
    requires -m <= x < 0
    ensures x % m == x + m
  {
    assert x / m == -1;
  }
}
