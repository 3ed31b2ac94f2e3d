/** Calendar days as the handlers read them from JavaScript `Date` objects, the date
    windows the dashboard queries with, and the month distance its charts use. */
module Dates {

  /** A day as `getFullYear()`, `getMonth()` (0 = January .. 11 = December) and
      `getDate()` (1 .. 31) report it.  The time of day is not modelled. */
  datatype Date = Date(year: int, month: int, day: int)

  predicate IsLeapYear(year: int)
  {
    year % 4 == 0 && (year % 100 != 0 || year % 400 == 0)
  }

  function DaysInMonth(year: int, month: int): (n: int)
    requires 0 <= month < 12
    ensures 28 <= n <= 31
    ensures month == 1 ==> (n == 29 <==> IsLeapYear(year))
  {
    if month == 1 then (if IsLeapYear(year) then 29 else 28)
    else if month == 3 || month == 5 || month == 8 || month == 10 then 30
    else 31
  }

  /** A day that exists in the Gregorian calendar. */
  predicate ValidDate(d: Date)
  {
    0 <= d.month < 12 && 1 <= d.day <= DaysInMonth(d.year, d.month)
  }

  /** Chronological order of days: by year, then month, then day of month. */
  predicate OnOrBefore(a: Date, b: Date)
  {
    a.year < b.year || (a.year == b.year && (a.month < b.month || (a.month == b.month && a.day <= b.day)))
  }

  /** The month a day falls in, counted on one axis (twelve per year). */
  function MonthNumber(d: Date): int
  {
    12 * d.year + d.month
  }

  lemma MonthNumberMonotone(a: Date, b: Date)
    requires 0 <= a.month < 12 && 0 <= b.month < 12
    requires OnOrBefore(a, b)
    ensures MonthNumber(a) <= MonthNumber(b)
  {
  }

  lemma SameMonthNumber(a: Date, b: Date)
    requires 0 <= a.month < 12 && 0 <= b.month < 12
    requires MonthNumber(a) == MonthNumber(b)
    ensures a.year == b.year && a.month == b.month
  {
  }

  /** `new Date(year, month, 1)`: a month index outside 0..11 is carried into the year. */
  function FirstDayOf(year: int, month: int): (d: Date)
    ensures ValidDate(d) && d.day == 1
    ensures MonthNumber(d) == 12 * year + month
  {
    var k := 12 * year + month;
    Date(k / 12, k % 12, 1)
  }

  /** `new Date(year, month, 0)`: day 0 of a month is the last day of the month before it. */
  function DayZeroOf(year: int, month: int): (d: Date)
    ensures ValidDate(d)
    ensures MonthNumber(d) == 12 * year + month - 1
    ensures d.day == DaysInMonth(d.year, d.month)
  {
    var k := 12 * year + month - 1;
    Date(k / 12, k % 12, DaysInMonth(k / 12, k % 12))
  }

  /** A closed range of days, as a `{ $gte: start, $lte: end }` filter selects them. */
  datatype Window = Window(start: Date, end: Date)

  predicate InWindow(d: Date, w: Window)
  {
    OnOrBefore(w.start, d) && OnOrBefore(d, w.end)
  }

  /** The current-month window: from the first of today's month up to today. */
  function ThisMonth(today: Date): (w: Window)
    ensures w.end == today && w.start.day == 1
    ensures MonthNumber(w.start) == MonthNumber(today)
  {
    Window(FirstDayOf(today.year, today.month), today)
  }

  /** The last-month window as the dashboard writes it: the end is
      `new Date(year, month - 1, 0)`, which is the last day of the month TWO months back. */
  function AsWrittenLastMonth(today: Date): Window
  {
    Window(FirstDayOf(today.year, today.month - 1), DayZeroOf(today.year, today.month - 1))
  }

  /** The window above selects nothing: its end lies before its start. */
  lemma AsWrittenLastMonthIsEmpty(today: Date, d: Date)
    requires ValidDate(d)
    ensures OnOrBefore(AsWrittenLastMonth(today).end, AsWrittenLastMonth(today).start)
    ensures AsWrittenLastMonth(today).end != AsWrittenLastMonth(today).start
    ensures !InWindow(d, AsWrittenLastMonth(today))
  {
    var w := AsWrittenLastMonth(today);
    assert MonthNumber(w.end) + 1 == MonthNumber(w.start);
    if InWindow(d, w) {
      MonthNumberMonotone(w.start, d);
      MonthNumberMonotone(d, w.end);
      assert false;
    }
  }

  /** The evidently intended last-month window: ending on day 0 of THIS month. */
  function LastMonth(today: Date): Window
  {
    Window(FirstDayOf(today.year, today.month - 1), DayZeroOf(today.year, today.month))
  }

  /** It selects exactly the days of the previous calendar month. */
  lemma LastMonthIsPreviousMonth(today: Date, d: Date)
    requires ValidDate(d)
    ensures InWindow(d, LastMonth(today)) <==> MonthNumber(d) == MonthNumber(today) - 1
  {
    var w := LastMonth(today);
    assert MonthNumber(w.start) == MonthNumber(today) - 1 == MonthNumber(w.end);
    if InWindow(d, w) {
      MonthNumberMonotone(w.start, d);
      MonthNumberMonotone(d, w.end);
    }
    if MonthNumber(d) == MonthNumber(today) - 1 {
      SameMonthNumber(d, w.start);
      SameMonthNumber(d, w.end);
    }
  }

  /** `sixMonthAgo.setMonth(getMonth() - 6)`: the same day of the month six months back.
      (JavaScript rolls a day that does not exist in that month into the next one; the
      model keeps the day number, which only moves the window's edge within that month.) */
  function SixMonthsAgo(today: Date): (d: Date)
    ensures 0 <= d.month < 12 && d.day == today.day
    ensures MonthNumber(d) == MonthNumber(today) - 6
  {
    var k := 12 * today.year + today.month - 6;
    Date(k / 12, k % 12, today.day)
  }

  /** The window of the six-month order query: `{ $gte: sixMonthAgo, $lte: today }`. */
  function LastSixMonths(today: Date): Window
  {
    Window(SixMonthsAgo(today), today)
  }

  /** The month difference as the dashboard writes it: `today.getMonth() - created.getMonth()`,
      which ignores the year. */
  function AsWrittenMonthDiff(today: Date, created: Date): int
  {
    today.month - created.month
  }

  /** The evidently intended month difference: whole calendar months from the creation
      month to today's month, across year boundaries. */
  function MonthsBack(today: Date, created: Date): (d: int)
    ensures d == MonthNumber(today) - MonthNumber(created)
  {
    12 * (today.year - created.year) + today.month - created.month
  }

  /** Every day of the six-month window lies 0 to 6 calendar months back. */
  lemma SixMonthWindowMonthsBack(today: Date, created: Date)
    requires 0 <= today.month < 12 && ValidDate(created)
    requires InWindow(created, LastSixMonths(today))
    ensures 0 <= MonthsBack(today, created) <= 6
  {
    MonthNumberMonotone(SixMonthsAgo(today), created);
    MonthNumberMonotone(created, today);
  }

  /** Within one year the two differences agree. */
  lemma MonthDiffAgreesWithinYear(today: Date, created: Date)
    requires today.year == created.year
    ensures AsWrittenMonthDiff(today, created) == MonthsBack(today, created)
  {
  }

  /** Across a year boundary the written difference is negative although the order lies in
      the query window: an order from December seen in January gives -11 instead of 1. */
  lemma AsWrittenMonthDiffCrossYear()
    ensures InWindow(Date(2024, 11, 20), LastSixMonths(Date(2025, 0, 15)))
    ensures AsWrittenMonthDiff(Date(2025, 0, 15), Date(2024, 11, 20)) == -11
    ensures MonthsBack(Date(2025, 0, 15), Date(2024, 11, 20)) == 1
  {
  }
}
