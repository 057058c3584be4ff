/**
 * Local wall-clock arithmetic behind the controllers' day helpers.
 *
 * A `Time` is a number of milliseconds since 1970-01-01 00:00:00.000 in the server's
 * local time, so a calendar day is a block of `DayMs` consecutive milliseconds. The
 * calendar is the proleptic Gregorian one that JavaScript's `Date` uses, and a month
 * index outside 0..11 is carried into the year the way `new Date(y, m, d)` does it.
 */
module Calendar {

  const SecondMs: int := 1000
  const MinuteMs: int := 60 * SecondMs
  const HourMs: int := 60 * MinuteMs
  const DayMs: int := 24 * HourMs

  /** Milliseconds since the local epoch. */
  type Time = int

  /** The number of the calendar day `t` falls on (day 0 is 1970-01-01). */
  function DayOf(t: Time): int {
    t / DayMs
  }

  /** Milliseconds elapsed since local midnight. */
  function TimeOfDay(t: Time): (ms: int)
    ensures 0 <= ms < DayMs
    ensures t == DayOf(t) * DayMs + ms
  {
    t % DayMs
  }

  /** The instant `h:m:s.ms` after midnight. */
  function ClockReading(h: int, m: int, s: int, ms: int): int {
    h * HourMs + m * MinuteMs + s * SecondMs + ms
  }

  /** Day number and time of day determine an instant, and every pair in range is one. */
  lemma DayAndTimeOfDay(day: int, ms: int)
    requires 0 <= ms < DayMs
    ensures DayOf(day * DayMs + ms) == day
    ensures TimeOfDay(day * DayMs + ms) == ms
  {
  }

  /** Later days start later. */
  lemma DayStartMonotone(a: int, b: int)
    requires a <= b
    ensures a * DayMs <= b * DayMs
  {
  }

  /** An instant lies before the start of day `b` exactly when its day comes before `b`. */
  lemma BeforeDayStart(t: Time, b: int)
    ensures t < b * DayMs <==> DayOf(t) < b
  {
    var d := DayOf(t);
    assert t == d * DayMs + TimeOfDay(t);
    if d < b {
      DayStartMonotone(d + 1, b);
    } else {
      DayStartMonotone(b, d);
    }
  }

  /** `getStartOfDay`: the same date with the time set to 00:00:00.000. */
  function StartOfDay(t: Time): (s: Time)
    ensures DayOf(s) == DayOf(t) && TimeOfDay(s) == 0
    ensures s <= t < s + DayMs
  {
    DayAndTimeOfDay(DayOf(t), 0);
    DayOf(t) * DayMs
  }

  /** `getEndOfDay`: the same date with the time set to 23:59:59.999. */
  function EndOfDay(t: Time): (e: Time)
    ensures DayOf(e) == DayOf(t)
    ensures TimeOfDay(e) == ClockReading(23, 59, 59, 999)
    ensures StartOfDay(t) <= t <= e == StartOfDay(t) + DayMs - 1
  {
    DayAndTimeOfDay(DayOf(t), DayMs - 1);
    DayOf(t) * DayMs + (DayMs - 1)
  }

  /** `Date.prototype.getHours` in local time. */
  function Hours(t: Time): (h: int)
    ensures 0 <= h < 24
    ensures ClockReading(h, 0, 0, 0) <= TimeOfDay(t) < ClockReading(h + 1, 0, 0, 0)
  {
    TimeOfDay(t) / HourMs
  }

  /** `Date.prototype.getMinutes` in local time. */
  function Minutes(t: Time): (m: int)
    ensures 0 <= m < 60
  {
    TimeOfDay(t) % HourMs / MinuteMs
  }

  /** Hours and minutes read off an instant place it inside that minute of the day. */
  lemma HoursMinutesBracket(t: Time)
    ensures ClockReading(Hours(t), Minutes(t), 0, 0) <= TimeOfDay(t)
    ensures TimeOfDay(t) < ClockReading(Hours(t), Minutes(t), 0, 0) + MinuteMs
  {
    var tod := TimeOfDay(t);
    assert tod == Hours(t) * HourMs + tod % HourMs;
    assert tod % HourMs == Minutes(t) * MinuteMs + tod % HourMs % MinuteMs;
  }

  // ---------------------------------------------------------------------------
  // The Gregorian calendar

  predicate IsLeapYear(y: int) {
    y % 4 == 0 && (y % 100 != 0 || y % 400 == 0)
  }

  function DaysInYear(y: int): (n: int)
    ensures n == 365 || n == 366
  {
    if IsLeapYear(y) then 366 else 365
  }

  /** Length of month `m` (0 = January) of year `y`. */
  function DaysInMonth(y: int, m: int): (n: int)
    requires 0 <= m < 12
    ensures 28 <= n <= 31
    ensures n == 29 <==> m == 1 && IsLeapYear(y)
  {
    if m == 1 then (if IsLeapYear(y) then 29 else 28)
    else if m == 3 || m == 5 || m == 8 || m == 10 then 30
    else 31
  }

  /** Day number of January 1st of year `y`. */
  function YearStart(y: int): int
    decreases if y < 1970 then 1970 - y else y - 1970
  {
    if y == 1970 then 0
    else if y > 1970 then YearStart(y - 1) + DaysInYear(y - 1)
    else YearStart(y + 1) - DaysInYear(y)
  }

  lemma YearStartStep(y: int)
    ensures YearStart(y + 1) == YearStart(y) + DaysInYear(y)
  {
  }

  /** Days of year `y` that precede month `m`. */
  function DaysBeforeMonth(y: int, m: int): int
    requires 0 <= m <= 12
  {
    if m == 0 then 0 else DaysBeforeMonth(y, m - 1) + DaysInMonth(y, m - 1)
  }

  lemma DaysBeforeYearEnd(y: int)
    ensures DaysBeforeMonth(y, 12) == DaysInYear(y)
  {
    var feb := DaysInMonth(y, 1);
    assert DaysBeforeMonth(y, 1) == 31;
    assert DaysBeforeMonth(y, 2) == 31 + feb;
    assert DaysBeforeMonth(y, 3) == 31 + feb + 31;
    assert DaysBeforeMonth(y, 4) == 31 + feb + 31 + 30;
    assert DaysBeforeMonth(y, 5) == 31 + feb + 31 + 30 + 31;
    assert DaysBeforeMonth(y, 6) == 31 + feb + 31 + 30 + 31 + 30;
    assert DaysBeforeMonth(y, 7) == 31 + feb + 31 + 30 + 31 + 30 + 31;
    assert DaysBeforeMonth(y, 8) == 31 + feb + 31 + 30 + 31 + 30 + 31 + 31;
    assert DaysBeforeMonth(y, 9) == 31 + feb + 31 + 30 + 31 + 30 + 31 + 31 + 30;
    assert DaysBeforeMonth(y, 10) == 31 + feb + 31 + 30 + 31 + 30 + 31 + 31 + 30 + 31;
    assert DaysBeforeMonth(y, 11) == 31 + feb + 31 + 30 + 31 + 30 + 31 + 31 + 30 + 31 + 30;
    assert DaysBeforeMonth(y, 12) == 31 + feb + 31 + 30 + 31 + 30 + 31 + 31 + 30 + 31 + 30 + 31;
  }

  /** Day number of `new Date(y, m, 1)`: month index `m` is carried into the year. */
  function MonthStart(y: int, m: int): int {
    var yy := y + m / 12;
    YearStart(yy) + DaysBeforeMonth(yy, m % 12)
  }

  /** Length of the month `new Date(y, m, 1)` falls in. */
  function LengthOfMonth(y: int, m: int): int {
    DaysInMonth(y + m / 12, m % 12)
  }

  /** Day number of `new Date(y, m, d)`: day `d` is counted from the 1st, so 0 is the day before. */
  function DayNumber(y: int, m: int, d: int): int {
    MonthStart(y, m) + d - 1
  }

  /** Consecutive months are adjacent: the next one starts right after this one's last day. */
  lemma MonthLength(y: int, m: int)
    ensures MonthStart(y, m + 1) == MonthStart(y, m) + LengthOfMonth(y, m)
    ensures 28 <= LengthOfMonth(y, m) <= 31
  {
    var q, r := m / 12, m % 12;
    assert m == 12 * q + r;
    if r < 11 {
      assert (m + 1) / 12 == q && (m + 1) % 12 == r + 1;
    } else {
      assert (m + 1) / 12 == q + 1 && (m + 1) % 12 == 0;
      YearStartStep(y + q);
      DaysBeforeYearEnd(y + q);
    }
  }

  // ---------------------------------------------------------------------------
  // Ranges and the clock

  /** An inclusive range of instants, as the queries' `$gte` / `$lte` bounds use them. */
  datatype Range = Range(start: Time, end: Time) {
    predicate Contains(t: Time) {
      start <= t <= end
    }
  }

  /**
   * The range `new Date(year, month - 1, 1)` .. `new Date(year, month, 0, 23, 59, 59, 999)`
   * for a 1-based `month`.
   */
  function MonthRange(year: int, month: int): (r: Range)
    ensures DayOf(r.start) == MonthStart(year, month - 1) && TimeOfDay(r.start) == 0
    ensures TimeOfDay(r.end) == ClockReading(23, 59, 59, 999)
    ensures r.end + 1 == MonthStart(year, month) * DayMs
    ensures DayOf(r.end) - DayOf(r.start) + 1 == LengthOfMonth(year, month - 1)
  {
    var first := DayNumber(year, month - 1, 1);
    var last := DayNumber(year, month, 0);
    MonthLength(year, month - 1);
    DayAndTimeOfDay(first, 0);
    DayAndTimeOfDay(last, DayMs - 1);
    Range(first * DayMs, last * DayMs + (DayMs - 1))
  }

  /** An instant is in a month's range exactly when its calendar day is one of the month's days. */
  lemma MonthRangeDays(year: int, month: int, t: Time)
    ensures MonthRange(year, month).Contains(t) <==> MonthStart(year, month - 1) <= DayOf(t) < MonthStart(year, month)
  {
    var r := MonthRange(year, month);
    assert r.start == MonthStart(year, month - 1) * DayMs;
    BeforeDayStart(t, MonthStart(year, month - 1));
    BeforeDayStart(t, MonthStart(year, month));
  }

  /**
   * The calendar fields `new Date()` reports for "now": year, month index (0 = January),
   * date within the month and milliseconds since midnight.
   */
  datatype Clock = Clock(year: int, month: int, date: int, msOfDay: int)

  predicate ValidClock(c: Clock) {
    && 0 <= c.month < 12
    && 1 <= c.date <= DaysInMonth(c.year, c.month)
    && 0 <= c.msOfDay < DayMs
  }

  /** The instant a clock reading denotes. */
  function Instant(c: Clock): (t: Time)
    requires ValidClock(c)
    ensures DayOf(t) == DayNumber(c.year, c.month, c.date)
    ensures TimeOfDay(t) == c.msOfDay
  {
    DayAndTimeOfDay(DayNumber(c.year, c.month, c.date), c.msOfDay);
    DayNumber(c.year, c.month, c.date) * DayMs + c.msOfDay
  }

  /** The month index of a valid reading is its own normal form. */
  lemma ClockMonthNormal(c: Clock)
    requires ValidClock(c)
    ensures c.month / 12 == 0 && c.month % 12 == c.month
    ensures LengthOfMonth(c.year, c.month) == DaysInMonth(c.year, c.month)
  {
  }
}
