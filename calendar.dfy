/**
 * The calendar arithmetic the age calculator borrows from the platform's
 * `Date` object: the proleptic Gregorian calendar, month lengths, and the
 * day and month rollover that `new Date(year, monthIndex, date)` performs
 * (section 21.4.2.1 of ECMA-262, through MakeDay of section 21.4.1).
 * Only the calendar date of a time value is modelled, never its time of day.
 */
module Calendar {

  /** A calendar date. `month` is 1-based (January is 1); the platform's
      `getMonth()` is this value minus one. */
  datatype Date = Date(year: int, month: int, day: int)

  /** Gregorian leap years: divisible by 4, except centuries not divisible by 400. */
  predicate IsLeapYear(y: int)
  {
    y % 4 == 0 && (y % 100 != 0 || y % 400 == 0)
  }

  /** Number of days in month `m` (1-based) of year `y`. */
  function DaysInMonth(y: int, m: int): (n: int)
    requires 1 <= m <= 12
    ensures 28 <= n <= 31
    ensures n == 29 <==> m == 2 && IsLeapYear(y)
    ensures m == 1 || m == 12 ==> n == 31
  {
    if m == 2 then (if IsLeapYear(y) then 29 else 28)
    else if m == 4 || m == 6 || m == 9 || m == 11 then 30
    else 31
  }

  /** A date that exists in the calendar. */
  predicate ValidDate(d: Date)
  {
    1 <= d.month <= 12 && 1 <= d.day <= DaysInMonth(d.year, d.month)
  }

  /** Strict chronological order of calendar dates: year, then month, then day. */
  predicate IsBefore(a: Date, b: Date)
  {
    a.year < b.year
    || (a.year == b.year && a.month < b.month)
    || (a.year == b.year && a.month == b.month && a.day < b.day)
  }

  /** The month after month `m` of year `y`, as (year, month). */
  function NextMonth(y: int, m: int): (r: (int, int))
    requires 1 <= m <= 12
    ensures 1 <= r.1 <= 12
    ensures IsBefore(Date(y, m, 1), Date(r.0, r.1, 1))
  {
    if m == 12 then (y + 1, 1) else (y, m + 1)
  }

  /** The month before month `m` of year `y`, as (year, month). */
  function PrevMonth(y: int, m: int): (r: (int, int))
    requires 1 <= m <= 12
    ensures 1 <= r.1 <= 12
    ensures IsBefore(Date(r.0, r.1, DaysInMonth(r.0, r.1)), Date(y, m, 1))
  {
    if m == 1 then (y - 1, 12) else (y, m - 1)
  }

  /**
   * The day rollover of MakeDay: the date `d - 1` days after the first of
   * month `m` of year `y`. A day beyond the month's length runs on into the
   * following months, a day below 1 runs back into the preceding ones.
   */
  function RollDays(y: int, m: int, d: int): (r: Date)
    requires 1 <= m <= 12
    ensures ValidDate(r)
    ensures 1 <= d <= DaysInMonth(y, m) ==> r == Date(y, m, d)
    decreases if d < 1 then 1 - d else 0, if d < 1 then 0 else d
  {
    if d < 1 then
      var prev := PrevMonth(y, m);
      RollDays(prev.0, prev.1, d + DaysInMonth(prev.0, prev.1))
    else if d <= DaysInMonth(y, m) then
      Date(y, m, d)
    else
      var next := NextMonth(y, m);
      RollDays(next.0, next.1, d - DaysInMonth(y, m))
  }

  /**
   * The rollover moves in the direction of the overflow: a day beyond the
   * month's length lands after the month's last day, and a day below 1,
   * and only such a day, lands before the month's first day.
   */
  lemma {:induction false} RollDaysDirection(y: int, m: int, d: int)
    requires 1 <= m <= 12
    ensures d > DaysInMonth(y, m) ==> IsBefore(Date(y, m, DaysInMonth(y, m)), RollDays(y, m, d))
    ensures d < 1 <==> IsBefore(RollDays(y, m, d), Date(y, m, 1))
    decreases if d < 1 then 1 - d else 0, if d < 1 then 0 else d
  {
    if d < 1 {
      var prev := PrevMonth(y, m);
      RollDaysDirection(prev.0, prev.1, d + DaysInMonth(prev.0, prev.1));
    } else if d > DaysInMonth(y, m) {
      var next := NextMonth(y, m);
      RollDaysDirection(next.0, next.1, d - DaysInMonth(y, m));
    }
  }

  /**
   * The calendar date of `new Date(year, monthIndex, date)`: a year in
   * [0, 99] means 1900 + year, a month index outside [0, 11] carries into
   * the year, and the day rolls over as in RollDays.
   */
  function NewDate(year: int, monthIndex: int, date: int): (r: Date)
    ensures ValidDate(r)
    ensures 0 <= monthIndex <= 11 && 1 <= date <= DaysInMonth(FullYear(year), monthIndex + 1)
            ==> r == Date(FullYear(year), monthIndex + 1, date)
  {
    var carry := MonthCarry(monthIndex);
    RollDays(FullYear(year) + carry, monthIndex - 12 * carry + 1, date)
  }

  /** The years a month index carries: floor(monthIndex / 12), so that the remainder is in [0, 11]. */
  function MonthCarry(monthIndex: int): (q: int)
    ensures 12 * q <= monthIndex < 12 * q + 12
    decreases if monthIndex < 0 then 12 - monthIndex else monthIndex
  {
    if monthIndex < 0 then MonthCarry(monthIndex + 12) - 1
    else if monthIndex < 12 then 0
    else MonthCarry(monthIndex - 12) + 1
  }

  /** The year the `Date` constructor uses for its year argument: two-digit years are in the 1900s. */
  function FullYear(year: int): int
  {
    if 0 <= year <= 99 then 1900 + year else year
  }

  /** A month index 12 * k + j with j in [-1, 11] carries k years, less one when j is -1 (December of the year before). */
  lemma CarryMonthIndex(y: int, k: int, j: int, d: int)
    requires -1 <= j <= 11 && FullYear(y) == y
    ensures NewDate(y, 12 * k + j, d)
            == if j < 0 then RollDays(y + k - 1, 12, d) else RollDays(y + k, j + 1, d)
  {
    assert MonthCarry(12 * k + j) == if j < 0 then k - 1 else k;
  }

  /**
   * Calendar addition with the `Date` rollover: move `d` forward by `months`
   * months keeping its day of the month (a day the target month lacks runs
   * into the next month), then by `days` days.
   */
  function AddMonthsAndDays(d: Date, months: int, days: int): (r: Date)
    ensures ValidDate(r)
  {
    AddDays(NewDate(d.year, d.month - 1 + months, d.day), days)
  }

  /** Move a real date forward by `days` days with the `Date` rollover. */
  function AddDays(d: Date, days: int): (r: Date)
    requires ValidDate(d)
    ensures ValidDate(r)
    ensures days == 0 ==> r == d
  {
    RollDays(d.year, d.month, d.day + days)
  }

  /**
   * A day in [1, 31] of a month in [1, 12] overflows at most once, into the
   * next month of the same year (December has 31 days, so it never
   * overflows): the constructed date is either the given one or
   * (year, month + 1, day - DaysInMonth(year, month)).
   */
  lemma NewDateOfFields(year: int, month: int, day: int)
    requires 1 <= month <= 12 && 1 <= day <= 31 && FullYear(year) == year
    ensures day > DaysInMonth(year, month) ==> month < 12
    ensures NewDate(year, month - 1, day)
            == if day <= DaysInMonth(year, month) then Date(year, month, day)
               else Date(year, month + 1, day - DaysInMonth(year, month))
  {
    if day > DaysInMonth(year, month) {
      var n := DaysInMonth(year, month);
      assert month < 12;
      assert RollDays(year, month, day) == RollDays(year, month + 1, day - n);
      assert 1 <= day - n <= 3 <= DaysInMonth(year, month + 1);
    }
  }

  /**
   * Day 0 of a month is the last day of the month before it, so
   * `new Date(y, monthIndex, 0).getDate()` is the length of the preceding
   * month: 31 (December of the previous year) when the month is January.
   */
  lemma LastDayOfPreviousMonth(y: int, m: int)
    requires 1 <= m <= 12
    ensures var prev := PrevMonth(FullYear(y), m);
            NewDate(y, m - 1, 0) == Date(prev.0, prev.1, DaysInMonth(prev.0, prev.1))
    ensures m == 1 ==> NewDate(y, m - 1, 0) == Date(FullYear(y) - 1, 12, 31)
  {
    var prev := PrevMonth(FullYear(y), m);
    assert RollDays(FullYear(y), m, 0) == RollDays(prev.0, prev.1, DaysInMonth(prev.0, prev.1));
  }
}
