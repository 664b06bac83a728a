/**
 * The part of JavaScript's `Date` that the billing-period resolver relies on:
 * proleptic Gregorian calendar dates, the `new Date(year, monthIndex, day)`
 * constructor with its month and day roll-over, and comparison of dates.
 *
 * A date is identified with its day number, the count of days since
 * 1 January 1970 (day 0). This is the time value of ECMAScript divided by the
 * length of a day, so comparing day numbers is comparing `Date` objects.
 * Time of day and time zones are not modelled: every date is a UTC midnight.
 */
module Calendar {

  /** A calendar date. Unlike `Date.prototype.getMonth`, `month` is 1-based. */
  datatype Date = Date(year: int, month: int, day: int)

  /** Gregorian leap years; `%` is Euclidean, so negative years are handled like JavaScript does. */
  predicate IsLeapYear(y: int) {
    y % 4 == 0 && (y % 100 != 0 || y % 400 == 0)
  }

  function DaysInYear(y: int): int {
    if IsLeapYear(y) then 366 else 365
  }

  function DaysInMonth(y: int, m: int): (n: int)
    ensures 28 <= n <= 31
    ensures m == 2 ==> (n == 29 <==> IsLeapYear(y))
  {
    if m == 2 then (if IsLeapYear(y) then 29 else 28)
    else if m == 4 || m == 6 || m == 9 || m == 11 then 30
    else 31
  }

  /** A date that names an existing calendar day. */
  predicate Valid(d: Date) {
    1 <= d.month <= 12 && 1 <= d.day <= DaysInMonth(d.year, d.month)
  }

  /** Day number of 1 January of year `y`. */
  function YearStart(y: int): int
    decreases if y < 1970 then 1970 - y else y - 1970
  {
    if y == 1970 then 0
    else if y > 1970 then YearStart(y - 1) + DaysInYear(y - 1)
    else YearStart(y + 1) - DaysInYear(y)
  }

  /** Days of year `y` that come before the first day of month `m`. */
  function DaysBeforeMonth(y: int, m: int): int
    requires 1 <= m <= 12
  {
    [0, 31, 59, 90, 120, 151, 181, 212, 243, 273, 304, 334][m - 1]
    + (if m > 2 && IsLeapYear(y) then 1 else 0)
  }

  /** Day number of the first day of month `m` of year `y`. */
  function MonthStart(y: int, m: int): int
    requires 1 <= m <= 12
  {
    YearStart(y) + DaysBeforeMonth(y, m)
  }

  function DayNumber(d: Date): int
    requires 1 <= d.month <= 12
  {
    MonthStart(d.year, d.month) + d.day - 1
  }

  /** `a` is strictly earlier than `b`, as JavaScript's `a < b` on two dates. */
  predicate Before(a: Date, b: Date)
    requires Valid(a) && Valid(b)
  {
    DayNumber(a) < DayNumber(b)
  }

  function NextMonth(y: int, m: int): (int, int) {
    if m == 12 then (y + 1, 1) else (y, m + 1)
  }

  function PrevMonth(y: int, m: int): (int, int) {
    if m == 1 then (y - 1, 12) else (y, m - 1)
  }

  /** Consecutive years are adjacent: a year ends where the next one starts. */
  lemma YearStartStep(y: int)
    ensures YearStart(y + 1) == YearStart(y) + DaysInYear(y)
  {
  }

  /** Consecutive months are adjacent: a month ends where the next one starts. */
  lemma MonthStartStep(y: int, m: int)
    requires 1 <= m <= 12
    ensures MonthStart(NextMonth(y, m).0, NextMonth(y, m).1) == MonthStart(y, m) + DaysInMonth(y, m)
  {
    if m == 12 {
      YearStartStep(y);
    }
  }

  /**
   * Day `d` of month `m` of year `y`, rolled over into earlier or later months
   * when `d` lies outside the month (ECMAScript's MakeDay followed by MakeDate).
   */
  function Roll(y: int, m: int, d: int): (r: Date)
    requires 1 <= m <= 12
    ensures Valid(r)
    decreases if d < 1 then 1 else 0, if d < 1 then -d else d
  {
    if d < 1 then
      var (py, pm) := PrevMonth(y, m);
      Roll(py, pm, d + DaysInMonth(py, pm))
    else if d > DaysInMonth(y, m) then
      var (ny, nm) := NextMonth(y, m);
      Roll(ny, nm, d - DaysInMonth(y, m))
    else
      Date(y, m, d)
  }

  /** Rolling over keeps the day number: the result is `d - 1` days after the first of month `m`. */
  lemma {:induction false} RollDayNumber(y: int, m: int, d: int)
    requires 1 <= m <= 12
    ensures DayNumber(Roll(y, m, d)) == MonthStart(y, m) + d - 1
    decreases if d < 1 then 1 else 0, if d < 1 then -d else d
  {
    if d < 1 {
      var (py, pm) := PrevMonth(y, m);
      MonthStartStep(py, pm);
      RollDayNumber(py, pm, d + DaysInMonth(py, pm));
    } else if d > DaysInMonth(y, m) {
      var (ny, nm) := NextMonth(y, m);
      MonthStartStep(y, m);
      RollDayNumber(ny, nm, d - DaysInMonth(y, m));
    }
  }

  /** Year that `new Date(year, monthIndex, 1)` falls in. */
  function NormalYear(year: int, monthIndex: int): int {
    year + monthIndex / 12
  }

  /** 1-based month that `new Date(year, monthIndex, 1)` falls in. */
  function NormalMonth(monthIndex: int): (m: int)
    ensures 1 <= m <= 12
  {
    monthIndex % 12 + 1
  }

  /** Day number of `new Date(year, monthIndex, 1)`. */
  function FirstOfMonth(year: int, monthIndex: int): int {
    MonthStart(NormalYear(year, monthIndex), NormalMonth(monthIndex))
  }

  /** Length of the month `new Date(year, monthIndex, 1)` falls in. */
  function LengthOfMonth(year: int, monthIndex: int): int {
    DaysInMonth(NormalYear(year, monthIndex), NormalMonth(monthIndex))
  }

  /**
   * `new Date(year, monthIndex, day)`: `monthIndex` is 0-based and may lie
   * outside 0..11 (it then moves the year), and `day` may lie outside the
   * month (it then rolls into neighbouring months).
   */
  function MakeDate(year: int, monthIndex: int, day: int): (r: Date)
    ensures Valid(r)
  {
    Roll(NormalYear(year, monthIndex), NormalMonth(monthIndex), day)
  }

  /** `new Date(year, monthIndex, day)` lies `day - 1` days after the first of its month index. */
  lemma MakeDateDayNumber(year: int, monthIndex: int, day: int)
    ensures DayNumber(MakeDate(year, monthIndex, day)) == FirstOfMonth(year, monthIndex) + day - 1
  {
    RollDayNumber(NormalYear(year, monthIndex), NormalMonth(monthIndex), day);
  }

  /** The month after month index `monthIndex` starts where that month ends. */
  lemma FirstOfMonthStep(year: int, monthIndex: int)
    ensures FirstOfMonth(year, monthIndex + 1) == FirstOfMonth(year, monthIndex) + LengthOfMonth(year, monthIndex)
  {
    var y, m := NormalYear(year, monthIndex), NormalMonth(monthIndex);
    MonthStartStep(y, m);
    if m == 12 {
      assert NormalYear(year, monthIndex + 1) == y + 1;
      assert NormalMonth(monthIndex + 1) == 1;
    } else {
      assert NormalYear(year, monthIndex + 1) == y;
      assert NormalMonth(monthIndex + 1) == m + 1;
    }
  }

  /** Constructing a date from the fields of an existing date gives that date back. */
  lemma MakeDateOfValid(d: Date)
    requires Valid(d)
    ensures MakeDate(d.year, d.month - 1, d.day) == d
  {
    assert NormalYear(d.year, d.month - 1) == d.year;
    assert NormalMonth(d.month - 1) == d.month;
  }

  /** A day that exists in the target month is kept as it is: no roll-over happens. */
  lemma MakeDateInRange(year: int, monthIndex: int, day: int)
    requires 1 <= day <= LengthOfMonth(year, monthIndex)
    ensures MakeDate(year, monthIndex, day) == Date(NormalYear(year, monthIndex), NormalMonth(monthIndex), day)
  {
  }

  /** A day past the end of the target month rolls into the first days of the next month. */
  lemma MakeDateOverflow(year: int, monthIndex: int, day: int)
    requires LengthOfMonth(year, monthIndex) < day <= LengthOfMonth(year, monthIndex) + 28
    ensures MakeDate(year, monthIndex, day)
         == Date(NormalYear(year, monthIndex + 1), NormalMonth(monthIndex + 1), day - LengthOfMonth(year, monthIndex))
  {
    var y, m := NormalYear(year, monthIndex), NormalMonth(monthIndex);
    var (ny, nm) := NextMonth(y, m);
    assert Roll(y, m, day) == Roll(ny, nm, day - DaysInMonth(y, m));
    assert Roll(ny, nm, day - DaysInMonth(y, m)) == Date(ny, nm, day - DaysInMonth(y, m));
    if m == 12 {
      assert NormalYear(year, monthIndex + 1) == y + 1;
      assert NormalMonth(monthIndex + 1) == 1;
    } else {
      assert NormalYear(year, monthIndex + 1) == y;
      assert NormalMonth(monthIndex + 1) == m + 1;
    }
  }
}
