/** Proleptic Gregorian calendar dates, as Python's `datetime.date`.
    Dates compare lexicographically by (year, month, day), and the day
    count `Ordinal` is the one `date.toordinal()` returns, so that
    `(b - a).days == Ordinal(b) - Ordinal(a)`. */
module Dates {

  datatype Date = Date(year: int, month: int, day: int)

  predicate IsLeap(y: int) {
    y % 4 == 0 && (y % 100 != 0 || y % 400 == 0)
  }

  function DaysInMonth(y: int, m: int): (n: int)
    requires 1 <= m <= 12
    ensures 28 <= n <= 31
    ensures n == 29 <==> m == 2 && IsLeap(y)
  {
    if m == 2 then (if IsLeap(y) then 29 else 28)
    else if m == 4 || m == 6 || m == 9 || m == 11 then 30
    else 31
  }

  function DaysInYear(y: int): int {
    if IsLeap(y) then 366 else 365
  }

  /** A date Python can construct (years beyond 9999 are allowed here). */
  predicate Valid(d: Date) {
    1 <= d.year && 1 <= d.month <= 12 && 1 <= d.day <= DaysInMonth(d.year, d.month)
  }

  /** `a < b` */
  predicate Before(a: Date, b: Date) {
    a.year < b.year
    || (a.year == b.year && a.month < b.month)
    || (a.year == b.year && a.month == b.month && a.day < b.day)
  }

  /** `a <= b` */
  predicate NotAfter(a: Date, b: Date) {
    a == b || Before(a, b)
  }

  function LastOfMonth(d: Date): (e: Date)
    requires Valid(d)
    ensures Valid(e) && e.year == d.year && e.month == d.month
    ensures NotAfter(d, e)
  {
    Date(d.year, d.month, DaysInMonth(d.year, d.month))
  }

  /** The day after `d` (`d + timedelta(days=1)`). */
  function NextDay(d: Date): (e: Date)
    requires Valid(d)
    ensures Valid(e) && Before(d, e)
  {
    if d.day < DaysInMonth(d.year, d.month) then Date(d.year, d.month, d.day + 1)
    else if d.month < 12 then Date(d.year, d.month + 1, 1)
    else Date(d.year + 1, 1, 1)
  }

  /** The first day of the month after `d`'s. */
  function FirstOfNextMonth(d: Date): (e: Date)
    requires Valid(d)
    ensures Valid(e) && e.day == 1 && Before(d, e)
  {
    NextDay(LastOfMonth(d))
  }

  /** The day before `d` (`d - timedelta(days=1)`), for any date after
      1 January of year 1. */
  function PrevDay(d: Date): (e: Date)
    requires Valid(d) && d != Date(1, 1, 1)
    ensures Valid(e) && NextDay(e) == d
  {
    if d.day > 1 then Date(d.year, d.month, d.day - 1)
    else if d.month > 1 then Date(d.year, d.month - 1, DaysInMonth(d.year, d.month - 1))
    else Date(d.year - 1, 12, 31)
  }

  /** `d + timedelta(days=n)`, moving a month at a time. */
  function AddDays(d: Date, n: nat): (e: Date)
    requires Valid(d)
    ensures Valid(e)
    decreases n
  {
    var dim := DaysInMonth(d.year, d.month);
    if d.day + n <= dim then Date(d.year, d.month, d.day + n)
    else AddDays(FirstOfNextMonth(d), n - (dim - d.day + 1))
  }

  /** `d + relativedelta(months=1)`: the same day of the next month, clamped
      to that month's length. */
  function AddOneMonth(d: Date): (e: Date)
    requires Valid(d)
    ensures Valid(e) && e.day <= d.day
    ensures e.day == d.day || e.day == DaysInMonth(e.year, e.month)
  {
    var y := if d.month == 12 then d.year + 1 else d.year;
    var m := if d.month == 12 then 1 else d.month + 1;
    var dim := DaysInMonth(y, m);
    Date(y, m, if d.day <= dim then d.day else dim)
  }

  /** Days in the years before `y`: Python's `_days_before_year`. */
  function DaysBeforeYear(y: int): int
    requires y >= 1
  {
    var p := y - 1;
    p * 365 + p / 4 - p / 100 + p / 400
  }

  /** Days in the months of `y` before `m`: Python's `_days_before_month`. */
  function DaysBeforeMonth(y: int, m: int): int
    requires 1 <= m <= 12
  {
    var leap := if m > 2 && IsLeap(y) then 1 else 0;
    leap + (
      if m == 1 then 0 else if m == 2 then 31 else if m == 3 then 59
      else if m == 4 then 90 else if m == 5 then 120 else if m == 6 then 151
      else if m == 7 then 181 else if m == 8 then 212 else if m == 9 then 243
      else if m == 10 then 273 else if m == 11 then 304 else 334)
  }

  /** `d.toordinal()`: 1 January of year 1 is day 1. */
  function Ordinal(d: Date): int
    requires Valid(d)
  {
    DaysBeforeYear(d.year) + DaysBeforeMonth(d.year, d.month) + d.day
  }

  /** `(b - a).days` */
  function DaysBetween(a: Date, b: Date): int
    requires Valid(a) && Valid(b)
  {
    Ordinal(b) - Ordinal(a)
  }

  lemma YearStep(y: int)
    requires y >= 1
    ensures DaysBeforeYear(y + 1) == DaysBeforeYear(y) + DaysInYear(y)
  {
    var p := y - 1;
    assert y / 4 == p / 4 + (if y % 4 == 0 then 1 else 0);
    assert y / 100 == p / 100 + (if y % 100 == 0 then 1 else 0);
    assert y / 400 == p / 400 + (if y % 400 == 0 then 1 else 0);
  }

  lemma MonthStep(y: int, m: int)
    requires 1 <= m < 12
    ensures DaysBeforeMonth(y, m + 1) == DaysBeforeMonth(y, m) + DaysInMonth(y, m)
  {
  }

  /** The ordinal of the next day is one more. */
  lemma NextDayOrdinal(d: Date)
    requires Valid(d)
    ensures Ordinal(NextDay(d)) == Ordinal(d) + 1
  {
    if d.day == DaysInMonth(d.year, d.month) {
      if d.month < 12 {
        MonthStep(d.year, d.month);
      } else {
        YearStep(d.year);
      }
    }
  }

  /** Adding `n` days adds `n` to the ordinal. */
  lemma {:induction false} AddDaysOrdinal(d: Date, n: nat)
    requires Valid(d)
    ensures Ordinal(AddDays(d, n)) == Ordinal(d) + n
    decreases n
  {
    var dim := DaysInMonth(d.year, d.month);
    if d.day + n > dim {
      var f := FirstOfNextMonth(d);
      NextDayOrdinal(LastOfMonth(d));
      AddDaysOrdinal(f, n - (dim - d.day + 1));
    }
  }

  lemma AddOneDay(d: Date)
    requires Valid(d)
    ensures AddDays(d, 1) == NextDay(d)
  {
  }

  lemma MonthPrefixBound(y: int, m: int)
    requires 1 <= m <= 12
    ensures DaysBeforeMonth(y, m) + DaysInMonth(y, m) <= DaysInYear(y)
  {
  }

  lemma {:induction false} MonthPrefixMonotone(y: int, m1: int, m2: int)
    requires 1 <= m1 < m2 <= 12
    ensures DaysBeforeMonth(y, m1) + DaysInMonth(y, m1) <= DaysBeforeMonth(y, m2)
    decreases m2 - m1
  {
    MonthStep(y, m1);
    if m1 + 1 < m2 {
      MonthPrefixMonotone(y, m1 + 1, m2);
    }
  }

  lemma {:induction false} YearPrefixMonotone(y1: int, y2: int)
    requires 1 <= y1 < y2
    ensures DaysBeforeYear(y1) + DaysInYear(y1) <= DaysBeforeYear(y2)
    decreases y2 - y1
  {
    YearStep(y1);
    if y1 + 1 < y2 {
      YearPrefixMonotone(y1 + 1, y2);
      YearStep(y1 + 1);
    }
  }

  lemma BeforeOrdinal(a: Date, b: Date)
    requires Valid(a) && Valid(b) && Before(a, b)
    ensures Ordinal(a) < Ordinal(b)
  {
    if a.year < b.year {
      MonthPrefixBound(a.year, a.month);
      YearPrefixMonotone(a.year, b.year);
    } else if a.month < b.month {
      MonthPrefixMonotone(a.year, a.month, b.month);
    }
  }

  /** Lexicographic date order and ordinal order agree. */
  lemma OrdinalOrder(a: Date, b: Date)
    requires Valid(a) && Valid(b)
    ensures Before(a, b) <==> Ordinal(a) < Ordinal(b)
    ensures a == b <==> Ordinal(a) == Ordinal(b)
  {
    if Before(a, b) {
      BeforeOrdinal(a, b);
    } else if Before(b, a) {
      BeforeOrdinal(b, a);
    }
  }

  /** `AddDays` never moves backwards, and moves forward for `n > 0`. */
  lemma AddDaysOrder(d: Date, n: nat)
    requires Valid(d)
    ensures n > 0 ==> Before(d, AddDays(d, n))
    ensures n == 0 ==> AddDays(d, n) == d
  {
    AddDaysOrdinal(d, n);
    OrdinalOrder(d, AddDays(d, n));
  }
  /** One more day added is the day after. */
  lemma AddDaysStep(d: Date, n: nat)
    requires Valid(d)
    ensures AddDays(d, n + 1) == NextDay(AddDays(d, n))
  {
    AddDaysOrdinal(d, n + 1);
    AddDaysOrdinal(d, n);
    NextDayOrdinal(AddDays(d, n));
    OrdinalOrder(AddDays(d, n + 1), NextDay(AddDays(d, n)));
  }

  /** A calendar month later is 28 to 31 days later. */
  lemma AddOneMonthOrdinal(d: Date)
    requires Valid(d)
    ensures 28 <= Ordinal(AddOneMonth(d)) - Ordinal(d) <= 31
  {
    if d.month < 12 {
      MonthStep(d.year, d.month);
    } else {
      YearStep(d.year);
    }
  }
}
