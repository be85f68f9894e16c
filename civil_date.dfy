/**
 * Calendar dates in the proleptic Gregorian calendar, with the date-fns
 * arithmetic the scheduling engine relies on: adding days and weeks (counted
 * by day number) and adding months and years (clamping the day of month to
 * the end of the target month).
 * Time of day is not modelled.
 */
module CivilDates {

  datatype CivilDate = CivilDate(year: int, month: int, day: int)

  predicate IsLeapYear(y: int) {
    y % 4 == 0 && (y % 100 != 0 || y % 400 == 0)
  }

  function DaysInMonth(y: int, m: int): (n: int)
    ensures 28 <= n <= 31
  {
    if m == 2 then (if IsLeapYear(y) then 29 else 28)
    else if m == 4 || m == 6 || m == 9 || m == 11 then 30
    else 31
  }

  predicate IsValid(d: CivilDate) {
    1 <= d.month <= 12 && 1 <= d.day <= DaysInMonth(d.year, d.month)
  }

  /** A day that exists in the calendar. */
  type Date = d: CivilDate | IsValid(d) witness CivilDate(1970, 1, 1)

  /** Strict chronological order. */
  predicate Before(a: Date, b: Date) {
    a.year < b.year ||
    (a.year == b.year && (a.month < b.month || (a.month == b.month && a.day < b.day)))
  }

  /** Number of months since January of year 0 (negative before it). */
  function MonthIndex(d: Date): int {
    d.year * 12 + (d.month - 1)
  }

  /** Days in year `y`. */
  function YearDays(y: int): int {
    if IsLeapYear(y) then 366 else 365
  }

  /** Days from 1 January of year 0 to 1 January of year `y` (negative before year 0). */
  function DaysBeforeYear(y: int): int
    decreases if y < 0 then -y else y
  {
    if y == 0 then 0
    else if y > 0 then DaysBeforeYear(y - 1) + YearDays(y - 1)
    else DaysBeforeYear(y + 1) - YearDays(y)
  }

  /** Days from 1 January to the first of month `m` of year `y`. */
  function DaysBeforeMonth(y: int, m: int): int {
    var common :=
      if m <= 1 then 0 else if m == 2 then 31 else if m == 3 then 59 else if m == 4 then 90
      else if m == 5 then 120 else if m == 6 then 151 else if m == 7 then 181 else if m == 8 then 212
      else if m == 9 then 243 else if m == 10 then 273 else if m == 11 then 304 else 334;
    if m > 2 && IsLeapYear(y) then common + 1 else common
  }

  /** The day number of `d`: days since 1 January of year 0 (negative before it). */
  function DayNumber(d: Date): int {
    DaysBeforeYear(d.year) + DaysBeforeMonth(d.year, d.month) + d.day - 1
  }

  /** A year has 366 days when it is a leap year and 365 otherwise. */
  lemma YearLength(y: int)
    ensures DaysBeforeYear(y + 1) == DaysBeforeYear(y) + YearDays(y)
  {
  }

  /** The day after `d`. */
  function NextDay(d: Date): (r: Date)
    ensures Before(d, r)
    ensures r.day == 1 || (r.year == d.year && r.month == d.month && r.day == d.day + 1)
    ensures r.day == 1 ==> d.day == DaysInMonth(d.year, d.month) && MonthIndex(r) == MonthIndex(d) + 1
  {
    if d.day < DaysInMonth(d.year, d.month) then CivilDate(d.year, d.month, d.day + 1)
    else if d.month < 12 then CivilDate(d.year, d.month + 1, 1)
    else CivilDate(d.year + 1, 1, 1)
  }

  /** date-fns `addDays(d, n)` for a non-negative `n`: `n` calendar days later. */
  function AddDays(d: Date, n: nat): (r: Date)
    ensures n == 0 <==> r == d
    ensures n > 0 ==> Before(d, r)
    decreases n
  {
    if n == 0 then d else AddDays(NextDay(d), n - 1)
  }

  /**
   * date-fns `addMonths(d, k)`: the same day `k` months on, or the last day of
   * the target month when that month is too short.
   */
  function AddMonths(d: Date, k: int): (r: Date)
    ensures MonthIndex(r) == MonthIndex(d) + k
    ensures r.day <= d.day
    ensures r.day < d.day ==> r.day == DaysInMonth(r.year, r.month)
    ensures k == 0 ==> r == d
  {
    var idx := MonthIndex(d) + k;
    var y, m := idx / 12, idx % 12 + 1;
    var last := DaysInMonth(y, m);
    CivilDate(y, m, if d.day <= last then d.day else last)
  }

  /** date-fns `addWeeks(d, k)`, which is `addDays(d, 7 * k)`. */
  function AddWeeks(d: Date, k: nat): (r: Date)
    ensures k > 0 ==> Before(d, r)
  {
    AddDays(d, 7 * k)
  }

  /** date-fns `addYears(d, k)`, which is `addMonths(d, 12 * k)`. */
  function AddYears(d: Date, k: int): (r: Date)
    ensures r.year == d.year + k && r.month == d.month
    ensures r.day == if d.day <= DaysInMonth(d.year + k, d.month) then d.day else DaysInMonth(d.year + k, d.month)
  {
    var r := AddMonths(d, 12 * k);
    MonthIndexInjective(r, CivilDate(d.year + k, d.month, 1));
    r
  }

  lemma MonthsBefore(y: int, m: int, m2: int)
    requires 1 <= m < m2 <= 12
    ensures DaysBeforeMonth(y, m) + DaysInMonth(y, m) <= DaysBeforeMonth(y, m2)
  {
  }

  lemma {:induction false} YearsBefore(y: int, y2: int)
    requires y < y2
    ensures DaysBeforeYear(y) + YearDays(y) <= DaysBeforeYear(y2)
    decreases y2 - y
  {
    YearLength(y);
    if y + 1 < y2 {
      YearsBefore(y + 1, y2);
    }
  }

  /** Day numbers order dates exactly as the calendar does, so two dates with the same day number are equal. */
  lemma DayNumberOrder(a: Date, b: Date)
    ensures Before(a, b) <==> DayNumber(a) < DayNumber(b)
  {
    if a.year < b.year {
      DayNumberWithinYear(a);
      YearsBefore(a.year, b.year);
    } else if b.year < a.year {
      DayNumberWithinYear(b);
      YearsBefore(b.year, a.year);
    } else if a.month < b.month {
      MonthsBefore(a.year, a.month, b.month);
    } else if b.month < a.month {
      MonthsBefore(a.year, b.month, a.month);
    }
  }

  /** A date's day number lies within its year. */
  lemma DayNumberWithinYear(d: Date)
    ensures DaysBeforeYear(d.year) <= DayNumber(d) < DaysBeforeYear(d.year) + YearDays(d.year)
  {
    if d.month < 12 {
      MonthsBefore(d.year, d.month, 12);
    }
  }

  /** The next day is one day number on. */
  lemma NextDayCount(d: Date)
    ensures DayNumber(NextDay(d)) == DayNumber(d) + 1
  {
    YearLength(d.year);
  }

  /** `addDays(d, n)` is exactly `n` day numbers after `d`. */
  lemma {:induction false} AddDaysCount(d: Date, n: nat)
    ensures DayNumber(AddDays(d, n)) == DayNumber(d) + n
    decreases n
  {
    if n > 0 {
      NextDayCount(d);
      AddDaysCount(NextDay(d), n - 1);
    }
  }

  /** `addWeeks(d, k)` is exactly `7 * k` day numbers after `d`. */
  lemma AddWeeksCount(d: Date, k: nat)
    ensures DayNumber(AddWeeks(d, k)) == DayNumber(d) + 7 * k
  {
    AddDaysCount(d, 7 * k);
  }

  /** The month index determines year and month. */
  lemma MonthIndexInjective(a: Date, b: Date)
    requires MonthIndex(a) == MonthIndex(b)
    ensures a.year == b.year && a.month == b.month
  {
  }

  /** A later month index is a later date, whatever the days. */
  lemma MonthIndexOrder(a: Date, b: Date)
    requires MonthIndex(a) < MonthIndex(b)
    ensures Before(a, b)
  {
  }

  /** Adding days composes: `a` days and then `b` days is `a + b` days. */
  lemma {:induction false} AddDaysAdditive(d: Date, a: nat, b: nat)
    ensures AddDays(AddDays(d, a), b) == AddDays(d, a + b)
    decreases a
  {
    if a > 0 {
      AddDaysAdditive(NextDay(d), a - 1, b);
    }
  }

  /** More days land strictly later. */
  lemma {:induction false} AddDaysIncreasing(d: Date, a: nat, b: nat)
    requires a < b
    ensures Before(AddDays(d, a), AddDays(d, b))
  {
    AddDaysAdditive(d, a, b - a);
    assert AddDays(d, b) == AddDays(AddDays(d, a), b - a);
  }

  /**
   * Adding months composes when the day of month exists in every month
   * (day <= 28), so that no clamping happens on the way.
   */
  lemma AddMonthsAdditive(d: Date, a: int, b: int)
    requires d.day <= 28
    ensures AddMonths(AddMonths(d, a), b) == AddMonths(d, a + b)
  {
    var m1 := AddMonths(d, a);
    assert m1.day == d.day;
    var x, y := AddMonths(m1, b), AddMonths(d, a + b);
    MonthIndexInjective(x, y);
  }

  /** More months land strictly later. */
  lemma AddMonthsIncreasing(d: Date, a: int, b: int)
    requires a < b
    ensures Before(AddMonths(d, a), AddMonths(d, b))
  {
    MonthIndexOrder(AddMonths(d, a), AddMonths(d, b));
  }

  /** Clamping: one month after 31 January 2024 is 29 February 2024 (a leap year). */
  lemma AddMonthsClampsToLeapFebruary()
    ensures AddMonths(CivilDate(2024, 1, 31), 1) == CivilDate(2024, 2, 29)
  {
  }

  /**
   * Because of clamping, adding months does not compose at a month end:
   * 31 January + 1 month + 1 month is 29 March, while 31 January + 2 months is 31 March.
   */
  lemma AddMonthsNotAdditiveAtMonthEnd()
    ensures AddMonths(AddMonths(CivilDate(2024, 1, 31), 1), 1) == CivilDate(2024, 3, 29)
    ensures AddMonths(CivilDate(2024, 1, 31), 2) == CivilDate(2024, 3, 31)
  {
    AddMonthsClampsToLeapFebruary();
  }
}
