/**
 * Proleptic Gregorian dates as the derivation layer uses them: the day
 * number behind `date - date` (Python's `date.toordinal`), and the
 * year-and-month shift behind `date + relativedelta(years=.., months=..)`.
 */
module Calendar {
  import opened Results

  const MinYear := 1
  const MaxYear := 9999

  datatype Date = Date(year: int, month: int, day: int)

  predicate IsLeap(y: int) {
    y % 4 == 0 && (y % 100 != 0 || y % 400 == 0)
  }

  function DaysInMonth(y: int, m: int): (n: int)
    requires 1 <= m <= 12
    ensures 28 <= n <= 31
    ensures m == 2 ==> (n == 29 <==> IsLeap(y))
  {
    if m == 2 then (if IsLeap(y) then 29 else 28)
    else if m == 4 || m == 6 || m == 9 || m == 11 then 30
    else 31
  }

  function DaysInYear(y: int): int {
    if IsLeap(y) then 366 else 365
  }

  /** A date a Python `date` object can hold. */
  predicate Valid(d: Date) {
    MinYear <= d.year <= MaxYear && 1 <= d.month <= 12 && 1 <= d.day <= DaysInMonth(d.year, d.month)
  }

  type CivilDate = d: Date | Valid(d) witness Date(1, 1, 1)

  /** Days of year `y` before the first of month `m` (m == 13: the whole year). */
  function DaysBeforeMonth(y: int, m: int): int
    requires 1 <= m <= 13
    decreases m
  {
    if m == 1 then 0 else DaysBeforeMonth(y, m - 1) + DaysInMonth(y, m - 1)
  }

  /** Days from 0001-01-01 to the first of January of year `y`. */
  function DaysBeforeYear(y: int): int
    requires y >= 1
  {
    if y == 1 then 0 else DaysBeforeYear(y - 1) + DaysInYear(y - 1)
  }

  /** The day number of a date; 0001-01-01 is day 1. */
  function Ordinal(d: Date): int
    requires Valid(d)
  {
    DaysBeforeYear(d.year) + DaysBeforeMonth(d.year, d.month) + d.day
  }

  /** The calendar date following `d`. */
  function NextDay(d: Date): Date
    requires Valid(d)
  {
    if d.day < DaysInMonth(d.year, d.month) then Date(d.year, d.month, d.day + 1)
    else if d.month < 12 then Date(d.year, d.month + 1, 1)
    else Date(d.year + 1, 1, 1)
  }

  /** Strict calendar order of dates. */
  predicate Before(a: Date, b: Date) {
    a.year < b.year
    || (a.year == b.year && a.month < b.month)
    || (a.year == b.year && a.month == b.month && a.day < b.day)
  }

  function Min(a: int, b: int): int {
    if a <= b then a else b
  }

  /**
   * `d + relativedelta(years=years, months=months)`: shift the year, shift
   * the month with a carry into the year, clamp the day to the length of the
   * resulting month, and fail when the year leaves 1..9999.
   */
  function AddYearsMonths(d: Date, years: int, months: int): (r: Result<Date>)
    requires Valid(d)
    requires -11 <= months <= 11
    ensures r.Success? <==>
      12 * MinYear + 1 <= 12 * (d.year + years) + d.month + months <= 12 * MaxYear + 12
    ensures r.Failure? ==> r.error == YearOutOfRange
    ensures r.Success? ==> Valid(r.value)
    ensures r.Success? ==>
      12 * r.value.year + r.value.month == 12 * (d.year + years) + d.month + months
    ensures r.Success? ==> r.value.day == Min(d.day, DaysInMonth(r.value.year, r.value.month))
  {
    var y0 := d.year + years;
    var m0 := d.month + months;
    var y := if m0 > 12 then y0 + 1 else if m0 < 1 then y0 - 1 else y0;
    var m := if m0 > 12 then m0 - 12 else if m0 < 1 then m0 + 12 else m0;
    if y < MinYear || y > MaxYear then Failure(YearOutOfRange)
    else Success(Date(y, m, Min(d.day, DaysInMonth(y, m))))
  }

  lemma DaysBeforeWholeYear(y: int)
    ensures DaysBeforeMonth(y, 13) == DaysInYear(y)
  {
    assert DaysBeforeMonth(y, 2) == 31;
    assert DaysBeforeMonth(y, 3) == 31 + DaysInMonth(y, 2);
    assert DaysBeforeMonth(y, 4) == 62 + DaysInMonth(y, 2);
    assert DaysBeforeMonth(y, 5) == 92 + DaysInMonth(y, 2);
    assert DaysBeforeMonth(y, 6) == 123 + DaysInMonth(y, 2);
    assert DaysBeforeMonth(y, 7) == 153 + DaysInMonth(y, 2);
    assert DaysBeforeMonth(y, 8) == 184 + DaysInMonth(y, 2);
    assert DaysBeforeMonth(y, 9) == 215 + DaysInMonth(y, 2);
    assert DaysBeforeMonth(y, 10) == 245 + DaysInMonth(y, 2);
    assert DaysBeforeMonth(y, 11) == 276 + DaysInMonth(y, 2);
    assert DaysBeforeMonth(y, 12) == 306 + DaysInMonth(y, 2);
  }

  lemma DaysBeforeNextYear(y: int)
    requires y >= 1
    ensures DaysBeforeYear(y + 1) == DaysBeforeYear(y) + DaysInYear(y)
  {
  }

  /** The leap days before year p + 1: one every 4 years, none every 100, one every 400. */
  function LeapDaysBefore(p: int): int {
    p / 4 - p / 100 + p / 400
  }

  lemma LeapDaysStep(p: int)
    requires p >= 0
    ensures LeapDaysBefore(p + 1) == LeapDaysBefore(p) + (if IsLeap(p + 1) then 1 else 0)
  {
    QuotientStep4(p);
    QuotientStep100(p);
    QuotientStep400(p);
  }

  lemma QuotientStep4(p: int)
    requires p >= 0
    ensures (p + 1) / 4 - p / 4 == if (p + 1) % 4 == 0 then 1 else 0
  {
  }

  lemma QuotientStep100(p: int)
    requires p >= 0
    ensures (p + 1) / 100 - p / 100 == if (p + 1) % 100 == 0 then 1 else 0
  {
  }

  lemma QuotientStep400(p: int)
    requires p >= 0
    ensures (p + 1) / 400 - p / 400 == if (p + 1) % 400 == 0 then 1 else 0
  {
  }

  /** The count of days before a year agrees with the closed form 365p + p/4 - p/100 + p/400, p = y - 1. */
  lemma {:induction false} DaysBeforeYearClosedForm(y: int)
    requires y >= 1
    ensures DaysBeforeYear(y) == (y - 1) * 365 + LeapDaysBefore(y - 1)
  {
    if y > 1 {
      DaysBeforeYearClosedForm(y - 1);
      LeapDaysStep(y - 2);
    }
  }

  /** Consecutive calendar days have consecutive day numbers. */
  lemma OrdinalNextDay(d: Date)
    requires Valid(d) && Valid(NextDay(d))
    ensures Ordinal(NextDay(d)) == Ordinal(d) + 1
  {
    if d.day == DaysInMonth(d.year, d.month) && d.month == 12 {
      DaysBeforeWholeYear(d.year);
      DaysBeforeNextYear(d.year);
    }
  }

  lemma {:induction false} DaysBeforeMonthGrows(y: int, m: int, n: int)
    requires 1 <= m <= n <= 13
    ensures DaysBeforeMonth(y, m) + (n - m) * 28 <= DaysBeforeMonth(y, n)
    decreases n - m
  {
    if m < n {
      DaysBeforeMonthGrows(y, m + 1, n);
    }
  }

  lemma {:induction false} DaysBeforeYearGrows(y: int, z: int)
    requires 1 <= y <= z
    ensures DaysBeforeYear(y) + (z - y) * 365 <= DaysBeforeYear(z)
    decreases z - y
  {
    if y < z {
      DaysBeforeNextYear(y);
      DaysBeforeYearGrows(y + 1, z);
    }
  }

  /** A date's day number lies within its year's span of day numbers. */
  lemma OrdinalWithinYear(d: Date)
    requires Valid(d)
    ensures DaysBeforeYear(d.year) < Ordinal(d) <= DaysBeforeYear(d.year + 1)
  {
    DaysBeforeMonthGrows(d.year, d.month + 1, 13);
    DaysBeforeWholeYear(d.year);
    DaysBeforeNextYear(d.year);
    assert DaysBeforeMonth(d.year, d.month + 1) == DaysBeforeMonth(d.year, d.month) + DaysInMonth(d.year, d.month);
  }

  lemma OrdinalBefore(x: Date, z: Date)
    requires Valid(x) && Valid(z) && Before(x, z)
    ensures Ordinal(x) < Ordinal(z)
  {
    if x.year < z.year {
      OrdinalBeforeLaterYear(x, z);
    } else if x.month < z.month {
      OrdinalBeforeLaterMonth(x, z);
    }
  }

  lemma OrdinalBeforeLaterYear(x: Date, z: Date)
    requires Valid(x) && Valid(z) && x.year < z.year
    ensures Ordinal(x) < Ordinal(z)
  {
    OrdinalWithinYear(x);
    OrdinalWithinYear(z);
    DaysBeforeYearGrows(x.year + 1, z.year);
  }

  lemma OrdinalBeforeLaterMonth(x: Date, z: Date)
    requires Valid(x) && Valid(z) && x.year == z.year && x.month < z.month
    ensures Ordinal(x) < Ordinal(z)
  {
    DaysBeforeMonthGrows(x.year, x.month + 1, z.month);
    assert DaysBeforeMonth(x.year, x.month + 1) == DaysBeforeMonth(x.year, x.month) + DaysInMonth(x.year, x.month);
  }

  /** Day numbers follow calendar order, so they identify dates. */
  lemma OrdinalMonotone(a: Date, b: Date)
    requires Valid(a) && Valid(b)
    ensures Before(a, b) <==> Ordinal(a) < Ordinal(b)
    ensures a == b <==> Ordinal(a) == Ordinal(b)
  {
    if Before(a, b) {
      OrdinalBefore(a, b);
    } else if Before(b, a) {
      OrdinalBefore(b, a);
    }
  }
}
