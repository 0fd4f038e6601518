/**
 * Straight-line residential depreciation over 27 years and 6 months
 * (330 months), counted by calendar year from the mortgage start date.
 */
module ResidentialDepreciation {
  import opened Results
  import opened Calendar

  const LifeYears := 27
  const LifeMonths := 6
  const LifeInMonths := 330

  /** The last year of the schedule, written out from the start date. */
  function LastYear(start: Date): int {
    start.year + (if start.month <= 6 then 27 else 28)
  }

  /** The month of the last year in which the schedule ends. */
  function LastMonth(start: Date): int {
    (start.month + 5) % 12 + 1
  }

  /** `start + relativedelta(years=27, months=6)`. */
  function ScheduleEnd(start: Date): (r: Result<Date>)
    requires Valid(start)
    ensures r.Success? <==> LastYear(start) <= MaxYear
    ensures r.Failure? ==> r.error == YearOutOfRange
    ensures r.Success? ==>
      Valid(r.value) && r.value.year == LastYear(start) && r.value.month == LastMonth(start)
  {
    AddYearsMonths(start, LifeYears, LifeMonths)
  }

  /** `end` is where the schedule that begins at `start` ends. */
  predicate Schedule(start: Date, end: Date) {
    Valid(start) && ScheduleEnd(start) == Success(end)
  }

  /** The months of depreciation charged in `year`, for a year in the window. */
  function Months(start: Date, end: Date, year: int): int {
    if year == start.year then 13 - start.month
    else if year == end.year then end.month
    else 12
  }

  /** The depreciation charged in `year` on a depreciable base of `base`. */
  function Annual(base: real, start: Date, end: Date, year: int): real {
    if year < start.year || year > end.year then 0.0
    else base * ((Months(start, end, year) as real) / (LifeInMonths as real))
  }

  /** Nothing is charged outside the window start.year..LastYear(start); inside it, a nonzero base is charged. */
  lemma DepreciationWindow(base: real, start: Date, end: Date, year: int)
    requires Schedule(start, end)
    ensures year < start.year || year > LastYear(start) ==> Annual(base, start, end, year) == 0.0
    ensures start.year <= year <= LastYear(start) && base != 0.0 ==> Annual(base, start, end, year) != 0.0
  {
    if start.year <= year <= end.year {
      MonthsInWindow(start, end, year);
    }
  }

  /** Inside the window the month count is 13 - start.month, then 12, then the end month; always 1..12. */
  lemma MonthsInWindow(start: Date, end: Date, year: int)
    requires Schedule(start, end)
    requires start.year <= year <= end.year
    ensures 1 <= Months(start, end, year) <= 12
    ensures year == start.year ==> Months(start, end, year) == 13 - start.month
    ensures year == LastYear(start) ==> Months(start, end, year) == LastMonth(start)
    ensures start.year < year < LastYear(start) ==> Months(start, end, year) == 12
    ensures start.year < end.year
  {
  }

  /**
   * The months charged in `year`, from the start date alone: 13 - start.month
   * in the first year, LastMonth(start) in the last, 12 in between.
   */
  function MonthsFromStart(start: Date, year: int): int {
    if year == start.year then 13 - start.month
    else if year == LastYear(start) then LastMonth(start)
    else 12
  }

  /** The charge for a year, stated from the start date alone. */
  lemma AnnualFromStart(base: real, start: Date, end: Date, year: int)
    requires Schedule(start, end)
    ensures year < start.year || year > LastYear(start) ==> Annual(base, start, end, year) == 0.0
    ensures start.year <= year <= LastYear(start) ==>
      Annual(base, start, end, year) == base * (MonthsFromStart(start, year) as real / 330.0)
  {
    if start.year <= year <= end.year {
      MonthsInWindow(start, end, year);
      assert Months(start, end, year) == MonthsFromStart(start, year);
    }
  }

  /** Months charged from `year` through the last year of the schedule. */
  function MonthsFrom(start: Date, end: Date, year: int): int
    decreases end.year + 1 - year
  {
    if year > end.year then 0 else Months(start, end, year) + MonthsFrom(start, end, year + 1)
  }

  /** Depreciation charged from `year` through the last year of the schedule. */
  function DepreciationFrom(base: real, start: Date, end: Date, year: int): real
    decreases end.year + 1 - year
  {
    if year > end.year then 0.0 else Annual(base, start, end, year) + DepreciationFrom(base, start, end, year + 1)
  }

  lemma {:induction false} MonthsAfterFirstYear(start: Date, end: Date, year: int)
    requires Schedule(start, end)
    requires start.year < year <= end.year
    ensures MonthsFrom(start, end, year) == 12 * (end.year - year) + end.month
    decreases end.year - year
  {
    if year < end.year {
      MonthsAfterFirstYear(start, end, year + 1);
    }
  }

  /**
   * The schedule charges 331 months in all, one month more than the
   * 330-month divisor: the start month and the end month are both
   * charged in full.
   */
  lemma TotalMonths(start: Date, end: Date)
    requires Schedule(start, end)
    ensures MonthsFrom(start, end, start.year) == LifeInMonths + 1
  {
    MonthsAfterFirstYear(start, end, start.year + 1);
  }

  lemma {:induction false} DepreciationFromMonths(base: real, start: Date, end: Date, year: int)
    requires start.year <= year
    ensures DepreciationFrom(base, start, end, year)
         == base * ((MonthsFrom(start, end, year) as real) / (LifeInMonths as real))
    decreases end.year + 1 - year
  {
    if year <= end.year {
      DepreciationFromMonths(base, start, end, year + 1);
      var m := Months(start, end, year) as real;
      var rest := MonthsFrom(start, end, year + 1) as real;
      assert Annual(base, start, end, year) == base * (m / 330.0);
      assert MonthsFrom(start, end, year) as real == m + rest;
      ShareOfLife(base, m, rest);
    }
  }

  lemma ShareOfLife(base: real, m: real, rest: real)
    ensures base * (m / 330.0) + base * (rest / 330.0) == base * ((m + rest) / 330.0)
  {
  }

  /** Over the whole schedule the charges add up to base * 331 / 330. */
  lemma TotalDepreciation(base: real, start: Date, end: Date)
    requires Schedule(start, end)
    ensures DepreciationFrom(base, start, end, start.year) == base * 331.0 / 330.0
  {
    TotalMonths(start, end);
    DepreciationFromMonths(base, start, end, start.year);
  }
}
