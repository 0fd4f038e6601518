/**
 * Expense and income rows, and the sums the derivation layer asks of
 * them. An SQL `sum` over a filtered table becomes a fold over a sequence
 * of rows that keeps the rows a `Selection` selects.
 */
module Ledger {
  import opened Results
  import opened Calendar

  datatype Expense = Expense(
    propertyId: Option<int>,
    amount: real,
    tax: real,
    date: Option<CivilDate>,
    taxDeduction: bool)

  datatype Income = Income(propertyId: Option<int>, amount: real, date: Option<CivilDate>)

  /** The rows an expense query keeps. */
  datatype Selection =
    | OfProperty(pid: int)               // the property's rows
    | DeductibleIn(pid: int, year: int)  // its deductible rows dated in `year`

  predicate Deductible(e: Expense, pid: int) {
    e.propertyId == Some(pid) && e.taxDeduction
  }

  predicate Selects(s: Selection, e: Expense) {
    match s
    case OfProperty(pid) => e.propertyId == Some(pid)
    case DeductibleIn(pid, year) => Deductible(e, pid) && e.date.Some? && e.date.value.year == year
  }

  /** `sum(amount)` over the selected rows; an empty selection sums to 0. */
  function SumAmount(es: seq<Expense>, s: Selection): real {
    if es == [] then 0.0
    else (if Selects(s, es[0]) then es[0].amount else 0.0) + SumAmount(es[1..], s)
  }

  /** `sum(tax)` over the selected rows. */
  function SumTax(es: seq<Expense>, s: Selection): real {
    if es == [] then 0.0
    else (if Selects(s, es[0]) then es[0].tax else 0.0) + SumTax(es[1..], s)
  }

  /** What each selected row costs in all, amount plus tax, added up row by row. */
  function SumCharged(es: seq<Expense>, s: Selection): real {
    if es == [] then 0.0
    else (if Selects(s, es[0]) then es[0].amount + es[0].tax else 0.0) + SumCharged(es[1..], s)
  }

  /** `sum(amount) + sum(tax)` is the row-by-row total of amount + tax. */
  lemma {:induction false} SumOfSums(es: seq<Expense>, s: Selection)
    ensures SumAmount(es, s) + SumTax(es, s) == SumCharged(es, s)
  {
    if es != [] {
      SumOfSums(es[1..], s);
    }
  }

  /** The total of two batches of rows is the sum of their totals. */
  lemma {:induction false} SumChargedAppend(a: seq<Expense>, b: seq<Expense>, s: Selection)
    ensures SumCharged(a + b, s) == SumCharged(a, s) + SumCharged(b, s)
  {
    if a == [] {
      assert a + b == b;
    } else {
      assert (a + b)[1..] == a[1..] + b;
      SumChargedAppend(a[1..], b, s);
    }
  }

  /** A selection that keeps no row totals 0 (SQL's NULL, reported as 0.0). */
  lemma {:induction false} SumChargedNoneSelected(es: seq<Expense>, s: Selection)
    ensures (forall i :: 0 <= i < |es| ==> !Selects(s, es[i])) ==> SumCharged(es, s) == 0.0
  {
    if es != [] {
      assert forall i :: 0 <= i < |es[1..]| ==> es[1..][i] == es[i + 1];
      SumChargedNoneSelected(es[1..], s);
    }
  }

  /** `sum(amount)` over the incomes of property `pid`: 0.0 without rows, never negative for nonnegative amounts. */
  function SumIncome(incomes: seq<Income>, pid: int): (total: real)
    ensures (forall i :: 0 <= i < |incomes| ==> incomes[i].propertyId != Some(pid)) ==> total == 0.0
    ensures (forall i :: 0 <= i < |incomes| ==> incomes[i].amount >= 0.0) ==> total >= 0.0
  {
    if incomes == [] then 0.0
    else (if incomes[0].propertyId == Some(pid) then incomes[0].amount else 0.0) + SumIncome(incomes[1..], pid)
  }

  lemma {:induction false} SumIncomeAppend(a: seq<Income>, b: seq<Income>, pid: int)
    ensures SumIncome(a + b, pid) == SumIncome(a, pid) + SumIncome(b, pid)
  {
    if a == [] {
      assert a + b == b;
    } else {
      assert (a + b)[1..] == a[1..] + b;
      SumIncomeAppend(a[1..], b, pid);
    }
  }

  /** The years of the dated deductible expenses of property `pid`: the groups of `group_by(year(date))`. */
  function DeductibleYears(es: seq<Expense>, pid: int): (years: set<int>)
    ensures forall y :: y in years ==>
      exists i :: 0 <= i < |es| && Selects(DeductibleIn(pid, y), es[i])
    ensures forall i :: 0 <= i < |es| && Deductible(es[i], pid) && es[i].date.Some? ==>
      es[i].date.value.year in years
  {
    if es == [] then {}
    else
      var rest := DeductibleYears(es[1..], pid);
      (if Deductible(es[0], pid) && es[0].date.Some? then {es[0].date.value.year} else {}) + rest
  }

  /** True when some deductible expense of property `pid` has no date (SQL groups it under NULL). */
  predicate HasUndated(es: seq<Expense>, pid: int) {
    exists i :: 0 <= i < |es| && Deductible(es[i], pid) && es[i].date.None?
  }

  /** `sum(amount) + sum(tax)` over one year's group. */
  function YearTotal(es: seq<Expense>, pid: int, year: int): (t: real)
    ensures t == SumCharged(es, DeductibleIn(pid, year))
  {
    SumOfSums(es, DeductibleIn(pid, year));
    SumAmount(es, DeductibleIn(pid, year)) + SumTax(es, DeductibleIn(pid, year))
  }

  /** A year without deductible expenses has nothing to deduct. */
  lemma YearTotalOutsideYears(es: seq<Expense>, pid: int, year: int)
    requires year !in DeductibleYears(es, pid)
    ensures YearTotal(es, pid, year) == 0.0
  {
    SumChargedNoneSelected(es, DeductibleIn(pid, year));
  }
}
