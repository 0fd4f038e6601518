/**
 * The records of the property manager and the financial values derived
 * from them: mortgage payments, depreciation, tax deductions, monthly
 * cost and revenue, bookings, inventory and its cached sales tax.
 *
 * Money is `real`: exact arithmetic in place of floating point.
 */
module Models {
  import opened Results
  import opened Calendar
  import opened Annuity
  import Dep = ResidentialDepreciation
  import opened Ledger

  /** Sales-tax rates by (city, state). */
  type TaxTable = map<(string, string), real>

  /** A fixed-rate mortgage: `term` in years, `rate` and `downPayment` in percent. */
  datatype Mortgage = Mortgage(
    amount: real,
    term: nat,
    rate: real,
    downPayment: real,
    closing: real,
    startDate: Option<CivilDate>,
    hasInsurance: bool,
    hasPMI: bool,
    hasTax: bool)
  {
    function MonthlyRate(): real {
      rate / 100.0 / 12.0
    }

    function Periods(): nat {
      term * 12
    }

    /** The amount financed: the loan amount less the down payment. */
    function Principal(): real {
      amount - (downPayment / 100.0) * amount
    }

    /** The annuity denominator (1 + r)^n - 1 is not zero. */
    predicate Payable() {
      Pow(1.0 + MonthlyRate(), Periods()) != 1.0
    }

    /** The level payment on the principal, before insurance and tax. */
    function BasePayment(): real
      requires Payable()
    {
      Payment(Principal(), MonthlyRate(), Periods())
    }

    /**
     * The monthly payment; `owner` is the property the mortgage belongs to,
     * whose insurance and tax the payment may carry.
     */
    function MonthlyPayment(owner: Property?): (r: Result<real>)
      reads owner
      ensures r.Success? <==> Payable()
      ensures r.Failure? ==> r.error == DivisionByZero
      ensures r.Success? ==>
        r.value == BasePayment()
                   + (if hasInsurance && owner != null then owner.insurance / 12.0 else 0.0)
                   + (if hasTax && owner != null then owner.tax / 12.0 else 0.0)
    {
      if !Payable() then Failure(DivisionByZero)
      else
        var payment := BasePayment();
        var payment := if hasInsurance && owner != null then payment + owner.insurance / 12.0 else payment;
        Success(if hasTax && owner != null then payment + owner.tax / 12.0 else payment)
    }
  }

  /** A positive rate over at least one year always gives a payment. */
  lemma PositiveRateIsPayable(m: Mortgage, owner: Property?)
    requires m.rate > 0.0 && m.term >= 1
    ensures m.MonthlyPayment(owner).Success?
  {
    PowAboveOne(1.0 + m.MonthlyRate(), m.Periods());
  }

  /** A zero rate or a zero term divides by zero: there is no straight-line fallback. */
  lemma ZeroRateOrTermFails(m: Mortgage, owner: Property?)
    requires m.rate == 0.0 || m.term == 0
    ensures m.MonthlyPayment(owner) == Failure(DivisionByZero)
  {
    PowOfOne(m.Periods());
  }

  /** The base payment, made every month of the term, pays the principal off exactly. */
  lemma MortgageRetiresPrincipal(m: Mortgage)
    requires m.Payable()
    ensures Balance(m.Principal(), m.MonthlyRate(), m.BasePayment(), m.Periods()) == 0.0
  {
    PaymentRetiresPrincipal(m.Principal(), m.MonthlyRate(), m.Periods());
  }

  /** A stay from `startDate` to `endDate` at `nightlyRate`. */
  datatype Booking = Booking(
    propertyId: int,
    nightlyRate: real,
    startDate: CivilDate,
    endDate: CivilDate)
  {
    /** `(end_date - start_date).days`: positive exactly when the stay ends on a later date. */
    function Days(): (d: int)
      ensures d == 0 <==> startDate == endDate
      ensures d > 0 <==> Before(startDate, endDate)
    {
      OrdinalMonotone(startDate, endDate);
      Ordinal(endDate) - Ordinal(startDate)
    }

    /**
     * What the stay earns the owner, given the property's management fee:
     * nothing with a 100 percent fee or a stay of no nights.
     */
    function Revenue(managementFee: real): (r: real)
      ensures managementFee == 100.0 ==> r == 0.0
      ensures startDate == endDate ==> r == 0.0
    {
      StayRevenue(nightlyRate, managementFee, Days())
    }
  }

  /** The nightly rate less the management-fee share, times the nights. */
  function StayRevenue(nightlyRate: real, managementFee: real, nights: int): (r: real)
    ensures managementFee == 100.0 || nights == 0 ==> r == 0.0
  {
    var nightlyFee := managementFee / 100.0 * nightlyRate;
    var nightlyRevenue := nightlyRate - nightlyFee;
    nightlyRevenue * (nights as real)
  }

  /** Without a management fee the owner keeps the gross: nightly rate times days. */
  lemma RevenueWithoutFee(b: Booking)
    ensures b.Revenue(0.0) == b.nightlyRate * (b.Days() as real)
  {
    NoFeeKeepsGross(b.nightlyRate, b.Days());
  }

  lemma NoFeeKeepsGross(rate: real, nights: int)
    ensures StayRevenue(rate, 0.0, nights) == rate * (nights as real)
  {
  }

  /** A stay that ends on the next calendar day lasts one night, across month and year ends. */
  lemma DaysCountsNights(b: Booking)
    ensures b.endDate == NextDay(b.startDate) ==> b.Days() == 1
  {
    if b.endDate == NextDay(b.startDate) {
      OrdinalNextDay(b.startDate);
    }
  }

  /** Splitting a stay at any date splits its revenue: the revenue is per night. */
  lemma RevenueSplits(b: Booking, middle: CivilDate, managementFee: real)
    ensures b.Revenue(managementFee)
         == b.(endDate := middle).Revenue(managementFee) + b.(startDate := middle).Revenue(managementFee)
  {
    var first, second := b.(endDate := middle), b.(startDate := middle);
    assert b.Days() == first.Days() + second.Days();
    NightsAdd(b.nightlyRate, managementFee, first.Days(), second.Days());
  }

  lemma NightsAdd(rate: real, fee: real, x: int, y: int)
    ensures StayRevenue(rate, fee, x + y) == StayRevenue(rate, fee, x) + StayRevenue(rate, fee, y)
  {
    var net := rate - fee / 100.0 * rate;
    assert net * ((x + y) as real) == net * (x as real) + net * (y as real);
  }

  lemma NetOfFee(rate: real, fee: real, nights: int)
    requires 0.0 <= fee <= 100.0 && rate >= 0.0 && nights >= 0
    ensures 0.0 <= StayRevenue(rate, fee, nights) <= rate * (nights as real)
  {
    var net := rate - fee / 100.0 * rate;
    assert net == rate * (1.0 - fee / 100.0);
    assert 0.0 <= net <= rate;
    assert net * (nights as real) <= rate * (nights as real);
  }

  /** With a fee of 0..100 percent and a nonnegative rate, the owner keeps between nothing and the gross. */
  lemma RevenueBounds(b: Booking, managementFee: real)
    requires 0.0 <= managementFee <= 100.0 && b.nightlyRate >= 0.0
    requires !Before(b.endDate, b.startDate)
    ensures 0.0 <= b.Revenue(managementFee) <= b.nightlyRate * (b.Days() as real)
  {
    NoNegativeStay(b);
    NetOfFee(b.nightlyRate, managementFee, b.Days());
  }

  /** A stay whose end is not before its start has no negative nights. */
  lemma NoNegativeStay(b: Booking)
    requires !Before(b.endDate, b.startDate)
    ensures b.Days() >= 0
  {
    OrdinalMonotone(b.endDate, b.startDate);
  }

  /**
   * The estimated monthly revenue: nightly rate times the nights occupied
   * in a year, over 12; a missing occupancy or rate counts as 0.
   */
  function RevenueOf(occupancy: Option<int>, nightlyRate: Option<real>): (r: real)
    ensures occupancy.None? || nightlyRate.None? ==> r == 0.0
    ensures occupancy.GetOr(0) >= 0 && nightlyRate.GetOr(0.0) >= 0.0 ==> r >= 0.0
    ensures 12.0 * r == nightlyRate.GetOr(0.0) * (occupancy.GetOr(0) as real) * 365.0 / 100.0
  {
    var occupiedNights := (occupancy.GetOr(0) as real / 100.0) * 365.0;
    nightlyRate.GetOr(0.0) * occupiedNights / 12.0
  }

  /** The management company's share of the revenue, charged only when both are positive. */
  function ManagementShare(managementFee: real, revenue: real): (share: real)
    ensures share != 0.0 ==> managementFee > 0.0 && revenue > 0.0
    ensures share >= 0.0
    ensures managementFee > 0.0 && revenue > 0.0 ==> share * 100.0 == managementFee * revenue
  {
    if managementFee > 0.0 && revenue > 0.0 then (managementFee / 100.0) * revenue else 0.0
  }

  /** The cached sales tax after a refresh that computed `computed`. */
  function StoredSalesTax(hasTax: bool, stored: real, computed: real): (s: real)
    ensures hasTax ==> s == computed
    ensures !hasTax ==> s == stored
  {
    if hasTax && stored != computed then computed else stored
  }

  /** A refresh writes (and commits) the cached value. */
  predicate WritesSalesTax(hasTax: bool, stored: real, computed: real) {
    hasTax && stored != computed
  }

  /** Refreshing twice stores what refreshing once does, and the second refresh writes nothing. */
  lemma SalesTaxRefreshIdempotent(hasTax: bool, stored: real, computed: real)
    ensures !WritesSalesTax(hasTax, StoredSalesTax(hasTax, stored, computed), computed)
    ensures StoredSalesTax(hasTax, StoredSalesTax(hasTax, stored, computed), computed)
         == StoredSalesTax(hasTax, stored, computed)
  {
  }

  /** A piece of real estate. */
  class Property {
    const id: int
    var city: string
    var state: string
    var cost: real
    var landValue: real
    var tax: real
    var associationFee: real
    var managementFee: real
    var insurance: real
    var nightlyRate: Option<real>
    var occupancy: Option<int>
    var mortgage: Option<Mortgage>

    /** cost + closing - land_value: what is depreciated. */
    function DepreciableBase(): real
      reads this
      requires mortgage.Some?
    {
      cost + mortgage.value.closing - landValue
    }

    /** The mortgage start date and the end of the 27.5-year schedule that begins there. */
    function DepreciationSchedule(): (r: Result<(Date, Date)>)
      reads this
      ensures mortgage.None? ==> r == Failure(MissingMortgage)
      ensures mortgage.Some? && mortgage.value.startDate.None? ==> r == Failure(MissingStartDate)
      ensures mortgage.Some? && mortgage.value.startDate.Some? ==>
        (r.Success? <==> Dep.LastYear(mortgage.value.startDate.value) <= MaxYear)
      ensures r.Failure? ==> r.error in {MissingMortgage, MissingStartDate, YearOutOfRange}
      ensures r.Success? ==>
        mortgage.Some? && mortgage.value.startDate.Some? && mortgage.value.startDate.value == r.value.0
        && Dep.Schedule(r.value.0, r.value.1)
    {
      if mortgage.None? then Failure(MissingMortgage)
      else if mortgage.value.startDate.None? then Failure(MissingStartDate)
      else
        var start := mortgage.value.startDate.value;
        match Dep.ScheduleEnd(start)
        case Failure(e) => Failure(e)
        case Success(end) => Success((start, end))
    }

    /** The depreciation charged in `year`. */
    function Depreciation(year: int): (r: Result<real>)
      reads this
      ensures r.Success? <==> DepreciationSchedule().Success?
      ensures r.Failure? ==> r.error == DepreciationSchedule().error
      ensures r.Success? ==>
        r.value == Dep.Annual(DepreciableBase(), DepreciationSchedule().value.0, DepreciationSchedule().value.1, year)
    {
      match DepreciationSchedule()
      case Failure(e) => Failure(e)
      case Success(schedule) => Success(Dep.Annual(DepreciableBase(), schedule.0, schedule.1, year))
    }

    /**
     * Per year of deductible expenses: that year's amount plus tax, plus
     * that year's depreciation. An undated deductible expense forms a
     * group whose year cannot be compared, which fails.
     */
    function TaxDeduction(expenses: seq<Expense>): (r: Result<map<int, real>>)
      reads this
      ensures DeductibleYears(expenses, id) == {} && !HasUndated(expenses, id) ==> r == Success(map[])
      ensures r.Success? ==> r.value.Keys == DeductibleYears(expenses, id)
      ensures r.Success? ==> forall y :: y in r.value ==>
        Depreciation(y).Success? && r.value[y] == YearTotal(expenses, id, y) + Depreciation(y).value
      ensures r.Failure? <==>
        (DeductibleYears(expenses, id) != {} || HasUndated(expenses, id))
        && (DepreciationSchedule().Failure? || HasUndated(expenses, id))
      ensures r.Failure? && DepreciationSchedule().Failure? ==> r.error == DepreciationSchedule().error
      ensures r.Failure? && DepreciationSchedule().Success? ==> r.error == MissingDate
    {
      var years := DeductibleYears(expenses, id);
      if years == {} && !HasUndated(expenses, id) then Success(map[])
      else
        match DepreciationSchedule()
        case Failure(e) => Failure(e)
        case Success(_) =>
          if HasUndated(expenses, id) then Failure(MissingDate)
          else Success(map y | y in years :: YearTotal(expenses, id, y) + Depreciation(y).value)
    }

    /** The monthly cost, as the state before any revenue write-back gives it. */
    function MonthlyCost(): (r: Result<real>)
      reads this
      ensures r.Success? <==> mortgage.None? || mortgage.value.Payable()
      ensures r.Failure? ==> r.error == DivisionByZero
      ensures r.Success? ==>
        r.value == (if mortgage.Some? then mortgage.value.BasePayment() + insurance / 12.0 + tax / 12.0 else 0.0)
                   + ManagementShare(managementFee, RevenueOf(occupancy, nightlyRate))
                   + associationFee / 12.0
    {
      var payment := if mortgage.Some? then mortgage.value.MonthlyPayment(this) else Success(0.0);
      if payment.Failure? then Failure(payment.error)
      else
        var total := payment.value;
        var total := if mortgage.Some? && !mortgage.value.hasInsurance then total + insurance / 12.0 else total;
        var total := if mortgage.Some? && !mortgage.value.hasTax then total + tax / 12.0 else total;
        var revenue := RevenueOf(occupancy, nightlyRate);
        var total := if managementFee > 0.0 && revenue > 0.0 then total + (managementFee / 100.0) * revenue else total;
        Success(total + associationFee / 12.0)
    }

    /** Fills a missing occupancy or nightly rate with 0, then estimates the monthly revenue. */
    method TotalMonthlyRevenue() returns (revenue: real)
      modifies this`occupancy, this`nightlyRate
      ensures occupancy == Some(old(occupancy).GetOr(0))
      ensures nightlyRate == Some(old(nightlyRate).GetOr(0.0))
      ensures revenue == RevenueOf(old(occupancy), old(nightlyRate))
      ensures revenue == RevenueOf(occupancy, nightlyRate)
    {
      if occupancy.None? {
        occupancy := Some(0);
      }
      if nightlyRate.None? {
        nightlyRate := Some(0.0);
      }
      var occupiedNights := (occupancy.value as real / 100.0) * 365.0;
      revenue := nightlyRate.value * occupiedNights;
      revenue := revenue / 12.0;
    }

    /**
     * The monthly cost. Consulting the revenue (only when the management
     * fee is positive) fills a missing occupancy or nightly rate with 0.
     */
    method TotalMonthlyCost() returns (r: Result<real>)
      modifies this`occupancy, this`nightlyRate
      ensures r == old(MonthlyCost())
      ensures r.Success? && managementFee > 0.0 ==>
        occupancy == Some(old(occupancy).GetOr(0)) && nightlyRate == Some(old(nightlyRate).GetOr(0.0))
      ensures !(r.Success? && managementFee > 0.0) ==>
        occupancy == old(occupancy) && nightlyRate == old(nightlyRate)
    {
      var total := 0.0;
      if mortgage.Some? {
        var payment := mortgage.value.MonthlyPayment(this);
        if payment.Failure? {
          return Failure(payment.error);
        }
        total := total + payment.value;
      }
      if mortgage.Some? && !mortgage.value.hasInsurance {
        total := total + insurance / 12.0;
      }
      if mortgage.Some? && !mortgage.value.hasTax {
        total := total + tax / 12.0;
      }
      if managementFee > 0.0 {
        var revenue := TotalMonthlyRevenue();
        if revenue > 0.0 {
          revenue := TotalMonthlyRevenue();
          total := total + (managementFee / 100.0) * revenue;
        }
      }
      total := total + associationFee / 12.0;
      r := Success(total);
    }

    /** `sum(amount) + sum(tax)` over this property's expenses; 0.0 when it has none. */
    function TotalExpenses(expenses: seq<Expense>): (t: real)
      ensures t == SumCharged(expenses, OfProperty(id))
      ensures (forall i :: 0 <= i < |expenses| ==> expenses[i].propertyId != Some(id)) ==> t == 0.0
    {
      SumOfSums(expenses, OfProperty(id));
      SumChargedNoneSelected(expenses, OfProperty(id));
      SumAmount(expenses, OfProperty(id)) + SumTax(expenses, OfProperty(id))
    }

    /** `sum(amount)` over this property's incomes; 0.0 when it has none. */
    function TotalIncome(incomes: seq<Income>): (t: real)
      ensures (forall i :: 0 <= i < |incomes| ==> incomes[i].propertyId != Some(id)) ==> t == 0.0
      ensures (forall i :: 0 <= i < |incomes| ==> incomes[i].amount >= 0.0) ==> t >= 0.0
    {
      SumIncome(incomes, id)
    }

    /** The item belongs to this property. */
    predicate Owns(item: Inventory)
      reads item
    {
      item.property != null && item.property.id == id
    }

    /** `sum(cost * quantity)` over this property's inventory; 0.0 when it owns none. */
    function TotalInventory(items: seq<Inventory>): (t: real)
      reads items
      ensures (forall i :: 0 <= i < |items| ==> !Owns(items[i])) ==> t == 0.0
      ensures (forall i :: 0 <= i < |items| ==> items[i].cost >= 0.0 && items[i].quantity >= 0) ==> t >= 0.0
    {
      if items == [] then 0.0
      else (if Owns(items[0]) then items[0].cost * (items[0].quantity as real) else 0.0) + TotalInventory(items[1..])
    }

    /** The sum of `total_cost` over this property's inventory. */
    function SumOfTotalCosts(items: seq<Inventory>): real
      reads items
    {
      if items == [] then 0.0
      else (if Owns(items[0]) then items[0].TotalCost() else 0.0) + SumOfTotalCosts(items[1..])
    }
  }

  /**
   * Depreciation of a year, from the mortgage start date alone: nothing
   * outside start.year..LastYear(start); inside, base * months / 330 with
   * 13 - start.month months in the first year, the end month in the last,
   * and 12 in between.
   */
  lemma DepreciationByYear(p: Property, year: int)
    requires p.Depreciation(year).Success?
    ensures
      var start, r := p.mortgage.value.startDate.value, p.Depreciation(year).value;
      && (year < start.year || year > Dep.LastYear(start) ==> r == 0.0)
      && (start.year <= year <= Dep.LastYear(start) ==>
            r == p.DepreciableBase() * (Dep.MonthsFromStart(start, year) as real / 330.0))
  {
    var schedule := p.DepreciationSchedule().value;
    var base := p.DepreciableBase();
    assert p.Depreciation(year).value == Dep.Annual(base, schedule.0, schedule.1, year);
    Dep.AnnualFromStart(base, schedule.0, schedule.1, year);
  }

  /** Over the whole schedule, the yearly charges add up to base * 331 / 330. */
  lemma DepreciationOverSchedule(p: Property)
    requires p.DepreciationSchedule().Success?
    ensures
      var (start, end) := p.DepreciationSchedule().value;
      Dep.DepreciationFrom(p.DepreciableBase(), start, end, start.year) == p.DepreciableBase() * 331.0 / 330.0
  {
    var schedule := p.DepreciationSchedule().value;
    Dep.TotalDepreciation(p.DepreciableBase(), schedule.0, schedule.1);
  }

  /** The inventory total is the sum of the items' total costs, and 0.0 without items. */
  lemma {:induction false} TotalInventoryIsSumOfTotalCosts(p: Property, items: seq<Inventory>)
    ensures p.TotalInventory(items) == p.SumOfTotalCosts(items)
    ensures (forall i :: 0 <= i < |items| ==> !p.Owns(items[i])) ==> p.TotalInventory(items) == 0.0
  {
    if items != [] {
      TotalInventoryIsSumOfTotalCosts(p, items[1..]);
      assert forall i :: 0 <= i < |items[1..]| ==> items[1..][i] == items[i + 1];
    }
  }

  /** An inventory item of a property. */
  class Inventory {
    var property: Property?
    var cost: real
    var hasTax: bool
    var salesTax: real
    var quantity: int

    /** The cost of the whole quantity. */
    function TotalCost(): (c: real)
      reads this
      ensures quantity == 0 ==> c == 0.0
      ensures quantity >= 0 && cost >= 0.0 ==> c >= 0.0
    {
      cost * (quantity as real)
    }

    /**
     * The sales tax on the item's cost at the rate for its property's
     * city and state. A taxable item whose cached value differs has it
     * overwritten; the computed tax is returned either way.
     */
    method CalculatedSalesTax(taxes: TaxTable) returns (r: Result<real>)
      modifies this`salesTax
      ensures property == null ==> r == Failure(MissingProperty)
      ensures property != null && (property.city, property.state) !in taxes ==> r == Failure(TaxRateNotFound)
      ensures r.Success? <==> property != null && (property.city, property.state) in taxes
      ensures r.Success? ==> r.value == cost * taxes[(property.city, property.state)]
      ensures r.Success? ==> salesTax == StoredSalesTax(hasTax, old(salesTax), r.value)
      ensures r.Success? ==> !WritesSalesTax(hasTax, salesTax, r.value)
      ensures r.Failure? ==> salesTax == old(salesTax)
    {
      if property == null {
        return Failure(MissingProperty);
      }
      var key := (property.city, property.state);
      if key !in taxes {
        return Failure(TaxRateNotFound);
      }
      var tax := cost * taxes[key];
      if hasTax && salesTax != tax {
        salesTax := tax;
      }
      r := Success(tax);
    }
  }
}
