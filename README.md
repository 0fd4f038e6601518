# Property manager: financial derivation layer

A Dafny model of the values the property manager derives from its records
(`app/models.py`):

- the monthly payment of a fixed-rate mortgage;
- the yearly straight-line depreciation of a residential property over
  27 years and 6 months;
- the per-year tax deduction (deductible expenses plus depreciation);
- the estimated monthly revenue and the total monthly cost of a property;
- the nights and owner revenue of a booking;
- the expense, income and inventory totals of a property;
- the sales tax of an inventory item, with its cached value refreshed in
  place.

Modules:

- `Results`: `Option`, `Result` and the error cases. Each error case stands for
  an exception the code raises: `AttributeError` on a missing mortgage,
  property or tax row; `TypeError` on a missing mortgage start date (`None +
  relativedelta(...)`) and on an undated expense; `ValueError` when a date
  leaves the years 1..9999; `ZeroDivisionError`.
- `Calendar`: proleptic Gregorian dates. `Ordinal` is the day number behind
  `date - date`. `AddYearsMonths` is `date + relativedelta(years=.., months=..)`:
  month carry, day clamped to the month's length, failure outside years 1..9999.
- `Annuity`: `(1 + r)^n`, the level payment, and the balance recurrence it pays off.
- `ResidentialDepreciation`: the 330-month schedule, counted by calendar year.
- `Ledger`: expense and income rows. The SQL `sum` / `group_by(year)` queries
  become folds over sequences of rows.
- `Models`:
  - `Mortgage` and `Booking` are values.
  - `Property` and `Inventory` are classes, because `total_monthly_revenue`
    and `calculated_sales_tax` write fields back.
  - An ORM query over a table becomes a parameter holding the table's rows:
    a `seq` of expenses, incomes or inventory items, or a map from
    (city, state) to the sales-tax rate.

Money is `real`. Python's exceptions are modelled as `Failure` results, not as
preconditions.

Two behaviours of the code at its boundaries:

- A zero rate or a zero term has no straight-line fallback: the annuity
  denominator is zero and the payment fails with `DivisionByZero`, and so does
  `total_monthly_cost` of a property with such a mortgage.
- The schedule charges the start month and the end month in full, so it
  charges 331 months against the 330-month (27.5-year) life the docstring of
  `depreciation` names: the total is base * 331 / 330, not base
  (`TotalMonths`, `TotalDepreciation`).

## Model

| member | source | states |
|---|---|---|
| `Calendar.AddYearsMonths` | app/models.py:290 | Adding years and months succeeds exactly when the resulting year is in 1..9999, otherwise fails with `YearOutOfRange`. On success the result is a valid date whose month index 12*year+month is shifted by exactly 12*years+months, with the day clamped to the new month's length. |
| `Calendar.OrdinalMonotone` | app/models.py:63-64 | Day numbers follow calendar order: a is before b iff its day number is smaller, and two valid dates are equal iff their day numbers are. |
| `Calendar.OrdinalNextDay` | app/models.py:63-64 | Consecutive calendar days, across month and year ends, have consecutive day numbers. |
| `Calendar.DaysBeforeYearClosedForm` | app/models.py:63-64 | The days before year y counted year by year equal 365(y-1) + (y-1)/4 - (y-1)/100 + (y-1)/400. |
| `ResidentialDepreciation.ScheduleEnd` | app/models.py:290 | start + 27 years 6 months exists iff its year is at most 9999. Its year is start.year + 27 for start months 1..6 and start.year + 28 otherwise. Its month is (start.month + 5) mod 12 + 1. |
| `ResidentialDepreciation.DepreciationWindow` | app/models.py:289-292 | Nothing is charged before the start year or after the end year. A nonzero base is charged in every year of the window. |
| `ResidentialDepreciation.MonthsInWindow` | app/models.py:297-302 | Inside the window the month count is 13 - start.month in the start year, the end month in the end year and 12 in between. It always lies in 1..12. The start and end years never coincide. |
| `ResidentialDepreciation.AnnualFromStart` | app/models.py:291-304 | Each year's charge is stated from the start date alone: 0 outside the window, otherwise base * months / 330. |
| `ResidentialDepreciation.DepreciationFromMonths` | app/models.py:303 | The charges from a year to the end of the schedule are base times the months they cover over 330. |
| `ResidentialDepreciation.TotalMonths` | app/models.py:290-303 | The month counts over the whole schedule add up to 331 for every start date, one more than the 330 divisor. |
| `ResidentialDepreciation.TotalDepreciation` | app/models.py:297-304 | The yearly charges over the whole schedule add up to base * 331 / 330. |
| `Annuity.BalanceClosedForm` | app/models.py:233-237 | The balance after k payments satisfies r * B_k = P * r * (1+r)^k - payment * ((1+r)^k - 1). |
| `Annuity.PaymentRetiresPrincipal` | app/models.py:233-237 | Paying P * r(1+r)^n / ((1+r)^n - 1) every period for n periods leaves a balance of exactly 0. |
| `Models.Mortgage.MonthlyPayment` | app/models.py:228-242 | The payment exists iff (1+r)^n != 1 and is otherwise a `DivisionByZero` failure. When it exists it is the annuity payment on amount less the down payment, at rate/1200 over term*12 months. It adds insurance/12 iff the mortgage bundles insurance and has a property, and tax/12 iff it bundles tax and has a property. |
| `Models.PositiveRateIsPayable` | app/models.py:230-237 | A positive rate over a term of at least one year always yields a payment. |
| `Models.ZeroRateOrTermFails` | app/models.py:233-237 | A zero rate or a zero term fails with `DivisionByZero`: there is no straight-line fallback. |
| `Models.MortgageRetiresPrincipal` | app/models.py:230-237 | The base monthly payment, made every month of the term, pays off the amount financed exactly. |
| `Models.Booking.Days` | app/models.py:63-64 | A booking's days are 0 iff it starts and ends on the same date, and positive iff the end date is later. |
| `Models.DaysCountsNights` | app/models.py:63-64 | A stay ending the next calendar day lasts 1 day, across month and year ends. |
| `Models.Booking.Revenue` | app/models.py:67-71 | With a 100 percent management fee, or a stay of no nights, the owner gets nothing. |
| `Models.RevenueWithoutFee` | app/models.py:67-71 | With no management fee the owner gets the gross: nightly rate times days. |
| `Models.RevenueSplits` | app/models.py:67-71 | Splitting a stay at any date splits its revenue into the revenues of the two parts. |
| `Models.RevenueBounds` | app/models.py:67-71 | With a fee of 0..100 percent, a nonnegative nightly rate and an end not before the start, the owner's revenue lies between 0 and nightly rate * days. |
| `Models.RevenueOf` | app/models.py:357-364 | The monthly revenue estimate is 0 when occupancy or nightly rate is missing, and nonnegative for nonnegative inputs. Twelve times it is rate * occupancy% * 365. |
| `Models.Property.TotalMonthlyRevenue` | app/models.py:355-364 | Writes 0 into a missing occupancy or nightly rate, leaves present ones as they were, and returns the estimate computed from both the old and the new fields. |
| `Models.ManagementShare` | app/models.py:349-350 | The management share is charged only when the fee and the revenue are both positive. It is never negative, and then it is fee% of the revenue. |
| `Models.Property.MonthlyCost` | app/models.py:339-352 | The monthly cost fails iff the mortgage's payment does. With a mortgage, insurance/12 and tax/12 each count exactly once, whether bundled into the payment or added separately; without one, neither counts. The management share and association fee/12 are always part of it. |
| `Models.Property.TotalMonthlyCost` | app/models.py:339-352 | Returns the monthly cost of the state before the call. It fills missing occupancy and nightly rate with 0 exactly when the cost succeeds and the management fee is positive. Otherwise it leaves them untouched. |
| `Models.Property.DepreciationSchedule` | app/models.py:288-290 | The schedule fails with `MissingMortgage` or `MissingStartDate` when those are absent, and otherwise exists iff the end year is at most 9999. It starts at the mortgage start date. |
| `Models.Property.Depreciation` | app/models.py:284-304 | A year's depreciation exists iff the schedule does, fails with the schedule's error otherwise, and is the schedule's charge for that year on base cost + closing - land value. |
| `Models.DepreciationByYear` | app/models.py:289-304 | Depreciation is 0 outside start.year..LastYear(start). Inside, it is (cost + closing - land value) * months / 330 with the start-year, end-year and middle-year month counts. |
| `Models.DepreciationOverSchedule` | app/models.py:290-303 | A property's yearly depreciation over its whole schedule adds up to base * 331 / 330. |
| `Ledger.DeductibleYears` | app/models.py:327-334 | The year groups are exactly the years of the property's dated deductible expenses, both ways. |
| `Ledger.YearTotal` | app/models.py:329 | sum(amount) + sum(tax) over a year's group equals the row-by-row total of amount + tax over that group. |
| `Ledger.YearTotalOutsideYears` | app/models.py:327-336 | A year without deductible expenses totals 0. |
| `Models.Property.TaxDeduction` | app/models.py:322-336 | The keys are exactly the years with deductible expenses. Each value is that year's amount + tax plus the year's depreciation. No deductible expenses give the empty map. The deduction fails iff there are expenses and either the depreciation schedule fails or an expense is undated. Schedule errors come first, then `MissingDate`. |
| `Models.Property.TotalExpenses` | app/models.py:367-374 | The total is amount + tax summed over the property's expenses, and 0.0 when it has none. |
| `Ledger.SumOfSums` | app/models.py:369-373 | sum(amount) + sum(tax) equals the row-by-row sum of amount + tax. |
| `Ledger.SumChargedAppend` | app/models.py:367-374 | The expense total of two batches of rows is the sum of their totals. |
| `Ledger.SumChargedNoneSelected` | app/models.py:374 | A selection that keeps no rows totals 0.0. |
| `Models.Property.TotalIncome` | app/models.py:377-384 | The income total is 0.0 when the property has no income rows, and never negative when the amounts are not. |
| `Ledger.SumIncome` | app/models.py:379-384 | sum(amount) over a property's incomes is 0.0 without rows of that property (SQL's NULL reported as 0.0), and never negative when the amounts are not. |
| `Ledger.SumIncomeAppend` | app/models.py:377-384 | The income total of two batches of rows is the sum of their totals. |
| `Models.Inventory.TotalCost` | app/models.py:187-189 | An item's total cost is 0 for quantity 0 and nonnegative for nonnegative cost and quantity. |
| `Models.Property.TotalInventory` | app/models.py:387-394 | sum(cost * quantity) over the property's items is 0.0 when it owns none, and never negative when costs and quantities are not. |
| `Models.TotalInventoryIsSumOfTotalCosts` | app/models.py:387-394 | sum(cost * quantity) over the property's items equals the sum of their total costs, and is 0.0 when it owns none. |
| `Models.StoredSalesTax` | app/models.py:180-181 | After a refresh the cached sales tax is the computed tax for a taxable item and unchanged otherwise. |
| `Models.SalesTaxRefreshIdempotent` | app/models.py:180-183 | A second refresh stores the same value and performs no write. |
| `Models.Inventory.CalculatedSalesTax` | app/models.py:170-184 | The result fails with `MissingProperty` without a property and with `TaxRateNotFound` without a tax row for its city and state; a missing row is not read as a zero rate. Otherwise it returns cost * rate. A taxable item's cached tax becomes that value, a non-taxable item's stays, and a failure leaves it unchanged. |

## Left out

- `Mortgage.amortization_schedule` (app/models.py:244-254): it hands the loan to the external `mortgage.Loan` library, whose code is not part of this model.
- `app/views.py`, `app/utils.py`, `app/__init__.py`, `app/forms.py`: admin views, e-mail, HTML and number formatting, application wiring and form declarations; none of them derives a value.
- The ORM and SQL:
  - queries become sequences of rows passed as parameters;
  - `func.sum` over no rows (NULL) becomes 0.0;
  - `func.year` becomes the date's year;
  - `db.session.add` / `commit` become the field update.
- A `Tax` table holding two rows for the same city and state (`.scalar()` raising `MultipleResultsFound`) is not modelled: the tax table is a map, one rate per (city, state).
- IEEE floating point: money is exact `real` arithmetic, so rounding and float display formats are not reproduced.
- Negative mortgage terms: `term` is a natural number.
- Nullable numeric columns other than the property's occupancy and nightly rate are taken to be present: the property's cost, land value, fees, insurance and tax, expense and income amounts, a booking's nightly rate (`float(None)` raises `TypeError`) and a tax row's sales rate (`cost * None` raises `TypeError`). The `TypeError` a NULL there would raise is not modelled.
- A `Mortgage`'s `property` back-reference is the `owner` parameter of `MonthlyPayment`. Inside `MonthlyCost`, the mortgage belongs to the property that holds it.
- `__repr__` strings, `Contact.full_name`, `list_links`, `receipt_link`, `receipt_file_name`: presentation only.
- Concurrency and session isolation between requests.
- `Models.Property.TotalIncome`: its contract states only the empty case. The total itself is the fold `SumIncome`, and the way it combines is stated by `Ledger.SumIncomeAppend`.
