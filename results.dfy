/** Optional values and the failures the derivation layer can raise. */
module Results {

  /** A nullable column or an optional association. */
  datatype Option<T> = None | Some(value: T) {
    function GetOr(default: T): T {
      match this
      case Some(v) => v
      case None => default
    }
  }

  /** The conditions under which a derived value cannot be computed. */
  datatype Error =
    | MissingMortgage      // the property has no mortgage (attribute access on None)
    | MissingStartDate     // the mortgage has no start date (None + relativedelta)
    | YearOutOfRange       // a date computation leaves years 1..9999
    | DivisionByZero       // the annuity denominator (1 + r)^n - 1 is zero
    | MissingDate          // a deductible expense has no date (None compared with a year)
    | MissingProperty      // an inventory item belongs to no property
    | TaxRateNotFound      // no sales-tax row for the property's city and state

  datatype Result<T> = Success(value: T) | Failure(error: Error)
}
