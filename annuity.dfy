/**
 * The fixed-rate annuity: the level payment that, charged every period
 * at periodic rate r for n periods, pays off a principal exactly.
 */
module Annuity {

  /** `x ** n` for a natural exponent. */
  function Pow(x: real, n: nat): real {
    if n == 0 then 1.0 else x * Pow(x, n - 1)
  }

  lemma {:induction false} PowOfOne(n: nat)
    ensures Pow(1.0, n) == 1.0
  {
    if n > 0 {
      PowOfOne(n - 1);
    }
  }

  lemma {:induction false} PowAboveOne(x: real, n: nat)
    requires x > 1.0 && n >= 1
    ensures Pow(x, n) >= x
  {
    if n > 1 {
      PowAboveOne(x, n - 1);
      assert x * Pow(x, n - 1) >= x * 1.0;
    }
  }

  /** principal * (r * (1 + r)^n) / ((1 + r)^n - 1). */
  function Payment(principal: real, r: real, n: nat): real
    requires Pow(1.0 + r, n) != 1.0
  {
    principal * (r * Pow(1.0 + r, n)) / (Pow(1.0 + r, n) - 1.0)
  }

  /** The balance after k periods: B0 = principal, Bk = B(k-1) * (1 + r) - payment. */
  function Balance(principal: real, r: real, payment: real, k: nat): real {
    if k == 0 then principal else Balance(principal, r, payment, k - 1) * (1.0 + r) - payment
  }

  /**
   * The closed form of the balance: with x == (1 + r)^k, the balance b after
   * k periods satisfies r * b == principal * r * x - payment * (x - 1).
   */
  predicate ClosedForm(principal: real, r: real, payment: real, b: real, x: real) {
    b * r == principal * r * x - payment * (x - 1.0)
  }

  /** One period of the recurrence carries the closed form forward. */
  lemma ClosedFormStep(principal: real, r: real, payment: real, b: real, x: real)
    requires ClosedForm(principal, r, payment, b, x)
    ensures ClosedForm(principal, r, payment, b * (1.0 + r) - payment, (1.0 + r) * x)
  {
    calc {
      (b * (1.0 + r) - payment) * r;
      (b * r) * (1.0 + r) - payment * r;
      (principal * r * x - payment * (x - 1.0)) * (1.0 + r) - payment * r;
    }
  }

  /** The balance after k periods obeys the closed form. */
  lemma {:induction false} BalanceClosedForm(principal: real, r: real, payment: real, k: nat)
    ensures ClosedForm(principal, r, payment, Balance(principal, r, payment, k), Pow(1.0 + r, k))
  {
    if k > 0 {
      BalanceClosedForm(principal, r, payment, k - 1);
      ClosedFormStep(principal, r, payment, Balance(principal, r, payment, k - 1), Pow(1.0 + r, k - 1));
    }
  }

  /** Paying `Payment(principal, r, n)` for n periods leaves nothing owed. */
  lemma PaymentRetiresPrincipal(principal: real, r: real, n: nat)
    requires Pow(1.0 + r, n) != 1.0
    ensures Balance(principal, r, Payment(principal, r, n), n) == 0.0
  {
    PowOfOne(n);
    assert r != 0.0;
    var x := Pow(1.0 + r, n);
    var pay := Payment(principal, r, n);
    BalanceClosedForm(principal, r, pay, n);
    assert pay * (x - 1.0) == principal * (r * x);
    assert Balance(principal, r, pay, n) * r == 0.0;
  }
}
