// Facts about quotients of reals shared by the estimators: the probabilities
// they return are counts divided by totals.
module Ratios {

  /** Quotients over one denominator add up as their numerators do. */
  lemma DivAdd(a: real, b: real, d: real)
    requires d != 0.0
    ensures a / d + b / d == (a + b) / d
  {
    var qa, qb, qs := a / d, b / d, (a + b) / d;
    assert qa * d == a && qb * d == b && qs * d == a + b;
    assert (qa + qb - qs) * d == 0.0;
  }

  /** A non-zero number divided by itself is one. */
  lemma SelfQuotient(d: real)
    requires d != 0.0
    ensures d / d == 1.0
  {
    var q := d / d;
    assert q * d == d;
    assert (q - 1.0) * d == 0.0;
  }

  /** A share of a positive total lies in [0, 1]: it is 0 exactly for an empty share, 1 for the
      whole and below 1 for anything less. */
  lemma QuotientRange(a: real, b: real)
    requires 0.0 <= a <= b && b > 0.0
    ensures 0.0 <= a / b <= 1.0
    ensures a / b == 0.0 <==> a == 0.0
    ensures a < b ==> a / b < 1.0
    ensures a == b ==> a / b == 1.0
  {
    var q := a / b;
    assert q * b == a;
    if a == b {
      SelfQuotient(b);
    }
  }
}
