/** Two-by-two quadratic forms: one that is never negative meets the Cauchy-Schwarz bound. */
module PairForms {
  import opened RealAlgebra

  /** Variance of `a` units of one series and `b` of another, from variances `v`, `u` and covariance `c`. */
  function PairForm(v: real, u: real, c: real, a: real, b: real): real {
    Mul(Mul(b, b), u) + (2.0 * Mul(Mul(a, b), c) + Mul(Mul(a, a), v))
  }

  lemma Discriminant(v: real, u: real, c: real)
    requires v >= 0.0 && u >= 0.0 && forall a: real, b: real :: PairForm(v, u, c, a, b) >= 0.0
    ensures c * c <= v * u
  {
    if u > 0.0 {
      assert PairForm(v, u, c, u, -c) >= 0.0;
      assert PairForm(v, u, c, u, -c) == u * (v * u - c * c);
      if v * u - c * c < 0.0 { NegativeProduct(u, v * u - c * c); }
    } else if c != 0.0 {
      DegenerateNegative(v, c);
    }
  }

  /** Without the second variance a covariance would give a negative form. */
  lemma DegenerateNegative(v: real, c: real)
    requires v >= 0.0 && c != 0.0
    ensures PairForm(v, 0.0, c, 1.0, -(v + 1.0) / (2.0 * c)) < 0.0
  {
    var b := -(v + 1.0) / (2.0 * c);
    assert b * c == -(v + 1.0) / 2.0;
    assert PairForm(v, 0.0, c, 1.0, b) == 2.0 * (b * c) + v;
  }

  lemma NegativeProduct(a: real, b: real)
    requires a > 0.0 && b < 0.0
    ensures a * b < 0.0
  {
  }
}
