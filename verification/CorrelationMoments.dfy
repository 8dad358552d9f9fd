/**
 Time-decayed moments of a pair of series, as the lead-lag and information-coefficient estimators
 keep them.  Whatever is fed, the covariance obeys the Cauchy-Schwarz bound, so a correlation
 computed from them lies between -1 and 1.
 */
module CorrelationMoments {
  import opened RealAlgebra
  import opened PairForms
  import opened Decay

  datatype Moments = Moments(meanX: real, meanY: real, varX: real, varY: real, cov: real)

  const ZERO := Moments(0.0, 0.0, 0.0, 0.0, 0.0)

  function Blend(old_: real, a: real, x: real): real { old_ + Mul(a, x - old_) }

  /** Means first, then the second moments around the new means. */
  function Update(m: Moments, a: real, x: real, y: real): Moments {
    var meanX, meanY := Blend(m.meanX, a, x), Blend(m.meanY, a, y);
    var dx, dy := x - meanX, y - meanY;
    Moments(meanX, meanY, Blend(m.varX, a, Mul(dx, dx)), Blend(m.varY, a, Mul(dy, dy)), Blend(m.cov, a, Mul(dx, dy)))
  }

  ghost predicate Definite(m: Moments) {
    forall p: real, q: real :: PairForm(m.varX, m.varY, m.cov, p, q) >= 0.0
  }

  ghost predicate Bounded(m: Moments) {
    m.varX >= 0.0 && m.varY >= 0.0 && Mul(m.cov, m.cov) <= Mul(m.varX, m.varY)
  }

  lemma DecayOfTerm(c: real, old_: real, a: real, x: real)
    ensures Mul(c, Blend(old_, a, x)) == Mul(1.0 - a, Mul(c, old_)) + Mul(a, Mul(c, x))
  {
    assert c * (old_ + a * (x - old_)) == (1.0 - a) * (c * old_) + a * (c * x);
  }

  lemma SquareOfSum(p: real, dx: real, q: real, dy: real)
    ensures Mul(Mul(p, dx) + Mul(q, dy), Mul(p, dx) + Mul(q, dy))
         == Mul(Mul(p, p), Mul(dx, dx)) + 2.0 * Mul(Mul(p, q), Mul(dx, dy)) + Mul(Mul(q, q), Mul(dy, dy))
  {
    MulCross(p, p, dx, dx);
    MulCross(q, q, dy, dy);
    MulCross(p, q, dx, dy);
    SquareBinomial(Mul(p, dx), Mul(q, dy));
  }

  lemma SquareBinomial(u: real, v: real)
    ensures Mul(u + v, u + v) == Mul(u, u) + 2.0 * Mul(u, v) + Mul(v, v)
  {
  }

  /** One sample blends the old form with a square. */
  lemma UpdateKeepsDefinite(m: Moments, a: real, x: real, y: real)
    requires Definite(m) && 0.0 <= a <= 1.0
    ensures Definite(Update(m, a, x, y))
  {
    var n := Update(m, a, x, y);
    var dx, dy := x - n.meanX, y - n.meanY;
    forall p: real, q: real ensures PairForm(n.varX, n.varY, n.cov, p, q) >= 0.0 {
      FormBlends(m, a, dx, dy, n, p, q);
    }
  }

  lemma FormBlends(m: Moments, a: real, dx: real, dy: real, n: Moments, p: real, q: real)
    requires n.varX == Blend(m.varX, a, Mul(dx, dx)) && n.varY == Blend(m.varY, a, Mul(dy, dy))
    requires n.cov == Blend(m.cov, a, Mul(dx, dy)) && Definite(m) && 0.0 <= a <= 1.0
    ensures PairForm(n.varX, n.varY, n.cov, p, q) >= 0.0
  {
    hide Mul;
    hide Blend;
    var pp, pq, qq := Mul(p, p), Mul(p, q), Mul(q, q);
    DecayOfTerm(pp, m.varX, a, Mul(dx, dx));
    DecayOfTerm(pq, m.cov, a, Mul(dx, dy));
    DecayOfTerm(qq, m.varY, a, Mul(dy, dy));
    SquareOfSum(p, dx, q, dy);
    var old_, square := PairForm(m.varX, m.varY, m.cov, p, q), Mul(Mul(p, dx) + Mul(q, dy), Mul(p, dx) + Mul(q, dy));
    SquareNonNegative(Mul(p, dx) + Mul(q, dy));
    MulNonNegative(1.0 - a, old_);
    MulNonNegative(a, square);
    SplitThree(1.0 - a, Mul(pp, m.varX), Mul(pq, m.cov), Mul(qq, m.varY));
    SplitThree(a, Mul(pp, Mul(dx, dx)), Mul(pq, Mul(dx, dy)), Mul(qq, Mul(dy, dy)));
  }

  lemma SplitThree(k: real, u: real, v: real, w: real)
    ensures Mul(k, u + 2.0 * v + w) == Mul(k, u) + 2.0 * Mul(k, v) + Mul(k, w)
  {
  }

  /** Definite moments meet the bound: test the form where it is smallest. */
  lemma DefiniteIsBounded(m: Moments)
    requires Definite(m)
    ensures Bounded(m)
  {
    VariancesNonNegative(m);
    Discriminant(m.varX, m.varY, m.cov);
  }

  lemma VariancesNonNegative(m: Moments)
    requires Definite(m)
    ensures m.varX >= 0.0 && m.varY >= 0.0
  {
    assert PairForm(m.varX, m.varY, m.cov, 1.0, 0.0) == m.varX;
    assert PairForm(m.varX, m.varY, m.cov, 0.0, 1.0) == m.varY;
  }

  /** What the estimators report, squared so that no root is needed: never above 1. */
  lemma CorrelationWithinOne(m: Moments)
    requires Bounded(m) && Mul(m.varX, m.varY) > 0.0
    ensures Mul(m.cov, m.cov) / Mul(m.varX, m.varY) <= 1.0
  {
    var c, d := Mul(m.cov, m.cov), Mul(m.varX, m.varY);
    hide Mul;
    DivAdd(c, d - c, d);
    DivSelf(d);
    QuotientNonNegative(d - c, d);
  }

  /** The moments after a whole series of pairs. */
  function After(a: real, x: seq<real>, y: seq<real>, n: nat): Moments
    requires n <= |x| && n <= |y|
  {
    if n == 0 then ZERO else Update(After(a, x, y, n - 1), a, x[n - 1], y[n - 1])
  }

  lemma {:induction false} SeriesIsBounded(a: real, x: seq<real>, y: seq<real>, n: nat)
    requires n <= |x| && n <= |y| && 0.0 <= a <= 1.0
    ensures Definite(After(a, x, y, n)) && Bounded(After(a, x, y, n))
  {
    hide Update;
    if n == 0 {
      forall p: real, q: real ensures PairForm(0.0, 0.0, 0.0, p, q) >= 0.0 { }
    } else {
      SeriesIsBounded(a, x, y, n - 1);
      UpdateKeepsDefinite(After(a, x, y, n - 1), a, x[n - 1], y[n - 1]);
    }
    DefiniteIsBounded(After(a, x, y, n));
  }

  // ----- the moments in closed form -------------------------------------------

  /** How far each of the first `n` values lies from the decayed mean that includes it. */
  function Deviations(a: real, x: seq<real>, n: nat): (d: seq<real>)
    requires n <= |x|
    ensures |d| == n && forall k :: 0 <= k < n ==> d[k] == x[k] - Decayed(1.0 - a, 0.0, x[..k + 1])
  {
    seq(n, k requires 0 <= k < n => x[k] - Decayed(1.0 - a, 0.0, x[..k + 1]))
  }

  function Products(u: seq<real>, v: seq<real>): (p: seq<real>)
    requires |u| == |v|
    ensures |p| == |u| && forall k :: 0 <= k < |u| ==> p[k] == Mul(u[k], v[k])
  {
    seq(|u|, k requires 0 <= k < |u| => Mul(u[k], v[k]))
  }

  /** The means and second moments a series leaves behind, each input weighed by its age. */
  function Closed(a: real, x: seq<real>, y: seq<real>, n: nat): Moments
    requires n <= |x| && n <= |y|
  {
    var lam, u, v := 1.0 - a, Deviations(a, x, n), Deviations(a, y, n);
    Moments(Decayed(lam, 0.0, x[..n]), Decayed(lam, 0.0, y[..n]),
            Decayed(lam, 0.0, Products(u, u)), Decayed(lam, 0.0, Products(v, v)), Decayed(lam, 0.0, Products(u, v)))
  }

  lemma BlendDecays(a: real, y: seq<real>, x: real)
    ensures Blend(Decayed(1.0 - a, 0.0, y), a, x) == Decayed(1.0 - a, 0.0, y + [x])
  {
    DecayedStep(1.0 - a, 0.0, y, x);
  }

  lemma DeviationsPush(a: real, x: seq<real>, k: nat)
    requires k < |x|
    ensures var next := x[k] - Blend(Decayed(1.0 - a, 0.0, x[..k]), a, x[k]);
            Deviations(a, x, k + 1) == Deviations(a, x, k) + [next]
    ensures Decayed(1.0 - a, 0.0, x[..k + 1]) == Blend(Decayed(1.0 - a, 0.0, x[..k]), a, x[k])
  {
    BlendDecays(a, x[..k], x[k]);
    hide Blend;
    hide Decayed;
    assert x[..k + 1] == x[..k] + [x[k]];
  }

  lemma ProductsPush(a: real, u: seq<real>, v: seq<real>, p: real, q: real)
    requires |u| == |v|
    ensures Decayed(1.0 - a, 0.0, Products(u + [p], v + [q])) == Blend(Decayed(1.0 - a, 0.0, Products(u, v)), a, Mul(p, q))
  {
    BlendDecays(a, Products(u, v), Mul(p, q));
    hide Blend;
    hide Decayed;
    hide Mul;
    assert Products(u + [p], v + [q]) == Products(u, v) + [Mul(p, q)];
  }

  /** The recursively kept moments are those. */
  lemma {:induction false} MomentsAreDecayed(a: real, x: seq<real>, y: seq<real>, n: nat)
    requires n <= |x| && n <= |y|
    ensures After(a, x, y, n) == Closed(a, x, y, n)
  {
    hide Mul;
    hide Blend;
    hide Decayed;
    hide Deviations;
    hide Products;
    if n == 0 {
      assert x[..0] == [] && y[..0] == [];
      NothingDecayed(1.0 - a, 0.0);
    } else {
      var k := n - 1;
      MomentsAreDecayed(a, x, y, k);
      DeviationsPush(a, x, k);
      DeviationsPush(a, y, k);
      var u, v := Deviations(a, x, k), Deviations(a, y, k);
      var p, q := x[k] - Blend(Decayed(1.0 - a, 0.0, x[..k]), a, x[k]), y[k] - Blend(Decayed(1.0 - a, 0.0, y[..k]), a, y[k]);
      ProductsPush(a, u, u, p, p);
      ProductsPush(a, v, v, q, q);
      ProductsPush(a, u, v, p, q);
    }
  }
}
