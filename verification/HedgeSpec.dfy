/**
 The hedging problem: minimise (e + Lh)' S (e + Lh) + sum of 2*theta_i*|h_i| over the
 hedge notionals h, where theta_i is half the cost weight times the unit cost.
 */
module HedgeSpec {
  import opened RealAlgebra
  import opened RealSums
  import opened LinearAlgebra

  /** Instrument `i` as a vector of factor loadings. */
  function Instrument(loadings: Mat, n: nat, m: nat, i: nat): (v: Vec)
    requires |loadings| == n && (forall f :: 0 <= f < n ==> |loadings[f]| == m) && i < m
    ensures |v| == n && forall f :: 0 <= f < n ==> v[f] == loadings[f][i]
  {
    seq(n, f requires 0 <= f < n => loadings[f][i])
  }

  /** A well-shaped problem. */
  datatype Problem = Problem(n: nat, m: nat, e: Vec, s: Mat, loadings: Mat, theta: Vec)

  ghost predicate Shaped(p: Problem) {
    && |p.e| == p.n && Square(p.s, p.n) && |p.theta| == p.m
    && |p.loadings| == p.n && (forall f :: 0 <= f < p.n ==> |p.loadings[f]| == p.m)
    && (forall i :: 0 <= i < p.m ==> p.theta[i] >= 0.0)
  }

  ghost predicate Proper(p: Problem) {
    Shaped(p) && Symmetric(p.s, p.n) && Psd(p.s, p.n)
  }

  function Leg(p: Problem, i: nat): (v: Vec)
    requires Shaped(p) && i < p.m
    ensures |v| == p.n
  {
    Instrument(p.loadings, p.n, p.m, i)
  }

  /** Exposures after the first `k` hedges. */
  function Residual(p: Problem, h: Vec, k: nat): (r: Vec)
    requires Shaped(p) && k <= p.m <= |h|
    ensures |r| == p.n
  {
    if k == 0 then p.e else Plus(Residual(p, h, k - 1), h[k - 1], Leg(p, k - 1))
  }

  /** Every factor's exposure after hedging: what was there plus what the hedges add. */
  lemma {:induction false} ResidualAt(p: Problem, h: Vec, k: nat, f: nat)
    requires Shaped(p) && k <= p.m <= |h| && f < p.n
    ensures Residual(p, h, k)[f] == p.e[f] + Dot(p.loadings[f], h, k)
    decreases k
  {
    hide Mul;
    if k != 0 {
      ResidualAt(p, h, k - 1, f);
      MulCommutes(h[k - 1], p.loadings[f][k - 1]);
    }
  }

  function Risk(p: Problem, h: Vec): real
    requires Shaped(p) && |h| == p.m
  {
    var r := Residual(p, h, p.m);
    Form(p.s, r, r, p.n)
  }

  function Abs(x: real): real { if x >= 0.0 then x else -x }

  function Cost(p: Problem, h: Vec, k: nat): real
    requires Shaped(p) && k <= p.m == |h|
  {
    if k == 0 then 0.0 else Cost(p, h, k - 1) + 2.0 * Mul(p.theta[k - 1], Abs(h[k - 1]))
  }

  function Objective(p: Problem, h: Vec): real
    requires Shaped(p) && |h| == p.m
  {
    Risk(p, h) + Cost(p, h, p.m)
  }

  function Gram(p: Problem, i: nat, j: nat): real
    requires Shaped(p) && i < p.m && j < p.m
  {
    Form(p.s, Leg(p, i), Leg(p, j), p.n)
  }

  function Drift(p: Problem, i: nat): real
    requires Shaped(p) && i < p.m
  {
    Form(p.s, Leg(p, i), p.e, p.n)
  }

  /** Half the gradient of the risk in coordinate `i`. */
  function Gradient(p: Problem, h: Vec, i: nat): real
    requires Shaped(p) && |h| == p.m && i < p.m
  {
    Form(p.s, Leg(p, i), Residual(p, h, p.m), p.n)
  }

  // ----- the coordinate update ----------------------------------------------

  function SoftThreshold(a: real, b: real, theta: real): real
    requires a > 0.0
  {
    if b > theta then -(b - theta) / a else if b < -theta then -(b + theta) / a else 0.0
  }

  /** What coordinate `i` sees of the others: d_i plus the cross terms of the first `k`. */
  function Pull(p: Problem, h: Vec, i: nat, k: nat): real
    requires Shaped(p) && |h| == p.m && i < p.m && k <= p.m
  {
    if k == 0 then Drift(p, i)
    else if k - 1 == i then Pull(p, h, i, k - 1)
    else Pull(p, h, i, k - 1) + Mul(h[k - 1], Gram(p, i, k - 1))
  }

  function Relaxed(p: Problem, h: Vec, i: nat): (h': Vec)
    requires Shaped(p) && |h| == p.m && i < p.m
    ensures |h'| == p.m
  {
    if Gram(p, i, i) <= 0.0 then h
    else h[i := SoftThreshold(Gram(p, i, i), Pull(p, h, i, p.m), p.theta[i])]
  }

  function Sweep(p: Problem, h: Vec, k: nat): (h': Vec)
    requires Shaped(p) && |h| == p.m && k <= p.m
    ensures |h'| == p.m
  {
    if k == 0 then h else Relaxed(p, Sweep(p, h, k - 1), k - 1)
  }

  // ----- the gap between two hedges -----------------------------------------

  /** The exposure difference of two hedges over the first `k` instruments. */
  function Shift(p: Problem, h: Vec, x: Vec, k: nat): (d: Vec)
    requires Shaped(p) && k <= p.m == |h| == |x|
    ensures |d| == p.n
  {
    if k == 0 then seq(p.n, _ => 0.0) else Plus(Shift(p, h, x, k - 1), x[k - 1] - h[k - 1], Leg(p, k - 1))
  }

  /** First-order terms of the first `k` coordinates. */
  function Slope(p: Problem, h: Vec, x: Vec, k: nat): real
    requires Shaped(p) && k <= p.m == |h| == |x|
  {
    if k == 0 then 0.0
    else Slope(p, h, x, k - 1)
         + 2.0 * Mul(x[k - 1] - h[k - 1], Gradient(p, h, k - 1))
         + 2.0 * (Mul(p.theta[k - 1], Abs(x[k - 1])) - Mul(p.theta[k - 1], Abs(h[k - 1])))
  }

  lemma {:induction false} ResidualShift(p: Problem, h: Vec, x: Vec, k: nat)
    requires Shaped(p) && k <= p.m == |h| == |x|
    ensures Residual(p, x, k) == Plus(Residual(p, h, k), 1.0, Shift(p, h, x, k))
    decreases k
  {
    hide Mul;
    if k == 0 {
      forall f | 0 <= f < p.n ensures Mul(1.0, Shift(p, h, x, 0)[f]) == 0.0 { MulUnits(0.0); MulUnits(1.0); }
    } else {
      ResidualShift(p, h, x, k - 1);
      var v := Leg(p, k - 1);
      forall f | 0 <= f < p.n
        ensures Residual(p, x, k)[f] == Plus(Residual(p, h, k), 1.0, Shift(p, h, x, k))[f]
      {
        MulUnits(Shift(p, h, x, k)[f]);
        MulUnits(Shift(p, h, x, k - 1)[f]);
        MulSub(v[f], x[k - 1], h[k - 1]);
      }
    }
  }

  lemma {:induction false} FormZero(s: Mat, z: Vec, y: Vec, n: nat, k: nat)
    requires Square(s, n) && |z| == n && |y| == n && k <= n && forall f :: 0 <= f < n ==> z[f] == 0.0
    ensures Partial(s, z, y, n, k, n) == 0.0
    decreases k
  {
    hide Mul;
    if k != 0 {
      FormZero(s, z, y, n, k - 1);
      MulUnits(Dot(s[k - 1], y, n));
    }
  }

  /** Twice the covariance of the shift with the current residual is the slope of the risk. */
  lemma {:induction false} ShiftForm(p: Problem, h: Vec, x: Vec, k: nat)
    requires Shaped(p) && k <= p.m == |h| == |x|
    ensures Slope(p, h, x, k)
         == 2.0 * Form(p.s, Shift(p, h, x, k), Residual(p, h, p.m), p.n) + Cost(p, x, k) - Cost(p, h, k)
    decreases k
  {
    hide Mul;
    var r := Residual(p, h, p.m);
    if k == 0 {
      FormZero(p.s, Shift(p, h, x, 0), r, p.n, p.n);
    } else {
      ShiftForm(p, h, x, k - 1);
      PartialPlusLeft(p.s, Shift(p, h, x, k - 1), x[k - 1] - h[k - 1], Leg(p, k - 1), r, p.n, p.n);
    }
  }

  /** The exact gap: a square of the shift plus first-order terms. */
  lemma {:induction false} Gap(p: Problem, h: Vec, x: Vec)
    requires Proper(p) && |h| == p.m && |x| == p.m
    ensures var d := Shift(p, h, x, p.m);
            Objective(p, x) == Objective(p, h) + Form(p.s, d, d, p.n) + Slope(p, h, x, p.m)
  {
    hide Mul;
    hide Form;
    var d := Shift(p, h, x, p.m);
    ResidualShift(p, h, x, p.m);
    FormOfSum(p.s, Residual(p, h, p.m), 1.0, d, p.n);
    MulUnits(Form(p.s, d, Residual(p, h, p.m), p.n));
    MulUnits(Form(p.s, d, d, p.n));
    MulUnits(Mul(1.0, Form(p.s, d, d, p.n)));
    ShiftForm(p, h, x, p.m);
  }

  // ----- the gradient as the code computes it --------------------------------

  lemma {:induction false} GradientSteps(p: Problem, h: Vec, i: nat, k: nat)
    requires Shaped(p) && |h| == p.m && i < p.m && k <= p.m
    ensures Form(p.s, Leg(p, i), Residual(p, h, k), p.n)
         == Pull(p, h, i, k) + if i < k then Mul(h[i], Gram(p, i, i)) else 0.0
    decreases k
  {
    hide Mul;
    if k != 0 {
      GradientSteps(p, h, i, k - 1);
      PartialPlusRight(p.s, Leg(p, i), Residual(p, h, k - 1), h[k - 1], Leg(p, k - 1), p.n, p.n);
    }
  }

  lemma {:induction false} PullIgnores(p: Problem, h: Vec, i: nat, t: real, k: nat)
    requires Shaped(p) && |h| == p.m && i < p.m && k <= p.m
    ensures Pull(p, h[i := t], i, k) == Pull(p, h, i, k)
    decreases k
  {
    if k != 0 { PullIgnores(p, h, i, t, k - 1); }
  }

  // ----- one coordinate -----------------------------------------------------

  /** The subgradient condition at `s`: no other value has a smaller first-order part. */
  ghost predicate Stationary(g: real, s: real, theta: real) {
    forall t: real :: FirstOrder(g, s, theta, t) >= 0.0
  }

  function FirstOrder(g: real, s: real, theta: real, t: real): real {
    2.0 * Mul(t - s, g) + 2.0 * (Mul(theta, Abs(t)) - Mul(theta, Abs(s)))
  }

  lemma SoftThresholdStationary(a: real, b: real, theta: real)
    requires a > 0.0 && theta >= 0.0
    ensures var s := SoftThreshold(a, b, theta);
            Stationary(b + Mul(s, a), s, theta)
  {
    var s := SoftThreshold(a, b, theta);
    var g := b + Mul(s, a);
    assert Mul(s, a) == if b > theta then theta - b else if b < -theta then -theta - b else 0.0;
    forall t: real
      ensures FirstOrder(g, s, theta, t) >= 0.0
    {
      if b > theta {
        assert s <= 0.0;
        OneSided(theta, t, s, 1.0);
      } else if b < -theta {
        assert s >= 0.0;
        OneSided(theta, t, s, -1.0);
      } else {
        Between(b, theta, t);
      }
    }
  }

  lemma OneSided(theta: real, t: real, s: real, sign: real)
    requires theta >= 0.0 && ((sign == 1.0 && s <= 0.0) || (sign == -1.0 && s >= 0.0))
    ensures FirstOrder(sign * theta, s, theta, t) >= 0.0
  {
    MulNonNegative(theta, Abs(t) + sign * t);
    assert FirstOrder(sign * theta, s, theta, t) == 2.0 * (theta * (Abs(t) + sign * t));
  }

  lemma Between(b: real, theta: real, t: real)
    requires -theta <= b <= theta
    ensures FirstOrder(b, 0.0, theta, t) >= 0.0
  {
    if t >= 0.0 {
      MulNonNegative(theta + b, t);
      assert FirstOrder(b, 0.0, theta, t) == 2.0 * ((theta + b) * t);
    } else {
      MulNonNegative(theta - b, -t);
      assert FirstOrder(b, 0.0, theta, t) == 2.0 * ((theta - b) * -t);
    }
  }

  // ----- descent and optimality ----------------------------------------------

  lemma {:induction false} SlopeSingle(p: Problem, h: Vec, i: nat, t: real, k: nat)
    requires Shaped(p) && |h| == p.m && i < p.m && k <= p.m
    ensures Slope(p, h, h[i := t], k) == if i < k then FirstOrder(Gradient(p, h, i), h[i], p.theta[i], t) else 0.0
    decreases k
  {
    hide Mul;
    hide Gradient;
    if k != 0 {
      SlopeSingle(p, h, i, t, k - 1);
      if k - 1 != i { MulUnits(Gradient(p, h, k - 1)); }
    }
  }

  /** Every update minimises its coordinate exactly. */
  lemma {:induction false} RelaxedMinimises(p: Problem, h: Vec, i: nat, t: real)
    requires Proper(p) && |h| == p.m && i < p.m && Gram(p, i, i) > 0.0
    ensures Objective(p, Relaxed(p, h, i)) <= Objective(p, Relaxed(p, h, i)[i := t])
  {
    hide Mul;
    hide Form;
    var a, b := Gram(p, i, i), Pull(p, h, i, p.m);
    var h' := Relaxed(p, h, i);
    var x := h'[i := t];
    var d := Shift(p, h', x, p.m);
    Gap(p, h', x);
    assert Form(p.s, d, d, p.n) >= 0.0;
    SlopeSingle(p, h', i, t, p.m);
    GradientSteps(p, h', i, p.m);
    PullIgnores(p, h, i, h'[i], p.m);
    SoftThresholdStationary(a, b, p.theta[i]);
    assert FirstOrder(b + Mul(h'[i], a), h'[i], p.theta[i], t) >= 0.0;
  }

  lemma {:induction false} RelaxedDescends(p: Problem, h: Vec, i: nat)
    requires Proper(p) && |h| == p.m && i < p.m
    ensures Objective(p, Relaxed(p, h, i)) <= Objective(p, h)
  {
    if Gram(p, i, i) > 0.0 {
      RelaxedMinimises(p, h, i, h[i]);
      assert Relaxed(p, h, i)[i := h[i]] == h;
    }
  }

  /** A whole sweep never raises the objective. */
  lemma {:induction false} SweepDescends(p: Problem, h: Vec, k: nat)
    requires Proper(p) && |h| == p.m && k <= p.m
    ensures Objective(p, Sweep(p, h, k)) <= Objective(p, h)
    decreases k
  {
    hide Objective;
    hide Relaxed;
    if k != 0 {
      SweepDescends(p, h, k - 1);
      RelaxedDescends(p, Sweep(p, h, k - 1), k - 1);
    }
  }

  /** Instruments that carry no risk are left at zero. */
  ghost predicate IdleAtZero(p: Problem, h: Vec)
    requires Shaped(p) && |h| == p.m
  {
    forall i :: 0 <= i < p.m && Gram(p, i, i) == 0.0 ==> h[i] == 0.0
  }

  lemma {:induction false} SweepIdle(p: Problem, h: Vec, k: nat)
    requires Shaped(p) && |h| == p.m && k <= p.m && IdleAtZero(p, h)
    ensures IdleAtZero(p, Sweep(p, h, k))
    decreases k
  {
    hide Pull;
    hide Gram;
    if k != 0 { SweepIdle(p, h, k - 1); }
  }

  lemma {:induction false} SweepTouches(p: Problem, h: Vec, k: nat, j: nat)
    requires Shaped(p) && |h| == p.m && k <= p.m && j < p.m
    ensures k <= j ==> Sweep(p, h, k)[j] == h[j]
    ensures j < k ==> Sweep(p, h, k)[j] == Sweep(p, h, j + 1)[j]
    decreases k
  {
    if k != 0 { SweepTouches(p, h, k - 1, j); }
  }

  /** A sweep that ends where it began moved nothing on the way. */
  lemma {:induction false} StillSweep(p: Problem, h: Vec, k: nat)
    requires Shaped(p) && |h| == p.m && k <= p.m && Sweep(p, h, p.m) == h
    ensures Sweep(p, h, k) == h
    decreases k
  {
    forall j | 0 <= j < p.m
      ensures Sweep(p, h, k)[j] == h[j]
    {
      SweepTouches(p, h, k, j);
      SweepTouches(p, h, p.m, j);
    }
  }

  /** At a still point every coordinate meets its subgradient condition. */
  lemma {:induction false} StillIsStationary(p: Problem, h: Vec, i: nat, t: real)
    requires Proper(p) && |h| == p.m && i < p.m && IdleAtZero(p, h) && Sweep(p, h, p.m) == h
    ensures FirstOrder(Gradient(p, h, i), h[i], p.theta[i], t) >= 0.0
  {
    hide Mul;
    hide Form;
    hide Residual;
    var a := Gram(p, i, i);
    assert Form(p.s, Leg(p, i), Leg(p, i), p.n) >= 0.0;
    if a > 0.0 {
      StillSweep(p, h, i);
      StillSweep(p, h, i + 1);
      assert Relaxed(p, h, i) == h;
      GradientSteps(p, h, i, p.m);
      SoftThresholdStationary(a, Pull(p, h, i, p.m), p.theta[i]);
    } else {
      NullDirection(p.s, Leg(p, i), Residual(p, h, p.m), p.n);
      MulUnits(t - h[i]);
      MulUnits(p.theta[i]);
      MulNonNegative(p.theta[i], Abs(t));
    }
  }

  lemma {:induction false} StillSlope(p: Problem, h: Vec, x: Vec, k: nat)
    requires Proper(p) && |h| == p.m == |x| && k <= p.m && IdleAtZero(p, h) && Sweep(p, h, p.m) == h
    ensures Slope(p, h, x, k) >= 0.0
    decreases k
  {
    hide Mul;
    hide Gradient;
    if k != 0 {
      StillSlope(p, h, x, k - 1);
      StillIsStationary(p, h, k - 1, x[k - 1]);
    }
  }

  /** A sweep that changes nothing has found a global minimiser of risk plus cost. */
  lemma {:induction false} StillIsGlobal(p: Problem, h: Vec, x: Vec)
    requires Proper(p) && |h| == p.m == |x| && IdleAtZero(p, h) && Sweep(p, h, p.m) == h
    ensures Objective(p, h) <= Objective(p, x)
  {
    hide Objective;
    Gap(p, h, x);
    StillSlope(p, h, x, p.m);
    var d := Shift(p, h, x, p.m);
    assert Form(p.s, d, d, p.n) >= 0.0;
  }
}
