/** Cyclic coordinate descent with the exact soft-threshold update. */
module HedgeOptimizer {
  import opened RealAlgebra
  import opened RealSums
  import opened LinearAlgebra
  import opened HedgeSpec

  const MAX_ITERATIONS := 20000
  const RELATIVE_TOLERANCE := 0.0000000001

  datatype Outcome = Rejected | NotPsd(instrument: nat) | NotConverged | Hedged(h: Vec)

  /** The shape and sign checks made before any arithmetic. */
  predicate Acceptable(e: Vec, s: Mat, loadings: Mat, cost: Vec, costWeight: real) {
    && costWeight >= 0.0
    && |s| == |e| && |loadings| == |e|
    && (forall f :: 0 <= f < |s| ==> |s[f]| == |e|)
    && (forall f :: 0 <= f < |loadings| ==> |loadings[f]| == |cost|)
    && (forall i :: 0 <= i < |cost| ==> cost[i] >= 0.0)
  }

  function ProblemOf(e: Vec, s: Mat, loadings: Mat, cost: Vec, costWeight: real): Problem {
    Problem(|e|, |cost|, e, s, loadings, seq(|cost|, i requires 0 <= i < |cost| => Mul(costWeight, cost[i]) / 2.0))
  }

  lemma ProblemShaped(e: Vec, s: Mat, loadings: Mat, cost: Vec, costWeight: real)
    requires Acceptable(e, s, loadings, cost, costWeight)
    ensures Shaped(ProblemOf(e, s, loadings, cost, costWeight))
  {
    forall i | 0 <= i < |cost|
      ensures Mul(costWeight, cost[i]) / 2.0 >= 0.0
    {
      MulNonNegative(costWeight, cost[i]);
    }
  }

  /** Unit costs times the cost weight, per unit of absolute hedge. */
  function Charges(cost: Vec, h: Vec, n: nat): real
    requires n <= |cost| && n <= |h|
  {
    if n == 0 then 0.0 else Charges(cost, h, n - 1) + Mul(cost[n - 1], if h[n - 1] < 0.0 then -h[n - 1] else h[n - 1])
  }

  /** The objective's second half is the cost weight times what the hedge costs. */
  lemma {:induction false} CostIsCharged(e: Vec, s: Mat, loadings: Mat, cost: Vec, costWeight: real, h: Vec, n: nat)
    requires Acceptable(e, s, loadings, cost, costWeight) && |h| == |cost| && n <= |h|
    ensures Shaped(ProblemOf(e, s, loadings, cost, costWeight))
    ensures Cost(ProblemOf(e, s, loadings, cost, costWeight), h, n) == Mul(costWeight, Charges(cost, h, n))
  {
    ProblemShaped(e, s, loadings, cost, costWeight);
    hide Mul;
    if n == 0 {
      MulUnits(costWeight);
    } else {
      CostIsCharged(e, s, loadings, cost, costWeight, h, n - 1);
      var size := if h[n - 1] < 0.0 then -h[n - 1] else h[n - 1];
      MulAdd(costWeight, Charges(cost, h, n - 1), Mul(cost[n - 1], size));
      HalfTwice(costWeight, cost[n - 1], size);
    }
  }

  lemma HalfTwice(weight: real, cost: real, size: real)
    ensures 2.0 * Mul(Mul(weight, cost) / 2.0, size) == Mul(weight, Mul(cost, size))
  {
    assert 2.0 * (weight * cost / 2.0 * size) == weight * (cost * size);
  }

  /** sigma_l[f][i]: row `f` of the covariance against instrument `i`. */
  method SigmaL(p: Problem) returns (sl: array2<real>)
    requires Shaped(p)
    ensures fresh(sl) && sl.Length0 == p.n && sl.Length1 == p.m
    ensures forall f, i :: 0 <= f < p.n && 0 <= i < p.m ==> sl[f, i] == Dot(p.s[f], Leg(p, i), p.n)
  {
    sl := new real[p.n, p.m];
    for f := 0 to p.n
      invariant forall g, i :: 0 <= g < f && 0 <= i < p.m ==> sl[g, i] == Dot(p.s[g], Leg(p, i), p.n)
    {
      for i := 0 to p.m
        invariant forall g, j :: 0 <= g < f && 0 <= j < p.m ==> sl[g, j] == Dot(p.s[g], Leg(p, j), p.n)
        invariant forall j :: 0 <= j < i ==> sl[f, j] == Dot(p.s[f], Leg(p, j), p.n)
      {
        var s := 0.0;
        for g := 0 to p.n
          invariant s == Dot(p.s[f], Leg(p, i), g)
        {
          s := s + Mul(p.s[f][g], p.loadings[g][i]);
        }
        sl[f, i] := s;
      }
    }
  }

  method GramMatrix(p: Problem, sl: array2<real>) returns (gram: array2<real>)
    requires Shaped(p) && sl.Length0 == p.n && sl.Length1 == p.m
    requires forall f, i :: 0 <= f < p.n && 0 <= i < p.m ==> sl[f, i] == Dot(p.s[f], Leg(p, i), p.n)
    ensures fresh(gram) && gram.Length0 == p.m && gram.Length1 == p.m
    ensures forall i, j :: 0 <= i < p.m && 0 <= j < p.m ==> gram[i, j] == Gram(p, i, j)
  {
    gram := new real[p.m, p.m];
    for i := 0 to p.m
      invariant forall k, j :: 0 <= k < i && 0 <= j < p.m ==> gram[k, j] == Gram(p, k, j)
    {
      for j := 0 to p.m
        invariant forall k, l :: 0 <= k < i && 0 <= l < p.m ==> gram[k, l] == Gram(p, k, l)
        invariant forall l :: 0 <= l < j ==> gram[i, l] == Gram(p, i, l)
      {
        var s := 0.0;
        for f := 0 to p.n
          invariant s == Partial(p.s, Leg(p, i), Leg(p, j), p.n, f, p.n)
        {
          s := s + Mul(p.loadings[f][i], sl[f, j]);
        }
        gram[i, j] := s;
      }
    }
  }

  method Drifts(p: Problem) returns (d: array<real>)
    requires Shaped(p)
    ensures fresh(d) && d.Length == p.m && forall i :: 0 <= i < p.m ==> d[i] == Drift(p, i)
  {
    d := new real[p.m];
    for i := 0 to p.m
      invariant forall k :: 0 <= k < i ==> d[k] == Drift(p, k)
    {
      var s := 0.0;
      for f := 0 to p.n
        invariant s == Partial(p.s, Leg(p, i), p.e, p.n, f, p.n)
      {
        var row := 0.0;
        for g := 0 to p.n
          invariant row == Dot(p.s[f], p.e, g)
        {
          row := row + Mul(p.s[f][g], p.e[g]);
        }
        s := s + Mul(p.loadings[f][i], row);
      }
      d[i] := s;
    }
  }

  /** Largest move between two hedges, and largest notional (at least 1), over the first `k` instruments. */
  function LargestMove(a: Vec, b: Vec, k: nat): real
    requires k <= |a| && k <= |b|
  {
    if k == 0 then 0.0
    else if Abs(b[k - 1] - a[k - 1]) > LargestMove(a, b, k - 1) then Abs(b[k - 1] - a[k - 1])
    else LargestMove(a, b, k - 1)
  }

  function LargestSize(h: Vec, k: nat): (s: real)
    requires k <= |h|
    ensures s >= 1.0
  {
    if k == 0 then 1.0 else if Abs(h[k - 1]) > LargestSize(h, k - 1) then Abs(h[k - 1]) else LargestSize(h, k - 1)
  }

  lemma {:induction false} MeasuresPrefix(a: Vec, b: Vec, i: nat, v: real, k: nat)
    requires k <= i < |b| && |a| == |b|
    ensures LargestMove(a, b[i := v], k) == LargestMove(a, b, k) && LargestSize(b[i := v], k) == LargestSize(b, k)
  {
    if k != 0 { MeasuresPrefix(a, b, i, v, k - 1); }
  }

  lemma MeasuresStep(start: Vec, before: Vec, i: nat, next: real)
    requires i < |before| == |start| && before[i] == start[i]
    ensures var after, move, size := before[i := next], LargestMove(start, before, i), LargestSize(before, i);
            && LargestMove(start, after, i + 1) == (if Abs(next - before[i]) > move then Abs(next - before[i]) else move)
            && LargestSize(after, i + 1) == (if Abs(next) > size then Abs(next) else size)
  {
    MeasuresPrefix(start, before, i, next, i);
  }

  lemma {:induction false} MoveNonNegative(a: Vec, b: Vec, k: nat)
    requires k <= |a| && k <= |b|
    ensures LargestMove(a, b, k) >= 0.0
  {
    if k != 0 { MoveNonNegative(a, b, k - 1); }
  }

  /** An instrument without risk sits at zero and counts for neither measure. */
  lemma IdleStaysPut(p: Problem, start: Vec, h: Vec, i: nat)
    requires Shaped(p) && i < p.m && |start| == |h| == p.m && IdleAtZero(p, start) && Gram(p, i, i) == 0.0 && h[i] == start[i]
    ensures LargestMove(start, h, i + 1) == LargestMove(start, h, i) && LargestSize(h, i + 1) == LargestSize(h, i)
  {
    MoveNonNegative(start, h, i);
  }

  /** One pass over the coordinates; reports the largest move and the largest notional. */
  method SweepOnce(p: Problem, gram: array2<real>, d: array<real>, h: array<real>)
    returns (maxDelta: real, maxH: real, bad: int)
    requires Shaped(p) && gram.Length0 == p.m && gram.Length1 == p.m && d.Length == p.m && h.Length == p.m && h != d
    requires forall i, j :: 0 <= i < p.m && 0 <= j < p.m ==> gram[i, j] == Gram(p, i, j)
    requires forall i :: 0 <= i < p.m ==> d[i] == Drift(p, i)
    requires IdleAtZero(p, h[..])
    modifies h
    ensures bad >= 0 ==> bad < p.m && Gram(p, bad, bad) < 0.0
    ensures bad < 0 ==>
              && h[..] == Sweep(p, old(h[..]), p.m)
              && maxDelta == LargestMove(old(h[..]), h[..], p.m) && maxH == LargestSize(h[..], p.m)
  {
    hide Gram;
    hide Drift;
    hide IdleAtZero;
    maxDelta, maxH, bad := 0.0, 1.0, -1;
    ghost var start := h[..];
    for i := 0 to p.m
      invariant h[..] == Sweep(p, start, i)
      invariant forall k :: i <= k < p.m ==> h[k] == start[k]
      invariant maxDelta == LargestMove(start, h[..], i) && maxH == LargestSize(h[..], i)
      invariant forall k, j :: 0 <= k < p.m && 0 <= j < p.m ==> gram[k, j] == Gram(p, k, j)
      invariant forall k :: 0 <= k < p.m ==> d[k] == Drift(p, k)
    {
      var a := gram[i, i];
      if a < 0.0 {
        bad := i;
        return;
      }
      ghost var before := h[..];
      if a == 0.0 {
        IdleStaysPut(p, start, before, i);
        continue;
      }
      var b := CrossPull(p, gram, d, h, i);
      var threshold := p.theta[i];
      var next := if b > threshold then -(b - threshold) / a else if b < -threshold then -(b + threshold) / a else 0.0;
      var delta := Abs(next - h[i]);
      if delta > maxDelta { maxDelta := delta; }
      h[i] := next;
      assert h[..] == before[i := next];
      var mag := Abs(next);
      if mag > maxH { maxH := mag; }
      MeasuresStep(start, before, i, next);
    }
  }

  method CrossPull(p: Problem, gram: array2<real>, d: array<real>, h: array<real>, i: nat) returns (b: real)
    requires Shaped(p) && gram.Length0 == p.m && gram.Length1 == p.m && d.Length == p.m && h.Length == p.m && i < p.m
    requires forall i, j :: 0 <= i < p.m && 0 <= j < p.m ==> gram[i, j] == Gram(p, i, j)
    requires forall i :: 0 <= i < p.m ==> d[i] == Drift(p, i)
    ensures b == Pull(p, h[..], i, p.m)
  {
    hide Gram;
    hide Drift;
    b := d[i];
    for j := 0 to p.m
      invariant b == Pull(p, h[..], i, j)
    {
      if j != i { b := b + Mul(h[j], gram[i, j]); }
    }
  }

  function Zeros(m: nat): (z: Vec)
    ensures |z| == m && forall i :: 0 <= i < m ==> z[i] == 0.0
  {
    seq(m, _ => 0.0)
  }

  /** The hedge after `k` full sweeps from no hedge. */
  function Swept(p: Problem, k: nat): (h: Vec)
    requires Shaped(p)
    ensures |h| == p.m
  {
    if k == 0 then Zeros(p.m) else Sweep(p, Swept(p, k - 1), p.m)
  }

  /** The stopping rule: sweep `k` moved nothing by as much as the tolerance, relative to the hedge's size. */
  predicate Settled(p: Problem, k: nat)
    requires Shaped(p) && k > 0
  {
    LargestMove(Swept(p, k - 1), Swept(p, k), p.m) < Mul(RELATIVE_TOLERANCE, LargestSize(Swept(p, k), p.m))
  }

  /** A move smaller than the tolerance in units of `size`. */
  predicate Small(move: real, size: real) { -Mul(RELATIVE_TOLERANCE, size) < move < Mul(RELATIVE_TOLERANCE, size) }

  /** Nothing moved by as much as the tolerance, in units of 1 or of the largest notional if that is larger. */
  lemma SettledMeans(p: Problem, k: nat)
    requires Shaped(p) && k > 0
    ensures Settled(p, k) <==>
              forall i :: 0 <= i < p.m ==>
                var move := Swept(p, k)[i] - Swept(p, k - 1)[i];
                Small(move, 1.0) || exists j :: 0 <= j < p.m && Small(move, Abs(Swept(p, k)[j]))
  {
    hide Swept;
    hide LargestMove;
    hide LargestSize;
    hide Small;
    hide Mul;
    hide Abs;
    SmallMoves(Swept(p, k - 1), Swept(p, k), p.m);
  }

  lemma SmallMoves(a: Vec, b: Vec, n: nat)
    requires |a| == n == |b|
    ensures LargestMove(a, b, n) < Mul(RELATIVE_TOLERANCE, LargestSize(b, n)) <==>
              forall i :: 0 <= i < n ==>
                var move := b[i] - a[i]; Small(move, 1.0) || exists j :: 0 <= j < n && Small(move, Abs(b[j]))
  {
    LargestSizeIs(b, n);
    LargestMoveIs(a, b, n);
    var s, m := LargestSize(b, n), LargestMove(a, b, n);
    hide LargestSize;
    hide LargestMove;
    MulPositive(RELATIVE_TOLERANCE, s);
    forall size: real | size <= s ensures Mul(RELATIVE_TOLERANCE, size) <= Mul(RELATIVE_TOLERANCE, s) {
      MulNonNegative(RELATIVE_TOLERANCE, s - size);
      MulSub(RELATIVE_TOLERANCE, s, size);
    }
    hide Mul;
    if m < Mul(RELATIVE_TOLERANCE, s) {
      forall i | 0 <= i < n ensures var move := b[i] - a[i]; Small(move, 1.0) || exists j :: 0 <= j < n && Small(move, Abs(b[j])) {
        assert Abs(b[i] - a[i]) <= m;
        assert Small(b[i] - a[i], s);
      }
    } else if i :| 0 <= i < n && Abs(b[i] - a[i]) == m {
      assert !Small(b[i] - a[i], 1.0) && forall j :: 0 <= j < n ==> !Small(b[i] - a[i], Abs(b[j]));
    }
  }

  lemma {:induction false} LargestSizeIs(h: Vec, n: nat)
    requires n <= |h|
    ensures var s := LargestSize(h, n);
            && (forall j :: 0 <= j < n ==> Abs(h[j]) <= s) && 1.0 <= s
            && (s == 1.0 || exists j :: 0 <= j < n && Abs(h[j]) == s)
  {
    if n != 0 { LargestSizeIs(h, n - 1); }
  }

  lemma {:induction false} LargestMoveIs(a: Vec, b: Vec, n: nat)
    requires n <= |a| && n <= |b|
    ensures var m := LargestMove(a, b, n);
            && (forall i :: 0 <= i < n ==> Abs(b[i] - a[i]) <= m)
            && (m == 0.0 || exists i :: 0 <= i < n && Abs(b[i] - a[i]) == m)
  {
    if n != 0 { LargestMoveIs(a, b, n - 1); }
  }

  /** Every further sweep descends. */
  lemma {:induction false} SweptDescends(p: Problem, k: nat)
    requires Proper(p)
    ensures Objective(p, Swept(p, k)) <= Objective(p, Zeros(p.m))
  {
    hide Objective;
    hide Sweep;
    if k > 0 {
      SweptDescends(p, k - 1);
      SweepDescends(p, Swept(p, k - 1), p.m);
    }
  }

  lemma {:induction false} SweptIdle(p: Problem, k: nat)
    requires Shaped(p)
    ensures IdleAtZero(p, Swept(p, k))
  {
    hide Sweep;
    hide Gram;
    if k > 0 {
      SweptIdle(p, k - 1);
      SweepIdle(p, Swept(p, k - 1), p.m);
    }
  }

  /**
   The optimizer returns the hedge after the first sweep that settles, and fails to converge only if none of
   the allowed sweeps does.  The result is never worse than no hedge; if one more sweep would not move it, no
   other hedge is better.  `NotPsd` is a true accusation.
   */
  method Hedge(e: Vec, s: Mat, loadings: Mat, cost: Vec, costWeight: real) returns (r: Outcome, ghost sweeps: nat)
    ensures r.Rejected? <==> !Acceptable(e, s, loadings, cost, costWeight)
    ensures !r.Rejected? ==>
              var p := ProblemOf(e, s, loadings, cost, costWeight);
              && Shaped(p)
              && (r.NotPsd? ==> r.instrument < p.m && Gram(p, r.instrument, r.instrument) < 0.0 && !Proper(p))
              && (r.NotConverged? ==> forall k :: 0 < k <= MAX_ITERATIONS ==> !Settled(p, k))
              && (r.Hedged? ==>
                    && 0 < sweeps <= MAX_ITERATIONS && r.h == Swept(p, sweeps) && Settled(p, sweeps)
                    && (forall k :: 0 < k < sweeps ==> !Settled(p, k))
                    && (Proper(p) ==> Objective(p, r.h) <= Objective(p, Zeros(p.m)))
                    && (Proper(p) && Sweep(p, r.h, p.m) == r.h ==>
                          forall x: Vec :: |x| == p.m ==> Objective(p, r.h) <= Objective(p, x)))
  {
    sweeps := 0;
    if !Acceptable(e, s, loadings, cost, costWeight) { return Rejected, sweeps; }
    var p := ProblemOf(e, s, loadings, cost, costWeight);
    ProblemShaped(e, s, loadings, cost, costWeight);
    hide *;
    var sl := SigmaL(p);
    var gram := GramMatrix(p, sl);
    var d := Drifts(p);
    r, sweeps := Descend(p, gram, d);
    if r.NotPsd? && Proper(p) { NeverNegative(p, r.instrument); }
    if r.Hedged? && Proper(p) {
      SweptDescends(p, sweeps);
      SweptIdle(p, sweeps);
      if Sweep(p, r.h, p.m) == r.h {
        forall x: Vec | |x| == p.m ensures Objective(p, r.h) <= Objective(p, x) { StillIsGlobal(p, r.h, x); }
      }
    }
  }

  /** The iteration. */
  method Descend(p: Problem, gram: array2<real>, d: array<real>) returns (r: Outcome, ghost sweeps: nat)
    requires Shaped(p) && gram.Length0 == p.m && gram.Length1 == p.m && d.Length == p.m
    requires forall i, j :: 0 <= i < p.m && 0 <= j < p.m ==> gram[i, j] == Gram(p, i, j)
    requires forall i :: 0 <= i < p.m ==> d[i] == Drift(p, i)
    ensures !r.Rejected?
    ensures r.NotPsd? ==> r.instrument < p.m && Gram(p, r.instrument, r.instrument) < 0.0
    ensures r.NotConverged? ==> forall k :: 0 < k <= MAX_ITERATIONS ==> !Settled(p, k)
    ensures r.Hedged? ==>
              && 0 < sweeps <= MAX_ITERATIONS && r.h == Swept(p, sweeps) && Settled(p, sweeps)
              && forall k :: 0 < k < sweeps ==> !Settled(p, k)
  {
    hide Gram;
    hide Drift;
    hide Sweep;
    hide Shaped;
    hide LargestMove;
    hide LargestSize;
    hide IdleAtZero;
    hide Mul;
    var h := new real[p.m](_ => 0.0);
    var converged, iterations := false, 0;
    assert h[..] == Zeros(p.m);
    while iterations < MAX_ITERATIONS && !converged
      invariant 0 <= iterations <= MAX_ITERATIONS && h[..] == Swept(p, iterations)
      invariant converged ==> iterations > 0 && Settled(p, iterations)
      invariant forall k :: 0 < k < iterations || (k == iterations > 0 && !converged) ==> !Settled(p, k)
      invariant forall i, j :: 0 <= i < p.m && 0 <= j < p.m ==> gram[i, j] == Gram(p, i, j)
      invariant forall i :: 0 <= i < p.m ==> d[i] == Drift(p, i)
      decreases MAX_ITERATIONS - iterations
    {
      SweptIdle(p, iterations);
      var maxDelta, maxH, bad := SweepOnce(p, gram, d, h);
      if bad >= 0 { return NotPsd(bad), iterations; }
      iterations := iterations + 1;
      converged := maxDelta < Mul(RELATIVE_TOLERANCE, maxH);
    }
    return if converged then Hedged(h[..]) else NotConverged, iterations;
  }

  lemma NeverNegative(p: Problem, i: nat)
    requires Proper(p) && i < p.m
    ensures Gram(p, i, i) >= 0.0
  {
    assert Form(p.s, Leg(p, i), Leg(p, i), p.n) >= 0.0;
  }

  /** Post-hedge exposures e + L h. */
  method PostHedge(p: Problem, h: Vec) returns (out: array<real>)
    requires Shaped(p) && |h| == p.m
    ensures out[..] == Residual(p, h, p.m)
  {
    out := new real[p.n];
    for f := 0 to p.n
      invariant forall k :: 0 <= k < f ==> out[k] == Residual(p, h, p.m)[k]
    {
      var s := p.e[f];
      for i := 0 to p.m
        invariant s == Residual(p, h, i)[f]
      {
        s := s + Mul(h[i], p.loadings[f][i]);
      }
      out[f] := s;
    }
  }
}
