/**
 The central risk book's router: internal crossing first, then dark venues by ascending
 adverse selection while they undercut lit, then lit.  It conserves the notional exactly and
 no feasible allocation has a lower expected cost.
 */
module CrbRouter {
  import opened Outcomes
  import opened RealAlgebra
  import opened RealSums
  import opened Greedy
  import opened StableSort

  datatype DarkVenue = DarkVenue(name: string, expectedLiquidity: real, fillProbability: real, adverseSelectionBps: real)
  datatype Allocation = Allocation(internal: real, dark: seq<real>, lit: real, expectedCostBps: real)

  predicate VenueOk(v: DarkVenue) {
    v.expectedLiquidity >= 0.0 && 0.0 <= v.fillProbability <= 1.0 && v.adverseSelectionBps >= 0.0
  }

  function Adverse(venues: seq<DarkVenue>): (a: seq<real>)
    ensures |a| == |venues| && forall k :: 0 <= k < |venues| ==> a[k] == venues[k].adverseSelectionBps
  {
    seq(|venues|, k requires 0 <= k < |venues| => venues[k].adverseSelectionBps)
  }

  /** What a dark venue can be expected to fill. */
  function Expected(venues: seq<DarkVenue>): (e: seq<real>)
    ensures |e| == |venues|
    ensures forall k :: 0 <= k < |venues| ==> e[k] == Mul(venues[k].expectedLiquidity, venues[k].fillProbability)
  {
    seq(|venues|, k requires 0 <= k < |venues| => Mul(venues[k].expectedLiquidity, venues[k].fillProbability))
  }

  /** All legs as one ladder: internal, dark venues, lit. */
  function Legs(internal: real, dark: seq<real>, lit: real): (l: seq<real>)
    ensures |l| == |dark| + 2
  {
    [internal] + dark + [lit]
  }

  /** Cost in basis-point units: internal is free, each dark venue costs its adverse selection. */
  function Cost(venues: seq<DarkVenue>, dark: seq<real>, lit: real, litCost: real): real
    requires |dark| == |venues|
  {
    Dot(Adverse(venues), dark, |dark|) + Mul(lit, litCost)
  }

  predicate Feasible(
    venues: seq<DarkVenue>, notional: real, crossable: real, internal: real, dark: seq<real>, lit: real)
  {
    && 0.0 <= internal <= crossable && Within(dark, Expected(venues)) && 0.0 <= lit
    && internal + Total(dark, |dark|) + lit == notional
  }

  lemma {:induction false} LegsTotal(internal: real, dark: seq<real>, lit: real, n: nat)
    requires n <= |dark|
    ensures Total(Legs(internal, dark, lit), n + 1) == internal + Total(dark, n)
    ensures Total(Legs(internal, dark, lit), |dark| + 2) == Total(Legs(internal, dark, lit), |dark| + 1) + lit
  {
    var l := Legs(internal, dark, lit);
    if n == 0 {
      assert Total(l, 1) == Total(l, 0) + l[0];
    } else {
      LegsTotal(internal, dark, lit, n - 1);
      assert l[n] == dark[n - 1];
    }
  }

  lemma {:induction false} LegsValue(
    price: seq<real>, litCost: real, internal: real, dark: seq<real>, lit: real, n: nat)
    requires n <= |dark| == |price|
    ensures Dot(Legs(0.0, price, litCost), Legs(internal, dark, lit), n + 1) == Dot(price, dark, n)
    ensures Dot(Legs(0.0, price, litCost), Legs(internal, dark, lit), |dark| + 2)
         == Dot(Legs(0.0, price, litCost), Legs(internal, dark, lit), |dark| + 1) + Mul(litCost, lit)
  {
    hide Mul;
    var p, l := Legs(0.0, price, litCost), Legs(internal, dark, lit);
    if n == 0 {
      assert Dot(p, l, 1) == Dot(p, l, 0) + Mul(p[0], l[0]);
      MulUnits(l[0]);
    } else {
      LegsValue(price, litCost, internal, dark, lit, n - 1);
      assert p[n] == price[n - 1] && l[n] == dark[n - 1];
    }
  }

  lemma {:induction false} LegsCost(venues: seq<DarkVenue>, litCost: real, internal: real, dark: seq<real>, lit: real)
    requires |dark| == |venues|
    ensures Dot(Legs(0.0, Adverse(venues), litCost), Legs(internal, dark, lit), |dark| + 2) == Cost(venues, dark, lit, litCost)
    ensures Total(Legs(internal, dark, lit), |dark| + 2) == internal + Total(dark, |dark|) + lit
  {
    LegsValue(Adverse(venues), litCost, internal, dark, lit, |dark|);
    LegsTotal(internal, dark, lit, |dark|);
    MulCommutes(lit, litCost);
  }

  /** The allocation fills everything cheaper than some threshold and nothing dearer. */
  predicate Filled(
    venues: seq<DarkVenue>, notional: real, crossable: real, internal: real, dark: seq<real>, lit: real, litCost: real, theta: real)
  {
    Threshold(Legs(0.0, Adverse(venues), litCost), Legs(crossable, Expected(venues), notional), Legs(internal, dark, lit), theta)
  }

  lemma {:induction false} FilledIsCheapest(
    venues: seq<DarkVenue>, notional: real, crossable: real, litCost: real, theta: real,
    internal: real, dark: seq<real>, lit: real, internal': real, dark': seq<real>, lit': real)
    requires Feasible(venues, notional, crossable, internal, dark, lit)
    requires Feasible(venues, notional, crossable, internal', dark', lit')
    requires Filled(venues, notional, crossable, internal, dark, lit, litCost, theta)
    ensures Cost(venues, dark, lit, litCost) <= Cost(venues, dark', lit', litCost)
  {
    hide Mul;
    hide Total;
    hide Dot;
    hide Cost;
    TotalFloor(dark, |dark|);
    TotalFloor(dark', |dark'|);
    LegsCost(venues, litCost, internal, dark, lit);
    LegsCost(venues, litCost, internal', dark', lit');
    ThresholdIsCheapest(Legs(0.0, Adverse(venues), litCost), Legs(crossable, Expected(venues), notional),
                        Legs(internal, dark, lit), Legs(internal', dark', lit'), theta);
  }

  // ----- the dark pass --------------------------------------------------------

  /** After visiting `order[..p]`: those venues are full while anything remains, the others untouched. */
  predicate Pass(venues: seq<DarkVenue>, order: seq<nat>, p: nat, dark: seq<real>, remaining: real, theta: real)
    requires |order| == |venues| && p <= |order| && forall q :: 0 <= q < |order| ==> order[q] < |venues|
  {
    && Within(dark, Expected(venues)) && remaining >= 0.0
    && (forall q :: p <= q < |order| ==> dark[order[q]] == 0.0)
    && (remaining > 0.0 ==> forall q :: 0 <= q < p ==> dark[order[q]] == Expected(venues)[order[q]])
    && (remaining == 0.0 ==> forall q :: 0 <= q < |order| ==>
          (Adverse(venues)[order[q]] < theta ==> dark[order[q]] == Expected(venues)[order[q]])
          && (Adverse(venues)[order[q]] > theta ==> dark[order[q]] == 0.0))
  }

  lemma ExpectedNonNegative(venues: seq<DarkVenue>)
    requires forall k :: 0 <= k < |venues| ==> VenueOk(venues[k])
    ensures forall k :: 0 <= k < |venues| ==> Expected(venues)[k] >= 0.0
  {
    forall k | 0 <= k < |venues| ensures Expected(venues)[k] >= 0.0 {
      MulNonNegative(venues[k].expectedLiquidity, venues[k].fillProbability);
    }
  }

  lemma PassStep(venues: seq<DarkVenue>, order: seq<nat>, p: nat, dark: seq<real>, remaining: real, theta: real, take: real)
    requires Increasing(Adverse(venues), order) && |order| == |venues| && p < |order|
    requires Pass(venues, order, p, dark, remaining, theta) && remaining > 0.0
    requires take == if remaining <= Expected(venues)[order[p]] then remaining else Expected(venues)[order[p]]
    requires take >= 0.0
    ensures Pass(venues, order, p + 1, dark[order[p] := take], remaining - take, Adverse(venues)[order[p]])
    ensures take == 0.0 ==> dark[order[p] := take] == dark
    ensures Total(dark[order[p] := take], |dark|) == Total(dark, |dark|) + take
    ensures Dot(Adverse(venues), dark[order[p] := take], |dark|)
         == Dot(Adverse(venues), dark, |dark|) + Mul(take, venues[order[p]].adverseSelectionBps)
  {
    hide Mul;
    var k := order[p];
    TotalUpdate(dark, k, take, |dark|);
    ValueUpdate(Adverse(venues), dark, k, take, |dark|);
    MulCommutes(take, venues[k].adverseSelectionBps);
    forall q | 0 <= q < |order| ensures q == p || order[q] != k {
      assert q < p ==> Precedes(Adverse(venues), order[q], order[p]);
      assert p < q ==> Precedes(Adverse(venues), order[p], order[q]);
    }
  }

  /** The finished pass leaves a threshold allocation. */
  lemma PassFilled(
    venues: seq<DarkVenue>, order: seq<nat>, p: nat, dark: seq<real>, remaining: real, theta: real,
    notional: real, crossable: real, internal: real, litCost: real) returns (edge: real)
    requires Increasing(Adverse(venues), order) && |order| == |venues| && p <= |order|
    requires forall k :: 0 <= k < |venues| ==> VenueOk(venues[k])
    requires forall k: nat :: k < |venues| ==> k in order
    requires forall q :: 0 <= q < p ==> Adverse(venues)[order[q]] < litCost
    requires Pass(venues, order, p, dark, remaining, theta) && 0.0 <= theta < litCost
    requires remaining > 0.0 && p < |order| ==> Adverse(venues)[order[p]] >= litCost
    requires internal == (if notional <= crossable then notional else crossable)
    requires remaining > 0.0 || theta > 0.0 ==> internal == crossable
    requires remaining <= notional
    ensures Filled(venues, notional, crossable, internal, dark, remaining, litCost, edge)
  {
    hide Mul;
    edge := if remaining > 0.0 then litCost else theta;
    PassEdge(venues, order, p, dark, remaining, theta, litCost);
    FilledFrom(venues, notional, crossable, internal, dark, remaining, litCost, edge);
  }

  /** In the finished pass every venue cheaper than the edge is full and every dearer one empty. */
  lemma PassEdge(venues: seq<DarkVenue>, order: seq<nat>, p: nat, dark: seq<real>, remaining: real, theta: real, litCost: real)
    requires Increasing(Adverse(venues), order) && |order| == |venues| && p <= |order|
    requires forall k: nat :: k < |venues| ==> k in order
    requires forall q :: 0 <= q < p ==> Adverse(venues)[order[q]] < litCost
    requires Pass(venues, order, p, dark, remaining, theta)
    requires remaining > 0.0 && p < |order| ==> Adverse(venues)[order[p]] >= litCost
    ensures var edge := if remaining > 0.0 then litCost else theta;
            forall k :: 0 <= k < |venues| ==>
              && (Adverse(venues)[k] < edge ==> dark[k] == Expected(venues)[k])
              && (Adverse(venues)[k] > edge ==> dark[k] == 0.0)
  {
    hide Mul;
    var edge := if remaining > 0.0 then litCost else theta;
    var price := Adverse(venues);
    forall k | 0 <= k < |venues|
      ensures (price[k] < edge ==> dark[k] == Expected(venues)[k]) && (price[k] > edge ==> dark[k] == 0.0)
    {
      var kk: nat := k;
      assert kk in order;
      var q :| 0 <= q < |order| && order[q] == kk;
      if remaining > 0.0 && p < |order| && q > p { assert Precedes(price, order[p], order[q]); }
    }
  }

  /** Such a pass, with internal crossing before it and lit behind it, is a threshold allocation. */
  lemma FilledFrom(venues: seq<DarkVenue>, notional: real, crossable: real, internal: real, dark: seq<real>, lit: real,
                   litCost: real, edge: real)
    requires |dark| == |venues| && 0.0 <= lit && 0.0 <= edge <= litCost
    requires edge > 0.0 ==> internal == crossable
    requires lit > 0.0 ==> edge == litCost
    requires forall k :: 0 <= k < |venues| ==>
               (Adverse(venues)[k] < edge ==> dark[k] == Expected(venues)[k]) && (Adverse(venues)[k] > edge ==> dark[k] == 0.0)
    ensures Filled(venues, notional, crossable, internal, dark, lit, litCost, edge)
  {
    hide Mul;
    var price, caps, x := Legs(0.0, Adverse(venues), litCost), Legs(crossable, Expected(venues), notional), Legs(internal, dark, lit);
    forall k | 0 <= k < |price|
      ensures (price[k] < edge ==> x[k] == caps[k]) && (price[k] > edge ==> x[k] == 0.0)
    {
      if 0 < k <= |dark| {
        assert price[k] == Adverse(venues)[k - 1] && caps[k] == Expected(venues)[k - 1] && x[k] == dark[k - 1];
      }
    }
  }

  lemma PassStart(venues: seq<DarkVenue>, order: seq<nat>, dark: seq<real>, remaining: real)
    requires |order| == |venues| == |dark| && remaining >= 0.0
    requires forall q :: 0 <= q < |order| ==> order[q] < |venues|
    requires forall k :: 0 <= k < |dark| ==> dark[k] == 0.0
    requires forall k :: 0 <= k < |venues| ==> VenueOk(venues[k])
    ensures Pass(venues, order, 0, dark, remaining, 0.0)
    ensures Total(dark, |dark|) == 0.0 == Dot(Adverse(venues), dark, |dark|)
  {
    ExpectedNonNegative(venues);
    ZeroSums(Adverse(venues), dark, |dark|);
  }

  /** Dark venues in order, while something remains and they undercut lit. */
  method DarkPass(venues: seq<DarkVenue>, litCost: real, start: real)
    returns (dark: seq<real>, remaining: real, cost: real, ghost order: seq<nat>, ghost p: nat, ghost theta: real)
    requires start >= 0.0 && litCost > 0.0 && forall k :: 0 <= k < |venues| ==> VenueOk(venues[k])
    ensures |order| == |venues| == |dark| && p <= |order| && order == Order(Adverse(venues), |venues|)
    ensures Increasing(Adverse(venues), order)
    ensures Pass(venues, order, p, dark, remaining, theta) && 0.0 <= theta < litCost && 0.0 <= remaining <= start
    ensures forall q :: 0 <= q < p ==> Adverse(venues)[order[q]] < litCost
    ensures remaining > 0.0 && p < |order| ==> Adverse(venues)[order[p]] >= litCost
    ensures Total(dark, |dark|) + remaining == start && cost == Dot(Adverse(venues), dark, |dark|)
    ensures start == 0.0 ==> theta == 0.0
  {
    hide Mul;
    hide Pass;
    hide Total;
    hide Dot;
    dark, remaining, cost, theta := seq(|venues|, _ => 0.0), start, 0.0, 0.0;
    var sorted := Order(Adverse(venues), |venues|);
    order := sorted;
    OrderIncreasing(Adverse(venues), |venues|);
    PassStart(venues, order, dark, remaining);
    ExpectedNonNegative(venues);
    var i := 0;
    while i < |sorted|
      invariant 0 <= i <= |order| && |dark| == |venues| && 0.0 <= theta < litCost && 0.0 <= remaining <= start
      invariant Pass(venues, order, i, dark, remaining, theta)
      invariant forall q :: 0 <= q < i ==> Adverse(venues)[order[q]] < litCost
      invariant Total(dark, |dark|) + remaining == start && cost == Dot(Adverse(venues), dark, |dark|)
      invariant start == 0.0 ==> theta == 0.0
    {
      if remaining <= 0.0 { break; }
      var k := sorted[i];
      var v := venues[k];
      if v.adverseSelectionBps >= litCost { break; }
      var liquidity := Mul(v.expectedLiquidity, v.fillProbability);
      var expectedFill := if remaining <= liquidity then remaining else liquidity;
      PassStep(venues, order, i, dark, remaining, theta, expectedFill);
      theta := v.adverseSelectionBps;
      i := i + 1;
      if expectedFill <= 0.0 { continue; }
      dark := dark[k := expectedFill];
      cost := cost + Mul(expectedFill, v.adverseSelectionBps);
      remaining := remaining - expectedFill;
    }
    p := i;
  }

  predicate Accepts(notional: real, crossable: real, halfSpread: real, impact: real) {
    notional > 0.0 && crossable >= 0.0 && halfSpread > 0.0 && impact >= 0.0
  }

  lemma Blend(cost: real, notional: real)
    requires notional > 0.0
    ensures Mul(cost / notional, notional) == cost
  {
  }

  method Route(notional: real, crossable: real, venues: seq<DarkVenue>, halfSpread: real, impact: real)
    returns (result: Result<Allocation, string>)
    requires forall k :: 0 <= k < |venues| ==> VenueOk(venues[k])
    ensures result.Ok? <==> Accepts(notional, crossable, halfSpread, impact)
    ensures result.Ok? ==>
              var a, litCost := result.value, halfSpread + impact;
              && Feasible(venues, notional, crossable, a.internal, a.dark, a.lit)
              && Mul(a.expectedCostBps, notional) == Cost(venues, a.dark, a.lit, litCost)
              && forall internal, dark, lit :: Feasible(venues, notional, crossable, internal, dark, lit) ==>
                   Cost(venues, a.dark, a.lit, litCost) <= Cost(venues, dark, lit, litCost)
    ensures result.Ok? ==> result.value.internal == if notional <= crossable then notional else crossable
  {
    if !(notional > 0.0) { return Err("notional must be positive and finite"); }
    if !(crossable >= 0.0) { return Err("crossable_internal must be >= 0 and finite"); }
    if !(halfSpread > 0.0) { return Err("half_spread_bps must be positive and finite"); }
    if !(impact >= 0.0) { return Err("impact_bps must be >= 0 and finite"); }
    hide Mul;
    hide Pass;
    hide Filled;
    hide Within;
    var litCost := halfSpread + impact;
    var internal := if notional <= crossable then notional else crossable;
    var dark, remaining, costWeighted;
    ghost var order, p, theta;
    dark, remaining, costWeighted, order, p, theta := DarkPass(venues, litCost, notional - internal);
    var lit := remaining;
    costWeighted := costWeighted + Mul(lit, litCost);
    ghost var edge := PassFilled(venues, order, p, dark, remaining, theta, notional, crossable, internal, litCost);
    forall internal', dark', lit' | Feasible(venues, notional, crossable, internal', dark', lit')
      ensures Cost(venues, dark, lit, litCost) <= Cost(venues, dark', lit', litCost)
    {
      FilledIsCheapest(venues, notional, crossable, litCost, edge, internal, dark, lit, internal', dark', lit');
    }
    Blend(costWeighted, notional);
    return Ok(Allocation(internal, dark, lit, costWeighted / notional));
  }
}
