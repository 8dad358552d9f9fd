/**
 The basket overlay: each interval's child quantities pass a leg-balance band, a capacity
 allocation and the band again.  No pass ever raises a child, demand ends within the interval
 budget, and the throttled leg cannot carry the projected net past the band.
 */
module PortfolioExecutor {
  import opened Outcomes
  import opened RealAlgebra
  import opened RealSums
  import opened ExtendedReals

  /** `None` is +infinity: the constraint is off. */
  datatype Config = Config(maxNet: Option<real>, maxInterval: Option<real>)

  predicate ConfigOk(c: Config) {
    (c.maxNet.Some? ==> c.maxNet.value > 0.0) && (c.maxInterval.Some? ==> c.maxInterval.value > 0.0)
  }

  // ----- notionals ------------------------------------------------------------

  function Notionals(due: seq<int>, mid: seq<real>): (n: seq<real>)
    requires |due| == |mid|
    ensures |n| == |due| && forall i :: 0 <= i < |due| ==> n[i] == Mul(due[i] as real, mid[i])
  {
    seq(|due|, i requires 0 <= i < |due| => Mul(due[i] as real, mid[i]))
  }

  /** Priced demand of the first `n` symbols on one side. */
  function SideDue(buy: seq<bool>, side: bool, x: seq<real>, n: nat): real
    requires n <= |x| && n <= |buy|
  {
    if n == 0 then 0.0 else SideDue(buy, side, x, n - 1) + if buy[n - 1] == side then x[n - 1] else 0.0
  }

  ghost predicate Reduces(after: seq<int>, before: seq<int>) {
    |after| == |before| && forall i :: 0 <= i < |before| ==> 0 <= after[i] <= before[i]
  }

  ghost predicate Priced(mid: seq<real>) { forall i :: 0 <= i < |mid| ==> mid[i] >= 0.0 }

  lemma {:induction false} ReducedTotal(after: seq<int>, before: seq<int>, mid: seq<real>, n: nat)
    requires Reduces(after, before) && |mid| == |before| && Priced(mid) && n <= |mid|
    ensures 0.0 <= Total(Notionals(after, mid), n) <= Total(Notionals(before, mid), n)
  {
    hide Mul;
    if n != 0 {
      ReducedTotal(after, before, mid, n - 1);
      var a, b, m := after[n - 1] as real, before[n - 1] as real, mid[n - 1];
      MulNonNegative(b - a, m);
      MulNonNegative(a, m);
      MulSub(m, b, a);
    }
  }

  // ----- the leg-balance band -------------------------------------------------

  function Clamp01(x: real): real { if x < 0.0 then 0.0 else if x > 1.0 then 1.0 else x }

  /** One side scaled down, rounding each child down; symbols without a price are left alone. */
  function Scaled(buy: seq<bool>, side: bool, scale: real, due: seq<int>, mid: seq<real>): (r: seq<int>)
    requires |buy| == |due| == |mid|
    ensures |r| == |due|
    ensures forall i :: 0 <= i < |due| ==>
              r[i] == if buy[i] == side && due[i] > 0 && mid[i] > 0.0 then Mul(due[i] as real, scale).Floor else due[i]
  {
    seq(|due|, i requires 0 <= i < |due| =>
      if buy[i] == side && due[i] > 0 && mid[i] > 0.0 then Mul(due[i] as real, scale).Floor else due[i])
  }

  lemma FloorScale(d: int, scale: real)
    requires d >= 0 && 0.0 <= scale <= 1.0
    ensures 0 <= Mul(d as real, scale).Floor <= d
  {
    MulNonNegative(d as real, scale);
    MulNonNegative(d as real, 1.0 - scale);
    MulSub(d as real, 1.0, scale);
    MulUnits(d as real);
  }

  lemma ScaledReduces(buy: seq<bool>, side: bool, scale: real, due: seq<int>, mid: seq<real>)
    requires |buy| == |due| == |mid| && 0.0 <= scale <= 1.0 && forall i :: 0 <= i < |due| ==> due[i] >= 0
    ensures Reduces(Scaled(buy, side, scale, due, mid), due)
  {
    forall i | 0 <= i < |due| ensures 0 <= Mul(due[i] as real, scale).Floor <= due[i] {
      FloorScale(due[i], scale);
    }
  }

  /** Sum of the mids of the symbols a scaling touches. */
  function TouchedMids(buy: seq<bool>, side: bool, due: seq<int>, mid: seq<real>, n: nat): real
    requires n <= |buy| && n <= |due| && n <= |mid|
  {
    if n == 0 then 0.0
    else TouchedMids(buy, side, due, mid, n - 1)
         + if buy[n - 1] == side && due[n - 1] > 0 && mid[n - 1] > 0.0 then mid[n - 1] else 0.0
  }

  lemma FloorLoss(d: int, scale: real, m: real)
    requires m >= 0.0
    ensures var f := Mul(d as real, scale).Floor as real;
            Mul(scale, Mul(d as real, m)) - m <= Mul(f, m) <= Mul(scale, Mul(d as real, m))
  {
    var q, f := Mul(d as real, scale), Mul(d as real, scale).Floor as real;
    hide Mul;
    MulNonNegative(q - f, m);
    MulSub(m, q, f);
    MulNonNegative(1.0 - (q - f), m);
    MulSub(m, 1.0, q - f);
    MulUnits(m);
    MulCommutes(d as real, scale);
    MulAssoc(scale, d as real, m);
  }

  /** A scaled side demands its scaled notional, less at most one unit of each touched symbol. */
  lemma {:induction false} ScaledDue(buy: seq<bool>, side: bool, scale: real, due: seq<int>, mid: seq<real>, n: nat)
    requires |buy| == |due| == |mid| && Priced(mid) && n <= |due|
    requires forall i :: 0 <= i < |due| ==> due[i] >= 0
    ensures var after, before := Notionals(Scaled(buy, side, scale, due, mid), mid), Notionals(due, mid);
            && Mul(scale, SideDue(buy, side, before, n)) - TouchedMids(buy, side, due, mid, n) <= SideDue(buy, side, after, n)
            && SideDue(buy, side, after, n) <= Mul(scale, SideDue(buy, side, before, n))
            && SideDue(buy, !side, after, n) == SideDue(buy, !side, before, n)
  {
    hide Mul;
    if n == 0 {
      MulUnits(scale);
    } else {
      ScaledDue(buy, side, scale, due, mid, n - 1);
      var i := n - 1;
      var before := Notionals(due, mid);
      FloorLoss(due[i], scale, mid[i]);
      MulUnits(scale);
      MulUnits(due[i] as real);
      MulUnits(mid[i]);
      MulAdd(scale, SideDue(buy, side, before, i), before[i]);
    }
  }

  /** The band: the leg that would push the projected net past the limit is scaled to what is allowed. */
  function Band(maxNet: real, net: real, buy: seq<bool>, due: seq<int>, mid: seq<real>): (r: seq<int>)
    requires |buy| == |due| == |mid|
    ensures |r| == |due|
  {
    var x := Notionals(due, mid);
    var buyDue, sellDue := SideDue(buy, true, x, |due|), SideDue(buy, false, x, |due|);
    var projected := net + buyDue - sellDue;
    if projected > maxNet && buyDue > 0.0 then
      Scaled(buy, true, Share(Positive(maxNet - net + sellDue), buyDue), due, mid)
    else if projected < -maxNet && sellDue > 0.0 then
      Scaled(buy, false, Share(Positive(maxNet + net + buyDue), sellDue), due, mid)
    else due
  }

  /** The band from the two sides' demands. */
  lemma BandOf(maxNet: real, net: real, buy: seq<bool>, due: seq<int>, mid: seq<real>, buyDue: real, sellDue: real)
    requires |buy| == |due| == |mid|
    requires buyDue == SideDue(buy, true, Notionals(due, mid), |due|) && sellDue == SideDue(buy, false, Notionals(due, mid), |due|)
    ensures var projected := net + buyDue - sellDue;
            Band(maxNet, net, buy, due, mid) ==
            if projected > maxNet && buyDue > 0.0 then
              Scaled(buy, true, Share(Positive(maxNet - net + sellDue), buyDue), due, mid)
            else if projected < -maxNet && sellDue > 0.0 then
              Scaled(buy, false, Share(Positive(maxNet + net + buyDue), sellDue), due, mid)
            else due
  {
    hide Scaled;
    hide Share;
  }

  function Positive(x: real): real { if x > 0.0 then x else 0.0 }

  /** What the band promises: a throttled leg ends within it or demands nothing, overshooting down by rounding only. */
  ghost predicate InBand(maxNet: real, net: real, buy: seq<bool>, before: seq<int>, after: seq<int>, mid: seq<real>)
    requires |buy| == |before| == |after| == |mid|
  {
    var n, x, y := |before|, Notionals(before, mid), Notionals(after, mid);
    var buy0, sell0, buy1, sell1 := SideDue(buy, true, x, n), SideDue(buy, false, x, n), SideDue(buy, true, y, n), SideDue(buy, false, y, n);
    && (net + buy0 - sell0 > maxNet ==>
          && sell1 == sell0 && (net + buy1 - sell1 <= maxNet || buy1 == 0.0)
          && (buy1 >= Positive(maxNet - net + sell0) - TouchedMids(buy, true, before, mid, n) || buy0 <= 0.0))
    && (net + buy0 - sell0 < -maxNet ==>
          && buy1 == buy0 && (net + buy1 - sell1 >= -maxNet || sell1 == 0.0)
          && (sell1 >= Positive(maxNet + net + buy0) - TouchedMids(buy, false, before, mid, n) || sell0 <= 0.0))
    && (-maxNet <= net + buy0 - sell0 <= maxNet ==> after == before)
  }

  lemma ScaleBack(allowed: real, total: real)
    requires 0.0 <= allowed <= total && total > 0.0
    ensures 0.0 <= allowed / total <= 1.0 && Mul(allowed / total, total) == allowed
  {
    DivAdd(allowed, total - allowed, total);
    DivSelf(total);
    QuotientNonNegative(allowed, total);
    QuotientNonNegative(total - allowed, total);
  }

  lemma {:induction false} SideNonNegative(buy: seq<bool>, side: bool, due: seq<int>, mid: seq<real>, n: nat)
    requires |buy| == |due| == |mid| && Priced(mid) && n <= |due| && forall i :: 0 <= i < |due| ==> due[i] >= 0
    ensures SideDue(buy, side, Notionals(due, mid), n) >= 0.0
  {
    hide Mul;
    if n != 0 {
      SideNonNegative(buy, side, due, mid, n - 1);
      MulNonNegative(due[n - 1] as real, mid[n - 1]);
    }
  }

  lemma BandHolds(maxNet: real, net: real, buy: seq<bool>, due: seq<int>, mid: seq<real>)
    requires |buy| == |due| == |mid| && Priced(mid) && maxNet > 0.0 && forall i :: 0 <= i < |due| ==> due[i] >= 0
    ensures Reduces(Band(maxNet, net, buy, due, mid), due)
    ensures InBand(maxNet, net, buy, due, Band(maxNet, net, buy, due, mid), mid)
  {
    hide Mul;
    hide SideDue;
    hide TouchedMids;
    hide Scaled;
    var n, x := |due|, Notionals(due, mid);
    var buyDue, sellDue := SideDue(buy, true, x, n), SideDue(buy, false, x, n);
    SideNonNegative(buy, true, due, mid, n);
    SideNonNegative(buy, false, due, mid, n);
    var projected := net + buyDue - sellDue;
    if projected > maxNet && buyDue > 0.0 {
      Throttled(buy, true, Positive(maxNet - net + sellDue), due, mid);
    } else if projected < -maxNet && sellDue > 0.0 {
      Throttled(buy, false, Positive(maxNet + net + buyDue), due, mid);
    }
  }

  /** Scaling a side to an allowance below its demand. */
  lemma Throttled(buy: seq<bool>, side: bool, allowed: real, due: seq<int>, mid: seq<real>)
    requires |buy| == |due| == |mid| && Priced(mid) && forall i :: 0 <= i < |due| ==> due[i] >= 0
    requires var total := SideDue(buy, side, Notionals(due, mid), |due|); 0.0 <= allowed <= total && total > 0.0
    ensures var total := SideDue(buy, side, Notionals(due, mid), |due|);
            var after := Scaled(buy, side, Share(allowed, total), due, mid);
            && Reduces(after, due)
            && allowed - TouchedMids(buy, side, due, mid, |due|) <= SideDue(buy, side, Notionals(after, mid), |due|) <= allowed
            && SideDue(buy, side, Notionals(after, mid), |due|) >= 0.0
            && SideDue(buy, !side, Notionals(after, mid), |due|) == SideDue(buy, !side, Notionals(due, mid), |due|)
  {
    hide Mul;
    var total := SideDue(buy, side, Notionals(due, mid), |due|);
    ScaleBack(allowed, total);
    var s := Share(allowed, total);
    ScaledReduces(buy, side, s, due, mid);
    ScaledDue(buy, side, s, due, mid, |due|);
    SideNonNegative(buy, side, Scaled(buy, side, s, due, mid), mid, |due|);
  }

  // ----- the capacity allocation ----------------------------------------------

  function Weights(factor: seq<real>, x: seq<real>): (w: seq<real>)
    requires |factor| == |x|
    ensures |w| == |x| && forall i :: 0 <= i < |x| ==> w[i] == Mul(factor[i], x[i])
  {
    seq(|x|, i requires 0 <= i < |x| => Mul(factor[i], x[i]))
  }

  function Allocation(budget: real, weight: real, sumWeight: real): real
    requires sumWeight != 0.0
  {
    Mul(budget, weight) / sumWeight
  }

  /** One symbol cut to its allocation, rounding down. */
  function CutTo(due: int, notional: real, allocation: real): int {
    if notional > 0.0 && notional > allocation then (Mul(due as real, allocation) / notional).Floor else due
  }

  /** Demand above the budget is allocated by risk weight. */
  function Capped(budget: real, factor: seq<real>, due: seq<int>, mid: seq<real>): (r: seq<int>)
    requires |factor| == |due| == |mid|
    ensures |r| == |due|
  {
    var x := Notionals(due, mid);
    var w := Weights(factor, x);
    var sumWeight := Total(w, |w|);
    if Total(x, |x|) > budget && sumWeight > 0.0 then
      seq(|due|, i requires 0 <= i < |due| => CutTo(due[i], x[i], Allocation(budget, w[i], sumWeight)))
    else due
  }

  lemma CutFits(d: int, m: real, allocation: real)
    requires d >= 0 && m >= 0.0 && allocation >= 0.0
    ensures var cut := CutTo(d, Mul(d as real, m), allocation);
            && 0 <= cut <= d && Mul(cut as real, m) <= allocation + (if Mul(d as real, m) <= 0.0 then Mul(d as real, m) else 0.0)
  {
    var x := Mul(d as real, m);
    if x > 0.0 && x > allocation {
      CutScale(d as real, m, x, allocation);
    } else {
      hide Mul;
      MulNonNegative(d as real, m);
    }
  }

  lemma CutScale(d: real, m: real, x: real, allocation: real)
    requires d >= 0.0 && m >= 0.0 && x == Mul(d, m) && x > allocation >= 0.0
    ensures var q := Mul(d, allocation) / x;
            0.0 <= q <= d && Mul(q.Floor as real, m) <= allocation && q.Floor as real <= d
  {
    hide Mul;
    var q := Mul(d, allocation) / x;
    MulNonNegative(d, allocation);
    QuotientNonNegative(Mul(d, allocation), x);
    MulNonNegative(d, x - allocation);
    MulSub(d, x, allocation);
    QuotientNonNegative(Mul(d, x) - Mul(d, allocation), x);
    DivAdd(Mul(d, allocation), Mul(d, x) - Mul(d, allocation), x);
    MulDiv(d, x);
    MulNonNegative(q - q.Floor as real, m);
    MulSub(m, q, q.Floor as real);
    Rescale(d, allocation, m, x);
  }

  lemma Rescale(d: real, allocation: real, m: real, x: real)
    requires x == Mul(d, m) && x != 0.0
    ensures Mul(Mul(d, allocation) / x, m) == allocation
  {
    assert d * allocation / x * m == d * allocation * m / x;
    assert d * allocation * m == allocation * (d * m);
    MulDiv(allocation, x);
  }

  /** Allocations add up to the budget. */
  lemma {:induction false} AllocationsTotal(budget: real, w: seq<real>, sumWeight: real, alloc: seq<real>, n: nat)
    requires sumWeight != 0.0 && n <= |w| == |alloc|
    requires forall i :: 0 <= i < |w| ==> alloc[i] == Allocation(budget, w[i], sumWeight)
    ensures Total(alloc, n) == Allocation(budget, Total(w, n), sumWeight)
  {
    hide Mul;
    if n == 0 {
      MulUnits(budget);
    } else {
      AllocationsTotal(budget, w, sumWeight, alloc, n - 1);
      MulAdd(budget, Total(w, n - 1), w[n - 1]);
      DivAdd(Mul(budget, Total(w, n - 1)), Mul(budget, w[n - 1]), sumWeight);
    }
  }

  /** Risk factors of at least 1 keep the weights' sum at or above the demand, so the budget always binds. */
  lemma {:induction false} WeightsDominate(factor: seq<real>, x: seq<real>, n: nat)
    requires n <= |x| == |factor| && forall i :: 0 <= i < |x| ==> x[i] >= 0.0 && factor[i] >= 1.0
    ensures Total(Weights(factor, x), n) >= Total(x, n)
    ensures forall i :: 0 <= i < n ==> Weights(factor, x)[i] >= 0.0
  {
    hide Mul;
    if n != 0 {
      WeightsDominate(factor, x, n - 1);
      MulNonNegative(factor[n - 1] - 1.0, x[n - 1]);
      MulSub(x[n - 1], factor[n - 1], 1.0);
      MulUnits(x[n - 1]);
    }
  }

  lemma NotionalsNonNegative(due: seq<int>, mid: seq<real>)
    requires |due| == |mid| && Priced(mid) && forall i :: 0 <= i < |due| ==> due[i] >= 0
    ensures forall i :: 0 <= i < |due| ==> Notionals(due, mid)[i] >= 0.0
  {
    forall i | 0 <= i < |due| ensures Notionals(due, mid)[i] >= 0.0 { MulNonNegative(due[i] as real, mid[i]); }
  }

  /** After the capacity pass no child is raised and the priced demand is within the budget. */
  lemma CapacityHolds(budget: real, factor: seq<real>, due: seq<int>, mid: seq<real>)
    requires |factor| == |due| == |mid| && Priced(mid) && budget > 0.0
    requires forall i :: 0 <= i < |due| ==> due[i] >= 0 && factor[i] >= 1.0
    ensures Reduces(Capped(budget, factor, due, mid), due)
    ensures Total(Notionals(Capped(budget, factor, due, mid), mid), |due|) <= budget
  {
    hide Mul;
    hide CutTo;
    hide Allocation;
    hide Total;
    var n, x := |due|, Notionals(due, mid);
    var w := Weights(factor, x);
    var sumWeight := Total(w, n);
    NotionalsNonNegative(due, mid);
    WeightsDominate(factor, x, n);
    if Total(x, n) > budget {
      var alloc := seq(n, i requires 0 <= i < n => Allocation(budget, w[i], sumWeight));
      var after := Capped(budget, factor, due, mid);
      forall i | 0 <= i < n
        ensures 0 <= after[i] <= due[i] && Notionals(after, mid)[i] <= alloc[i]
      {
        AllocationNonNegative(budget, w[i], sumWeight);
        CutFits(due[i], mid[i], alloc[i]);
      }
      TotalBelow(Notionals(after, mid), alloc, n);
      AllocationsTotal(budget, w, sumWeight, alloc, n);
      AllocateAll(budget, sumWeight);
    }
  }

  /** A cut child is the largest whose notional fits the allocation. */
  lemma CutIsLargest(due: int, m: real, allocation: real)
    requires due > 0 && m > 0.0 && Mul(due as real, m) > allocation >= 0.0
    ensures var q := CutTo(due, Mul(due as real, m), allocation);
            Mul(q as real, m) <= allocation < Mul((q + 1) as real, m)
  {
    MulPositive(due as real, m);
    var x := Mul(due as real, allocation) / Mul(due as real, m);
    Rescale(due as real, allocation, m, Mul(due as real, m));
    assert Mul(x, m) == allocation;
    hide Mul;
    MulNonNegative(x - x.Floor as real, m);
    MulSub(m, x, x.Floor as real);
    MulPositive((x.Floor + 1) as real - x, m);
    MulSub(m, (x.Floor + 1) as real, x);
  }

  /**
   What the capacity pass leaves each symbol when demand exceeds the budget: its allocation is its share of the
   budget by factor-weighted notional; demand within it is untouched, demand beyond it cut to the last whole unit.
   */
  lemma CapacityShares(budget: real, factor: seq<real>, due: seq<int>, mid: seq<real>, i: nat)
    requires |factor| == |due| == |mid| && Priced(mid) && budget > 0.0 && i < |due|
    requires forall k :: 0 <= k < |due| ==> due[k] >= 0 && factor[k] >= 1.0
    requires Total(Notionals(due, mid), |due|) > budget
    ensures var x, after := Notionals(due, mid), Capped(budget, factor, due, mid);
            var sum := Dot(factor, x, |x|);
            && sum > 0.0
            && var share := Mul(budget, Mul(factor[i], x[i])) / sum;
               && (x[i] <= share ==> after[i] == due[i])
               && (x[i] > share ==> Mul(after[i] as real, mid[i]) <= share < Mul((after[i] + 1) as real, mid[i]))
  {
    var x := Notionals(due, mid);
    var w := Weights(factor, x);
    NotionalsNonNegative(due, mid);
    WeightsDominate(factor, x, |x|);
    WeightsAreDot(factor, x, |x|);
    AllocationNonNegative(budget, w[i], Total(w, |w|));
    var share := Allocation(budget, w[i], Total(w, |w|));
    hide Total;
    hide Dot;
    if x[i] > share {
      PositiveParts(due[i], mid[i]);
      hide Mul;
      hide CutTo;
      CutIsLargest(due[i], mid[i], share);
    } else {
      hide Mul;
    }
  }

  lemma PositiveParts(due: int, m: real)
    requires due >= 0 && m >= 0.0 && Mul(due as real, m) > 0.0
    ensures due > 0 && m > 0.0
  {
    MulUnits(m);
    MulUnits(due as real);
  }

  lemma {:induction false} WeightsAreDot(factor: seq<real>, x: seq<real>, n: nat)
    requires n <= |x| == |factor|
    ensures Total(Weights(factor, x), n) == Dot(factor, x, n)
  {
    hide Mul;
    if n != 0 { WeightsAreDot(factor, x, n - 1); }
  }

  // ----- the capacity allocation over any risk factors --------------------------

  /** At least 1, possibly infinite. */
  predicate FactorsOk(factor: seq<Number>) {
    forall i :: 0 <= i < |factor| ==> factor[i].PlusInfinity? || (factor[i].Finite? && factor[i].value >= 1.0)
  }

  predicate AllFinite(factor: seq<Number>) { forall i :: 0 <= i < |factor| ==> factor[i].Finite? }

  function Values(factor: seq<Number>): (f: seq<real>)
    requires AllFinite(factor)
    ensures |f| == |factor| && forall i :: 0 <= i < |factor| ==> factor[i] == Finite(f[i])
  {
    seq(|factor|, i requires 0 <= i < |factor| => factor[i].value)
  }

  function Weighted(factor: seq<Number>, x: seq<real>): (w: seq<Number>)
    requires |factor| == |x|
    ensures |w| == |x| && forall i :: 0 <= i < |x| ==> w[i] == Times(factor[i], x[i])
  {
    seq(|x|, i requires 0 <= i < |x| => Times(factor[i], x[i]))
  }

  function WeightSum(w: seq<Number>, n: nat): Number
    requires n <= |w|
  {
    if n == 0 then ZERO else Plus(WeightSum(w, n - 1), w[n - 1])
  }

  function AllocationOf(budget: real, weight: Number, sumWeight: Number): Number
    requires Less(ZERO, sumWeight)
  {
    Over(Times(weight, budget), sumWeight)
  }

  /** Nothing exceeds an allocation that is not a number. */
  function CutBy(due: int, notional: real, allocation: Number): int {
    if allocation.Finite? then CutTo(due, notional, allocation.value) else due
  }

  function CappedBy(budget: real, factor: seq<Number>, due: seq<int>, mid: seq<real>): (r: seq<int>)
    requires |factor| == |due| == |mid|
    ensures |r| == |due|
  {
    var x := Notionals(due, mid);
    var w := Weighted(factor, x);
    var sumWeight := WeightSum(w, |w|);
    if Total(x, |x|) > budget && Less(ZERO, sumWeight) then
      seq(|due|, i requires 0 <= i < |due| => CutBy(due[i], x[i], AllocationOf(budget, w[i], sumWeight)))
    else due
  }

  lemma {:induction false} FiniteSum(factor: seq<Number>, x: seq<real>, n: nat)
    requires AllFinite(factor) && n <= |factor| == |x|
    ensures WeightSum(Weighted(factor, x), n) == Finite(Total(Weights(Values(factor), x), n))
  {
    hide Mul;
    if n != 0 { FiniteSum(factor, x, n - 1); }
  }

  /** Finite factors: the pass is the one over reals. */
  lemma FiniteCapped(budget: real, factor: seq<Number>, due: seq<int>, mid: seq<real>)
    requires |factor| == |due| == |mid| && AllFinite(factor)
    ensures CappedBy(budget, factor, due, mid) == Capped(budget, Values(factor), due, mid)
  {
    hide Mul;
    hide CutTo;
    hide Total;
    hide WeightSum;
    var x := Notionals(due, mid);
    FiniteSum(factor, x, |x|);
    var w, v := Weighted(factor, x), Weights(Values(factor), x);
    var sumWeight := Total(v, |v|);
    if Total(x, |x|) > budget && sumWeight > 0.0 {
      forall i | 0 <= i < |due|
        ensures CutBy(due[i], x[i], AllocationOf(budget, w[i], Finite(sumWeight)))
             == CutTo(due[i], x[i], Allocation(budget, v[i], sumWeight))
      {
        MulCommutes(budget, v[i]);
      }
    }
  }

  /** The demand of the symbols with an infinite factor. */
  function Spared(factor: seq<Number>, x: seq<real>, n: nat): real
    requires n <= |factor| && n <= |x|
  {
    if n == 0 then 0.0 else Spared(factor, x, n - 1) + if factor[n - 1].PlusInfinity? then x[n - 1] else 0.0
  }

  /** Infinity takes the sum over, or makes it NaN where there is no demand. */
  lemma {:induction false} InfiniteSum(factor: seq<Number>, x: seq<real>, n: nat)
    requires FactorsOk(factor) && n <= |factor| == |x| && forall i :: 0 <= i < |x| ==> x[i] >= 0.0
    ensures var sum := WeightSum(Weighted(factor, x), n);
            if exists i :: 0 <= i < n && factor[i].PlusInfinity? && x[i] == 0.0 then sum == NaN
            else if exists i :: 0 <= i < n && factor[i].PlusInfinity? then sum == PlusInfinity
            else sum.Finite?
  {
    hide Mul;
    if n != 0 { InfiniteSum(factor, x, n - 1); }
  }

  lemma CutToNothing(due: int, notional: real)
    ensures CutTo(due, notional, 0.0) == if notional > 0.0 then 0 else due
  {
  }

  /** What an infinite factor does to each symbol: the infinite ones keep their dues, the others lose theirs. */
  lemma SparedOnly(budget: real, factor: seq<Number>, due: seq<int>, mid: seq<real>, i: nat)
    requires |factor| == |due| == |mid| && FactorsOk(factor) && Priced(mid) && budget > 0.0
    requires forall k :: 0 <= k < |due| ==> due[k] >= 0
    requires var x := Notionals(due, mid);
             Total(x, |x|) > budget && WeightSum(Weighted(factor, x), |x|) == PlusInfinity
    requires i < |due| && (factor[i].PlusInfinity? ==> Notionals(due, mid)[i] > 0.0)
    ensures var after, x := CappedBy(budget, factor, due, mid), Notionals(due, mid);
            && 0 <= after[i] <= due[i]
            && Notionals(after, mid)[i] == if factor[i].PlusInfinity? then x[i] else 0.0
  {
    hide Mul;
    hide Total;
    hide WeightSum;
    hide CutTo;
    NotionalsNonNegative(due, mid);
    CutToNothing(due[i], Notionals(due, mid)[i]);
    MulUnits(mid[i]);
  }

  /** Whether the budget binds although some factors may be infinite. */
  predicate Binding(budget: real, factor: seq<Number>, x: seq<real>)
    requires |factor| == |x|
  {
    || AllFinite(factor)
    || ((forall i :: 0 <= i < |factor| && factor[i].PlusInfinity? ==> x[i] > 0.0) && Spared(factor, x, |x|) <= budget)
  }

  lemma {:induction false} SparedTotal(factor: seq<Number>, x: seq<real>, y: seq<real>, n: nat)
    requires n <= |factor| == |x| == |y|
    requires forall i :: 0 <= i < n ==> y[i] == if factor[i].PlusInfinity? then x[i] else 0.0
    ensures Total(y, n) == Spared(factor, x, n)
  {
    if n != 0 { SparedTotal(factor, x, y, n - 1); }
  }

  /**
   The exact condition for the budget: demand over it is brought within it if and only if every factor
   is finite, or those that are not belong to symbols with demand that together fit the budget.
   */
  lemma CapacityExactly(budget: real, factor: seq<Number>, due: seq<int>, mid: seq<real>)
    requires |factor| == |due| == |mid| && FactorsOk(factor) && Priced(mid) && budget > 0.0
    requires forall i :: 0 <= i < |due| ==> due[i] >= 0
    ensures var x, after := Notionals(due, mid), CappedBy(budget, factor, due, mid);
            && Reduces(after, due)
            && (Total(Notionals(after, mid), |due|) <= budget <==> Total(x, |x|) <= budget || Binding(budget, factor, x))
  {
    hide Mul;
    hide CutBy;
    hide WeightSum;
    var x, after := Notionals(due, mid), CappedBy(budget, factor, due, mid);
    NotionalsNonNegative(due, mid);
    if AllFinite(factor) {
      FiniteCapped(budget, factor, due, mid);
      CapacityHolds(budget, Values(factor), due, mid);
    } else {
      InfiniteSum(factor, x, |x|);
      if Total(x, |x|) > budget && forall i :: 0 <= i < |factor| && factor[i].PlusInfinity? ==> x[i] > 0.0 {
        forall i | 0 <= i < |due|
          ensures 0 <= after[i] <= due[i] && Notionals(after, mid)[i] == if factor[i].PlusInfinity? then x[i] else 0.0
        {
          SparedOnly(budget, factor, due, mid, i);
        }
        SparedTotal(factor, x, Notionals(after, mid), |due|);
      }
    }
  }

  /** The share of a side's demand that an allowance leaves. */
  function Share(allowed: real, demand: real): (s: real)
    requires demand > 0.0
    ensures 0.0 <= s <= 1.0
  {
    Clamp01(allowed / demand)
  }

  lemma AllocationNonNegative(budget: real, weight: real, sumWeight: real)
    requires budget >= 0.0 && weight >= 0.0 && sumWeight > 0.0
    ensures Allocation(budget, weight, sumWeight) >= 0.0
  {
    MulNonNegative(budget, weight);
    QuotientNonNegative(Mul(budget, weight), sumWeight);
  }

  lemma AllocateAll(budget: real, sumWeight: real)
    requires sumWeight != 0.0
    ensures Allocation(budget, sumWeight, sumWeight) == budget
  {
    MulDiv(budget, sumWeight);
  }

  // ----- one interval ---------------------------------------------------------

  function Banded(c: Config, net: real, buy: seq<bool>, due: seq<int>, mid: seq<real>): (r: seq<int>)
    requires |buy| == |due| == |mid|
    ensures |r| == |due|
  {
    if c.maxNet.None? then due else Band(c.maxNet.value, net, buy, due, mid)
  }

  /** Whether the capacity pass cuts anything. */
  predicate OverBudget(c: Config, factor: seq<Number>, due: seq<int>, mid: seq<real>)
    requires |factor| == |due| == |mid|
  {
    && c.maxInterval.Some? && Total(Notionals(due, mid), |due|) > c.maxInterval.value
    && Less(ZERO, WeightSum(Weighted(factor, Notionals(due, mid)), |due|))
  }

  /** The dues the last band pass sees. */
  function SeenLast(c: Config, net: real, buy: seq<bool>, factor: seq<Number>, due: seq<int>, mid: seq<real>): (r: seq<int>)
    requires |buy| == |factor| == |due| == |mid|
    ensures |r| == |due|
  {
    var banded := Banded(c, net, buy, due, mid);
    if OverBudget(c, factor, banded, mid) then CappedBy(c.maxInterval.value, factor, banded, mid) else due
  }

  /** Band, capacity, and the band once more when capacity cut the legs unevenly. */
  function Decided(c: Config, net: real, buy: seq<bool>, factor: seq<Number>, due: seq<int>, mid: seq<real>): (r: seq<int>)
    requires |buy| == |factor| == |due| == |mid|
    ensures |r| == |due|
  {
    var banded := Banded(c, net, buy, due, mid);
    if OverBudget(c, factor, banded, mid) then Banded(c, net, buy, CappedBy(c.maxInterval.value, factor, banded, mid), mid)
    else banded
  }

  lemma ReducesTrans(a: seq<int>, b: seq<int>, c: seq<int>)
    requires Reduces(a, b) && Reduces(b, c)
    ensures Reduces(a, c)
  {
  }

  lemma BandedHolds(c: Config, net: real, buy: seq<bool>, due: seq<int>, mid: seq<real>)
    requires |buy| == |due| == |mid| && Priced(mid) && ConfigOk(c) && forall i :: 0 <= i < |due| ==> due[i] >= 0
    ensures Reduces(Banded(c, net, buy, due, mid), due)
    ensures c.maxNet.Some? ==> InBand(c.maxNet.value, net, buy, due, Banded(c, net, buy, due, mid), mid)
  {
    if c.maxNet.Some? { BandHolds(c.maxNet.value, net, buy, due, mid); }
  }

  /**
   An interval never raises a child; it ends in the band relative to the dues the last pass saw; and where
   the budget binds after the first pass, the priced demand fits it even after the second.
   */
  lemma IntervalIsBounded(c: Config, net: real, buy: seq<bool>, factor: seq<Number>, due: seq<int>, mid: seq<real>)
    requires |buy| == |factor| == |due| == |mid| && Priced(mid) && ConfigOk(c) && FactorsOk(factor)
    requires forall i :: 0 <= i < |due| ==> due[i] >= 0
    ensures var r, seen := Decided(c, net, buy, factor, due, mid), SeenLast(c, net, buy, factor, due, mid);
            && Reduces(r, seen) && Reduces(seen, due)
            && (c.maxNet.Some? ==> InBand(c.maxNet.value, net, buy, seen, r, mid))
            && (c.maxInterval.Some? && Binding(c.maxInterval.value, factor, Notionals(Banded(c, net, buy, due, mid), mid)) ==>
                  Total(Notionals(r, mid), |due|) <= c.maxInterval.value)
  {
    hide Mul;
    hide InBand;
    hide CappedBy;
    hide Band;
    hide Total;
    hide WeightSum;
    hide Binding;
    var banded := Banded(c, net, buy, due, mid);
    BandedHolds(c, net, buy, due, mid);
    if c.maxInterval.Some? {
      CapacityExactly(c.maxInterval.value, factor, banded, mid);
      NotOver(c, factor, banded, mid);
    }
    if OverBudget(c, factor, banded, mid) {
      var cut := CappedBy(c.maxInterval.value, factor, banded, mid);
      ReducesTrans(cut, banded, due);
      BandedHolds(c, net, buy, cut, mid);
      ReducedTotal(Banded(c, net, buy, cut, mid), cut, mid, |due|);
    }
  }

  lemma NotOver(c: Config, factor: seq<Number>, due: seq<int>, mid: seq<real>)
    requires |factor| == |due| == |mid| && c.maxInterval.Some?
    ensures !OverBudget(c, factor, due, mid) ==> CappedBy(c.maxInterval.value, factor, due, mid) == due
  {
    hide Total;
    hide WeightSum;
  }

  // ----- the executor ---------------------------------------------------------

  datatype Market = Market(mid: Number, volatility: Number)

  /** 1 plus the clamped marginal contribution, or 1 plus the volatility regime without a risk picture. */
  function RiskFactors(contribution: Option<seq<real>>, states: seq<Market>, n: nat): (f: seq<Number>)
    requires n <= |states| && (contribution.Some? ==> n <= |contribution.value|)
    ensures |f| == n && FactorsOk(f)
  {
    seq(n, i requires 0 <= i < n =>
      if contribution.Some? then Finite(1.0 + Clamp01(contribution.value[i]))
      else Plus(Finite(1.0), if Less(ZERO, states[i].volatility) then states[i].volatility else ZERO))
  }

  predicate InUnitBand(factor: Number) { factor.Finite? && 1.0 <= factor.value <= 2.0 }

  /** The documented range of [1, 2] holds with a risk picture; without one exactly where no volatility is above 1. */
  lemma FactorRange(contribution: Option<seq<real>>, states: seq<Market>, n: nat, i: nat)
    requires i < n <= |states| && (contribution.Some? ==> n <= |contribution.value|)
    ensures InUnitBand(RiskFactors(contribution, states, n)[i]) <==>
              contribution.Some? || !Less(Finite(1.0), states[i].volatility)
  {
  }

  /** A contribution to risk adds to the factor, up to 1; a hedge earns nothing. Without a risk picture volatility adds in full. */
  lemma FactorIs(contribution: Option<seq<real>>, states: seq<Market>, n: nat, i: nat)
    requires i < n <= |states| && (contribution.Some? ==> n <= |contribution.value|)
    ensures var f := RiskFactors(contribution, states, n)[i];
            && (contribution != None ==>
                  var c := contribution.value[i];
                  f.Finite? && f.value == (if c <= 0.0 then 1.0 else if c >= 1.0 then 2.0 else 1.0 + c))
            && (contribution == None ==>
                  var v := states[i].volatility;
                  f == if v == PlusInfinity then PlusInfinity else if v.Finite? && v.value > 0.0 then Finite(1.0 + v.value) else Finite(1.0))
  {
    hide FactorsOk;
    var f := RiskFactors(contribution, states, n);
    if contribution.Some? {
      assert f[i] == Finite(1.0 + Clamp01(contribution.value[i]));
    } else {
      assert f[i] == Plus(Finite(1.0), if Less(ZERO, states[i].volatility) then states[i].volatility else ZERO);
    }
  }

  /** Two markets outside the documented range; the infinite one is exempt from a budget the other must fit. */
  lemma VolatilityEscapes()
    ensures var mid := [10.0, 10.0];
            var states := [Market(Finite(10.0), PlusInfinity), Market(Finite(10.0), Finite(2.0))];
            var factor := RiskFactors(None, states, 2);
            && factor == [PlusInfinity, Finite(3.0)] && !InUnitBand(factor[0]) && !InUnitBand(factor[1])
            && CappedBy(100.0, factor, [20, 5], mid) == [20, 0]
            && Total(Notionals([20, 0], mid), 2) == 200.0
  {
    var mid := [10.0, 10.0];
    var factor := [PlusInfinity, Finite(3.0)];
    assert Notionals([20, 5], mid) == [200.0, 50.0] && Notionals([20, 0], mid) == [200.0, 0.0];
    var w := Weighted(factor, [200.0, 50.0]);
    assert w == [PlusInfinity, Finite(150.0)];
    assert WeightSum(w, 1) == PlusInfinity && WeightSum(w, 2) == PlusInfinity;
    assert Total([200.0, 50.0], 1) == 200.0 && Total([200.0, 50.0], 2) == 250.0;
    assert Total([200.0, 0.0], 1) == 200.0;
    CutToNothing(5, 50.0);
  }

  /** The best-known prices once the usable mids of a snapshot are in. */
  function Refreshed(mid: seq<real>, states: seq<Market>): (r: seq<real>)
    requires |mid| <= |states|
    ensures |r| == |mid|
    ensures forall i :: 0 <= i < |mid| ==> r[i] == if Usable(states[i].mid) then states[i].mid.value else mid[i]
  {
    seq(|mid|, i requires 0 <= i < |mid| => if Usable(states[i].mid) then states[i].mid.value else mid[i])
  }

  class PortfolioExecutor {
    const config: Config
    const lastMid: array<real>
    /** True for a buy child, in registration order. */
    var sides: seq<bool>
    var buyFilled: real
    var sellFilled: real

    ghost predicate Valid()
      reads this, lastMid
    {
      ConfigOk(config) && |sides| <= lastMid.Length && Priced(lastMid[..])
    }

    ghost function Mids(): seq<real>
      requires Valid()
      reads this, lastMid
    {
      lastMid[..|sides|]
    }

    constructor (maxSymbols: nat, config: Config)
      requires maxSymbols >= 1 && ConfigOk(config)
      ensures Valid() && this.config == config && lastMid.Length == maxSymbols && sides == []
      ensures buyFilled == 0.0 == sellFilled
    {
      this.config := config;
      lastMid := new real[maxSymbols](_ => 0.0);
      sides, buyFilled, sellFilled := [], 0.0, 0.0;
    }

    /** The child's handle, or `None` when the portfolio is full. */
    method Add(buy: bool) returns (handle: Option<nat>)
      requires Valid()
      modifies this`sides
      ensures Valid() && (handle.None? <==> |old(sides)| == lastMid.Length)
      ensures sides == old(sides) + if handle.Some? then [buy] else []
      ensures handle.Some? ==> handle.value == |old(sides)|
    {
      if |sides| == lastMid.Length { return None; }
      handle := Some(|sides|);
      sides := sides + [buy];
    }

    /** Scales one side of the dues in place. */
    method ScaleSide(side: bool, scale: real, dueOut: array<int>)
      requires Valid() && |sides| <= dueOut.Length && 0.0 <= scale <= 1.0
      modifies dueOut
      ensures dueOut[..|sides|] == Scaled(sides, side, scale, old(dueOut[..|sides|]), Mids())
      ensures dueOut[|sides|..] == old(dueOut[|sides|..])
    {
      ghost var before := dueOut[..|sides|];
      for i := 0 to |sides|
        invariant forall k :: 0 <= k < i ==> dueOut[k] == Scaled(sides, side, scale, before, Mids())[k]
        invariant forall k :: i <= k < |sides| ==> dueOut[k] == before[k]
        invariant dueOut[|sides|..] == old(dueOut[|sides|..])
      {
        if sides[i] == side && dueOut[i] > 0 && lastMid[i] > 0.0 {
          dueOut[i] := Mul(dueOut[i] as real, scale).Floor;
        }
      }
    }

    /** Priced demand per side. */
    method MeasureSides(dueOut: array<int>) returns (buyDue: real, sellDue: real)
      requires Valid() && |sides| <= dueOut.Length
      ensures var x := Notionals(dueOut[..|sides|], Mids());
              buyDue == SideDue(sides, true, x, |sides|) && sellDue == SideDue(sides, false, x, |sides|)
    {
      hide Mul;
      buyDue, sellDue := 0.0, 0.0;
      ghost var x := Notionals(dueOut[..|sides|], Mids());
      for i := 0 to |sides|
        invariant buyDue == SideDue(sides, true, x, i) && sellDue == SideDue(sides, false, x, i)
      {
        var notional := Mul(dueOut[i] as real, lastMid[i]);
        if sides[i] { buyDue := buyDue + notional; } else { sellDue := sellDue + notional; }
      }
    }

    /** The leg-balance band over the current dues. */
    method ApplyLegBand(dueOut: array<int>)
      requires Valid() && |sides| <= dueOut.Length
      modifies dueOut
      ensures dueOut[..|sides|] == Banded(config, buyFilled - sellFilled, sides, old(dueOut[..|sides|]), Mids())
      ensures dueOut[|sides|..] == old(dueOut[|sides|..])
    {
      if config.maxNet.None? { return; }
      hide Mul;
      hide Scaled;
      hide SideDue;
      hide Share;
      hide Band;
      var buyDue, sellDue := MeasureSides(dueOut);
      var maxNet, net := config.maxNet.value, buyFilled - sellFilled;
      BandOf(maxNet, net, sides, dueOut[..|sides|], Mids(), buyDue, sellDue);
      var projected := net + buyDue - sellDue;
      if projected > maxNet && buyDue > 0.0 {
        var allowed := Positive(maxNet - net + sellDue);
        ScaleSide(true, Share(allowed, buyDue), dueOut);
      } else if projected < -maxNet && sellDue > 0.0 {
        var allowed := Positive(maxNet + net + buyDue);
        ScaleSide(false, Share(allowed, sellDue), dueOut);
      }
    }

    /** The capacity pass; reports whether the budget was exceeded. */
    method AllocateCapacity(factor: seq<Number>, dueOut: array<int>) returns (cut: bool)
      requires Valid() && |factor| == |sides| <= dueOut.Length && config.maxInterval.Some?
      modifies dueOut
      ensures cut == OverBudget(config, factor, old(dueOut[..|sides|]), Mids())
      ensures dueOut[..|sides|] == CappedBy(config.maxInterval.value, factor, old(dueOut[..|sides|]), Mids())
      ensures dueOut[|sides|..] == old(dueOut[|sides|..])
    {
      hide Mul;
      hide CutTo;
      hide CutBy;
      hide AllocationOf;
      hide Times;
      hide Plus;
      var budget := config.maxInterval.value;
      ghost var due := dueOut[..|sides|];
      ghost var x := Notionals(due, Mids());
      ghost var w := Weighted(factor, x);
      var dueNotional := seq(|sides|, _ => 0.0);
      var total, sumWeight := 0.0, ZERO;
      for i := 0 to |sides|
        invariant |dueNotional| == |sides| && forall k :: 0 <= k < i ==> dueNotional[k] == x[k]
        invariant total == Total(x, i) && sumWeight == WeightSum(w, i)
      {
        var notional := Mul(dueOut[i] as real, lastMid[i]);
        dueNotional := dueNotional[i := notional];
        total := total + notional;
        sumWeight := Plus(sumWeight, Times(factor[i], notional));
      }
      cut := total > budget && Less(ZERO, sumWeight);
      if cut {
        for i := 0 to |sides|
          invariant forall k :: 0 <= k < i ==> dueOut[k] == CutBy(due[k], x[k], AllocationOf(budget, w[k], sumWeight))
          invariant forall k :: i <= k < |sides| ==> dueOut[k] == due[k]
          invariant dueOut[|sides|..] == old(dueOut[|sides|..])
        {
          dueOut[i] := CutBy(dueOut[i], dueNotional[i], AllocationOf(budget, Times(factor[i], dueNotional[i]), sumWeight));
        }
      }
    }

    /** Takes each child's own decision and the usable mids. */
    method Collect(childDue: seq<int>, states: seq<Market>, dueOut: array<int>)
      requires Valid() && |sides| <= |childDue| && |sides| <= |states| && |sides| <= dueOut.Length
      modifies dueOut, lastMid
      ensures Valid() && dueOut[..|sides|] == childDue[..|sides|] && dueOut[|sides|..] == old(dueOut[|sides|..])
      ensures Mids() == Refreshed(old(Mids()), states)
    {
      ghost var before := Mids();
      for i := 0 to |sides|
        invariant Valid()
        invariant forall k :: 0 <= k < i ==> dueOut[k] == childDue[k] && lastMid[k] == Refreshed(before, states)[k]
        invariant forall k :: i <= k < |sides| ==> lastMid[k] == before[k]
        invariant dueOut[|sides|..] == old(dueOut[|sides|..])
      {
        dueOut[i] := childDue[i];
        if Usable(states[i].mid) { lastMid[i] := states[i].mid.value; }
      }
    }

    /** One interval: `false` when the buffers do not cover the symbols, with nothing changed. */
    method Decide(childDue: seq<int>, states: seq<Market>, contribution: Option<seq<real>>, dueOut: array<int>) returns (ok: bool)
      requires Valid() && |sides| <= |childDue| && (contribution.Some? ==> |sides| <= |contribution.value|)
      requires forall i :: 0 <= i < |sides| ==> childDue[i] >= 0
      modifies dueOut, lastMid
      ensures Valid() && ok == (|sides| <= |states| && |sides| <= dueOut.Length)
      ensures !ok ==> dueOut[..] == old(dueOut[..]) && Mids() == old(Mids())
      ensures ok ==>
                var due, factor, net := childDue[..|sides|], RiskFactors(contribution, states, |sides|), buyFilled - sellFilled;
                && Mids() == Refreshed(old(Mids()), states)
                && dueOut[..|sides|] == Decided(config, net, sides, factor, due, Mids())
                && dueOut[|sides|..] == old(dueOut[|sides|..])
                && Reduces(dueOut[..|sides|], due)
                && (config.maxInterval.Some? && AllFinite(factor) ==>
                      Total(Notionals(dueOut[..|sides|], Mids()), |sides|) <= config.maxInterval.value)
    {
      hide Mul;
      hide Decided;
      hide Total;
      if |sides| > |states| || |sides| > dueOut.Length { return false; }
      Collect(childDue, states, dueOut);
      var factor := RiskFactors(contribution, states, |sides|);
      var net := buyFilled - sellFilled;
      IntervalIsBounded(config, net, sides, factor, childDue[..|sides|], Mids());
      ReducesTrans(Decided(config, net, sides, factor, childDue[..|sides|], Mids()),
                   SeenLast(config, net, sides, factor, childDue[..|sides|], Mids()), childDue[..|sides|]);
      Overlay(factor, dueOut);
      return true;
    }

    /** Band, capacity, band: the passes over the collected dues. */
    method Overlay(factor: seq<Number>, dueOut: array<int>)
      requires Valid() && |factor| == |sides| <= dueOut.Length
      requires FactorsOk(factor) && forall i :: 0 <= i < |sides| ==> dueOut[..|sides|][i] >= 0
      modifies dueOut
      ensures dueOut[..|sides|] == Decided(config, buyFilled - sellFilled, sides, factor, old(dueOut[..|sides|]), Mids())
      ensures dueOut[|sides|..] == old(dueOut[|sides|..])
    {
      hide Mul;
      hide Banded;
      hide CappedBy;
      hide OverBudget;
      ghost var due, mid, net := dueOut[..|sides|], Mids(), buyFilled - sellFilled;
      BandedHolds(config, net, sides, due, mid);
      ApplyLegBand(dueOut);
      ghost var banded := dueOut[..|sides|];
      if config.maxInterval.Some? {
        var cut := AllocateCapacity(factor, dueOut);
        NotOver(config, factor, banded, mid);
        if cut { ApplyLegBand(dueOut); }
      } else {
        NoBudget(config, factor, banded, mid);
      }
    }

    lemma NoBudget(c: Config, factor: seq<Number>, due: seq<int>, mid: seq<real>)
      requires |factor| == |due| == |mid| && c.maxInterval.None?
      ensures !OverBudget(c, factor, due, mid)
    {
    }

    /** A fill enters the notional ledger only at a usable price. */
    method OnFill(handle: nat, qty: int, price: Number)
      requires Valid() && handle < |sides|
      modifies this`buyFilled, this`sellFilled, lastMid
      ensures Valid() && sides == old(sides)
      ensures var counts := qty > 0 && Usable(price);
              && Mids() == (if counts then old(Mids())[handle := price.value] else old(Mids()))
              && buyFilled == old(buyFilled) + (if counts && sides[handle] then Mul(qty as real, price.value) else 0.0)
              && sellFilled == old(sellFilled) + (if counts && !sides[handle] then Mul(qty as real, price.value) else 0.0)
    {
      if qty > 0 && Usable(price) {
        lastMid[handle] := price.value;
        var notional := Mul(qty as real, price.value);
        if sides[handle] { buyFilled := buyFilled + notional; } else { sellFilled := sellFilled + notional; }
      }
    }
  }
}
