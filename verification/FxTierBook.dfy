/**
 The tiered multi-LP book.  A sweep walks each LP's ladder from its frontier and always
 takes from the LP whose frontier tier is best; the lemmas show this is the cheapest plan.
 A missing price (NaN in the source) is `None`.
 */
module FxTierBook {
  import opened Outcomes
  import opened RealAlgebra
  import opened RealSums
  import opened Greedy

  lemma IndexBound(lp: nat, t: nat, lps: nat, width: nat)
    requires lp < lps && t < width
    ensures lp * width + t < lps * width
  {
    var rest := lps - lp - 1;
    assert rest * width >= 0;
    assert (lp + 1 + rest) * width == lp * width + width + rest * width;
  }

  lemma LastRow(lps: nat, width: nat)
    requires lps > 0
    ensures (lps - 1) * width + width == lps * width && (lps - 1) * width >= 0
  {
  }

  /** A flat side of the book as one row per LP. */
  function Rows(a: seq<real>, lps: nat, width: nat): (rows: seq<seq<real>>)
    requires |a| == lps * width
    ensures Shape(rows, lps, width)
    decreases lps
  {
    if lps == 0 then []
    else
      LastRow(lps, width);
      Rows(a[..(lps - 1) * width], lps - 1, width) + [a[(lps - 1) * width..]]
  }

  lemma {:induction false} RowsAt(a: seq<real>, lps: nat, width: nat, lp: nat, t: nat)
    requires |a| == lps * width && lp < lps && t < width
    ensures 0 <= lp * width + t < |a| && Rows(a, lps, width)[lp][t] == a[lp * width + t]
    decreases lps
  {
    IndexBound(lp, t, lps, width);
    LastRow(lps, width);
    if lp < lps - 1 {
      IndexBound(lp, t, lps - 1, width);
      RowsAt(a[..(lps - 1) * width], lps - 1, width, lp, t);
    }
  }

  /** Dealable = an active tier with strictly positive price and size. */
  function CapRow(px: seq<real>, sz: seq<real>, tiers: int, n: nat): (caps: seq<real>)
    requires n <= |px| && n <= |sz|
    ensures |caps| == n
    ensures forall t :: 0 <= t < n ==> caps[t] == if t < tiers && px[t] > 0.0 && sz[t] > 0.0 then sz[t] else 0.0
  {
    if n == 0 then []
    else CapRow(px, sz, tiers, n - 1)
         + [if n - 1 < tiers && px[n - 1] > 0.0 && sz[n - 1] > 0.0 then sz[n - 1] else 0.0]
  }

  function Caps(px: seq<seq<real>>, sz: seq<seq<real>>, tiers: seq<int>, lps: nat, width: nat): (caps: seq<seq<real>>)
    requires lps <= |px| && lps <= |sz| && lps <= |tiers|
    requires forall lp :: 0 <= lp < lps ==> |px[lp]| == |sz[lp]| == width
    ensures Shape(caps, lps, width)
    ensures forall lp :: 0 <= lp < lps ==> caps[lp] == CapRow(px[lp], sz[lp], tiers[lp], width)
    decreases lps
  {
    if lps == 0 then []
    else Caps(px, sz, tiers, lps - 1, width) + [CapRow(px[lps - 1], sz[lps - 1], tiers[lps - 1], width)]
  }

  /** One tier of the dealable table, read off the flat arrays. */
  lemma CellAt(px: seq<real>, sz: seq<real>, tiers: seq<int>, lps: nat, width: nat, lp: nat, t: nat)
    requires |px| == |sz| == lps * width && |tiers| == lps && lp < lps && t < width && t < tiers[lp]
    ensures var i, prices, sizes := lp * width + t, Rows(px, lps, width), Rows(sz, lps, width);
            && i < lps * width && prices[lp][t] == px[i]
            && Caps(prices, sizes, tiers, lps, width)[lp][t] == if px[i] > 0.0 && sz[i] > 0.0 then sz[i] else 0.0
  {
    RowsAt(px, lps, width, lp, t);
    RowsAt(sz, lps, width, lp, t);
    hide Rows;
    hide CapRow;
  }

  lemma CapsOk(px: seq<seq<real>>, sz: seq<seq<real>>, tiers: seq<int>, lps: nat, width: nat)
    requires Shape(px, lps, width) && Shape(sz, lps, width) && |tiers| == lps
    ensures var caps := Caps(px, sz, tiers, lps, width);
            forall lp, t :: 0 <= lp < lps && 0 <= t < width ==> caps[lp][t] >= 0.0 && (t >= tiers[lp] ==> caps[lp][t] == 0.0)
  {
  }

  /** Nothing taken, every LP at its first dealable tier. */
  lemma LadderStart(caps: seq<real>, x: seq<real>, tiers: int, t: int)
    requires |x| == |caps| && 0 <= t <= tiers <= |caps| && forall k :: 0 <= k < |x| ==> x[k] == 0.0
    requires forall k :: 0 <= k < |caps| ==> caps[k] >= 0.0 && (k >= tiers ==> caps[k] == 0.0)
    requires forall k :: 0 <= k < t ==> caps[k] == 0.0
    requires t < tiers ==> caps[t] > 0.0
    ensures LadderAt(caps, x, tiers, t, if t < tiers then caps[t] else 0.0)
  {
  }

  /** Ladders are quoted best first: no dealable tier is better than an earlier one of the same LP. */
  predicate BestFirst(buy: bool, price: seq<seq<real>>, caps: seq<seq<real>>, lps: nat, width: nat)
    requires Shape(price, lps, width) && Shape(caps, lps, width)
  {
    forall lp, t, u :: 0 <= lp < lps && 0 <= t < u < width && caps[lp][t] > 0.0 && caps[lp][u] > 0.0 ==>
      if buy then price[lp][t] <= price[lp][u] else price[lp][t] >= price[lp][u]
  }

  predicate RowsWithin(x: seq<seq<real>>, caps: seq<seq<real>>) {
    |x| == |caps| && forall lp :: 0 <= lp < |x| ==> Within(x[lp], caps[lp])
  }

  // ----- the state of a sweep -------------------------------------------------

  /** Where one LP's ladder stands: full before its frontier, partly taken there, untouched behind it. */
  predicate LadderAt(caps: seq<real>, x: seq<real>, tiers: int, st: int, rem: real) {
    && |x| == |caps| && 0 <= st <= tiers <= |caps|
    && (forall t :: 0 <= t < st ==> x[t] == caps[t])
    && (forall t :: st < t < |caps| ==> x[t] == 0.0)
    && (forall t :: tiers <= t < |caps| ==> caps[t] == 0.0)
    && (forall t :: 0 <= t < |caps| ==> caps[t] >= 0.0)
    && (if st < tiers then 0.0 < rem <= caps[st] && x[st] == caps[st] - rem
        else st < |caps| ==> x[st] == 0.0)
  }

  predicate Ladders(caps: seq<seq<real>>, x: seq<seq<real>>, tiers: seq<int>, st: seq<int>, rem: seq<real>) {
    && |caps| == |x| == |tiers| == |st| == |rem|
    && forall lp :: 0 <= lp < |caps| ==> LadderAt(caps[lp], x[lp], tiers[lp], st[lp], rem[lp])
  }

  /** What is taken is no dearer than `theta`, what every LP still offers is no cheaper. */
  predicate Split(buy: bool, price: seq<seq<real>>, x: seq<seq<real>>, tiers: seq<int>, st: seq<int>, theta: real)
    requires |price| == |x| == |tiers| == |st| && forall lp :: 0 <= lp < |x| ==> |x[lp]| == |price[lp]|
  {
    && (forall lp, t :: 0 <= lp < |x| && 0 <= t < |x[lp]| && x[lp][t] > 0.0 ==> Key(buy, price[lp][t]) <= theta)
    && (forall lp :: 0 <= lp < |x| && 0 <= st[lp] < tiers[lp] && st[lp] < |price[lp]| ==>
          Key(buy, price[lp][st[lp]]) >= theta)
  }

  lemma {:induction false} SplitIsThreshold(
    buy: bool, price: seq<seq<real>>, caps: seq<seq<real>>, x: seq<seq<real>>, tiers: seq<int>, st: seq<int>, rem: seq<real>,
    theta: real, lps: nat, width: nat, lp: nat)
    requires Shape(price, lps, width) && Shape(caps, lps, width) && Shape(x, lps, width)
    requires BestFirst(buy, price, caps, lps, width) && Ladders(caps, x, tiers, st, rem)
    requires Split(buy, price, x, tiers, st, theta) && lp < lps
    ensures Threshold(Keys(buy, price[lp]), caps[lp], x[lp], theta) && Within(x[lp], caps[lp])
  {
    assert LadderAt(caps[lp], x[lp], tiers[lp], st[lp], rem[lp]);
    forall t | 0 <= t < width
      ensures 0.0 <= x[lp][t] <= caps[lp][t]
      ensures Key(buy, price[lp][t]) < theta ==> x[lp][t] == caps[lp][t]
      ensures Key(buy, price[lp][t]) > theta ==> x[lp][t] == 0.0
    {
      if t >= st[lp] && t < tiers[lp] && caps[lp][t] > 0.0 {
        assert caps[lp][st[lp]] > 0.0;
        assert Key(buy, price[lp][st[lp]]) <= Key(buy, price[lp][t]);
      }
    }
  }

  /** A finished sweep over best-first ladders is the cheapest way to deal its size (the dearest, for a seller). */
  lemma {:induction false} SweepIsOptimal(
    buy: bool, price: seq<seq<real>>, caps: seq<seq<real>>, x: seq<seq<real>>, tiers: seq<int>, st: seq<int>, rem: seq<real>,
    theta: real, lps: nat, width: nat, y: seq<seq<real>>)
    requires Shape(price, lps, width) && Shape(caps, lps, width) && Shape(x, lps, width) && Shape(y, lps, width)
    requires BestFirst(buy, price, caps, lps, width) && Ladders(caps, x, tiers, st, rem)
    requires Split(buy, price, x, tiers, st, theta)
    requires RowsWithin(y, caps) && RowsTotal(y, lps) == RowsTotal(x, lps)
    ensures Key(buy, RowsValue(price, x, lps)) <= Key(buy, RowsValue(price, y, lps))
  {
    forall lp | 0 <= lp < lps
      ensures Threshold(Keys(buy, price[lp]), caps[lp], x[lp], theta) && Within(x[lp], caps[lp])
    {
      SplitIsThreshold(buy, price, caps, x, tiers, st, rem, theta, lps, width, lp);
    }
    RowsGap(buy, price, caps, x, y, theta, lps);
    MulUnits(theta);
  }

  lemma {:induction false} NoCheaperPlan(
    buy: bool, price: seq<seq<real>>, caps: seq<seq<real>>, x: seq<seq<real>>, tiers: seq<int>, st: seq<int>, rem: seq<real>,
    theta: real, lps: nat, width: nat)
    requires Shape(price, lps, width) && Shape(caps, lps, width) && Shape(x, lps, width)
    requires BestFirst(buy, price, caps, lps, width) && Ladders(caps, x, tiers, st, rem)
    requires Split(buy, price, x, tiers, st, theta)
    ensures forall y :: Shape(y, lps, width) && RowsWithin(y, caps) && RowsTotal(y, lps) == RowsTotal(x, lps) ==>
              Key(buy, RowsValue(price, x, lps)) <= Key(buy, RowsValue(price, y, lps))
  {
    forall y | Shape(y, lps, width) && RowsWithin(y, caps) && RowsTotal(y, lps) == RowsTotal(x, lps)
      ensures Key(buy, RowsValue(price, x, lps)) <= Key(buy, RowsValue(price, y, lps))
    {
      SweepIsOptimal(buy, price, caps, x, tiers, st, rem, theta, lps, width, y);
    }
  }

  /** An exhausted book: everything dealable has been taken. */
  lemma {:induction false} Exhausted(
    caps: seq<seq<real>>, x: seq<seq<real>>, tiers: seq<int>, st: seq<int>, rem: seq<real>, lps: nat, width: nat)
    requires Shape(caps, lps, width) && Shape(x, lps, width) && Ladders(caps, x, tiers, st, rem)
    requires forall lp :: 0 <= lp < lps ==> st[lp] == tiers[lp]
    ensures RowsTotal(x, lps) == RowsTotal(caps, lps)
  {
    forall lp | 0 <= lp < lps
      ensures x[lp] == caps[lp]
    {
      assert LadderAt(caps[lp], x[lp], tiers[lp], st[lp], rem[lp]);
    }
    assert x == caps;
  }

  lemma {:induction false} NeverOverCaps(
    caps: seq<seq<real>>, x: seq<seq<real>>, tiers: seq<int>, st: seq<int>, rem: seq<real>, lps: nat, width: nat)
    requires Shape(caps, lps, width) && Shape(x, lps, width) && Ladders(caps, x, tiers, st, rem)
    ensures RowsTotal(x, lps) <= RowsTotal(caps, lps) && RowsWithin(x, caps)
  {
    forall lp, t | 0 <= lp < lps && 0 <= t < |x[lp]|
      ensures 0.0 <= x[lp][t] <= caps[lp][t]
    {
      assert LadderAt(caps[lp], x[lp], tiers[lp], st[lp], rem[lp]);
    }
    RowsBelow(x, caps, lps);
  }

  // ----- one take -------------------------------------------------------------

  /** Part of the frontier tier is taken. */
  lemma LadderPart(caps: seq<real>, x: seq<real>, tiers: int, st: int, rem: real, take: real)
    requires LadderAt(caps, x, tiers, st, rem) && st < tiers && 0.0 <= take < rem
    ensures LadderAt(caps, x[st := x[st] + take], tiers, st, rem - take)
  {
  }

  /** The frontier tier is emptied and the next dealable tier becomes the frontier. */
  lemma LadderNext(caps: seq<real>, x: seq<real>, tiers: int, st: int, rem: real, next: int)
    requires LadderAt(caps, x, tiers, st, rem) && st < next <= tiers
    requires forall t :: st < t < next ==> caps[t] == 0.0
    requires next < tiers ==> caps[next] > 0.0
    ensures LadderAt(caps, x[st := x[st] + rem], tiers, next, if next < tiers then caps[next] else 0.0)
  {
  }

  /** Taking from the best frontier keeps the split at the price just paid. */
  lemma {:induction false} SplitTake(
    buy: bool, price: seq<seq<real>>, caps: seq<seq<real>>, x: seq<seq<real>>, tiers: seq<int>, st: seq<int>, rem: seq<real>,
    theta: real, lps: nat, width: nat, best: nat, v: real, next: int)
    requires Shape(price, lps, width) && Shape(caps, lps, width) && Shape(x, lps, width)
    requires BestFirst(buy, price, caps, lps, width) && Ladders(caps, x, tiers, st, rem)
    requires best < lps && 0 <= st[best] < tiers[best] && st[best] <= next <= tiers[best]
    requires forall lp :: 0 <= lp < lps && st[lp] < tiers[lp] ==>
               Key(buy, price[best][st[best]]) <= Key(buy, price[lp][st[lp]])
    requires st[best] < next < tiers[best] ==> caps[best][next] > 0.0
    requires Split(buy, price, x, tiers, st, theta)
             || (forall lp, t :: 0 <= lp < lps && 0 <= t < width ==> x[lp][t] == 0.0)
    ensures Split(buy, price, x[best := x[best][st[best] := v]], tiers, st[best := next], Key(buy, price[best][st[best]]))
  {
    assert LadderAt(caps[best], x[best], tiers[best], st[best], rem[best]);
    var theta' := Key(buy, price[best][st[best]]);
    var x' := x[best := x[best][st[best] := v]];
    forall lp, t | 0 <= lp < lps && 0 <= t < width && x'[lp][t] > 0.0
      ensures Key(buy, price[lp][t]) <= theta'
    {
      if lp != best || t != st[best] {
        assert x[lp][t] > 0.0;
      }
    }
    var st' := st[best := next];
    forall lp | 0 <= lp < lps && 0 <= st'[lp] < tiers[lp] && st'[lp] < width
      ensures Key(buy, price[lp][st'[lp]]) >= theta'
    {
      if lp == best && next > st[best] {
        assert caps[best][st[best]] > 0.0;
      }
    }
  }

  /** What holds between two rounds: totals, the state of every ladder, and the price split. */
  ghost predicate Swept(
    buy: bool, price: seq<seq<real>>, caps: seq<seq<real>>, x: seq<seq<real>>, tiers: seq<int>, st: seq<int>, rem: seq<real>,
    theta: real, lps: nat, width: nat, taken: real, notional: real)
  {
    && Shape(price, lps, width) && Shape(caps, lps, width) && Shape(x, lps, width)
    && Ladders(caps, x, tiers, st, rem)
    && RowsTotal(x, lps) == taken && RowsValue(price, x, lps) == notional
    && (BestFirst(buy, price, caps, lps, width) ==>
          Split(buy, price, x, tiers, st, theta)
          || forall lp, t :: 0 <= lp < lps && 0 <= t < width ==> x[lp][t] == 0.0)
  }

  lemma {:induction false} SweptStart(
    buy: bool, price: seq<seq<real>>, caps: seq<seq<real>>, x: seq<seq<real>>, tiers: seq<int>, st: seq<int>, rem: seq<real>,
    theta: real, lps: nat, width: nat)
    requires Shape(price, lps, width) && Shape(caps, lps, width) && Shape(x, lps, width)
    requires Ladders(caps, x, tiers, st, rem)
    requires forall lp, t :: 0 <= lp < lps && 0 <= t < width ==> x[lp][t] == 0.0
    ensures Swept(buy, price, caps, x, tiers, st, rem, theta, lps, width, 0.0, 0.0)
  {
    RowsZero(price, x, lps);
  }

  lemma {:induction false} SweptStep(
    buy: bool, price: seq<seq<real>>, caps: seq<seq<real>>, x: seq<seq<real>>, tiers: seq<int>, st: seq<int>, rem: seq<real>,
    theta: real, lps: nat, width: nat, taken: real, notional: real, best: nat, take: real, next: int, rem': seq<real>)
    requires Swept(buy, price, caps, x, tiers, st, rem, theta, lps, width, taken, notional)
    requires best < lps && 0 <= st[best] < tiers[best] && st[best] < width && st[best] <= next <= tiers[best]
    requires st[best] < next < tiers[best] ==> next < width && caps[best][next] > 0.0
    requires forall lp :: 0 <= lp < lps && st[lp] < tiers[lp] ==>
               0 <= st[lp] < width && Key(buy, price[best][st[best]]) <= Key(buy, price[lp][st[lp]])
    requires Ladders(caps, x[best := x[best][st[best] := x[best][st[best]] + take]], tiers, st[best := next], rem')
    ensures Swept(buy, price, caps, x[best := x[best][st[best] := x[best][st[best]] + take]], tiers, st[best := next], rem',
                  Key(buy, price[best][st[best]]), lps, width, taken + take, notional + Mul(take, price[best][st[best]]))
  {
    var v := x[best][st[best]] + take;
    RowsUpdate(price, x, best, st[best], v, lps);
    MulCommutes(take, price[best][st[best]]);
    if BestFirst(buy, price, caps, lps, width) {
      SplitTake(buy, price, caps, x, tiers, st, rem, theta, lps, width, best, v, next);
    }
  }

  lemma {:induction false} SweptDone(
    buy: bool, price: seq<seq<real>>, caps: seq<seq<real>>, x: seq<seq<real>>, tiers: seq<int>, st: seq<int>, rem: seq<real>,
    theta: real, lps: nat, width: nat, taken: real, notional: real)
    requires Swept(buy, price, caps, x, tiers, st, rem, theta, lps, width, taken, notional) && taken > 0.0
    ensures RowsWithin(x, caps) && RowsTotal(x, lps) == taken <= RowsTotal(caps, lps)
    ensures RowsValue(price, x, lps) == notional
    ensures BestFirst(buy, price, caps, lps, width) ==>
              forall y :: Shape(y, lps, width) && RowsWithin(y, caps) && RowsTotal(y, lps) == taken ==>
                Key(buy, notional) <= Key(buy, RowsValue(price, y, lps))
  {
    NeverOverCaps(caps, x, tiers, st, rem, lps, width);
    if BestFirst(buy, price, caps, lps, width) {
      if forall lp, t :: 0 <= lp < lps && 0 <= t < width ==> x[lp][t] == 0.0 {
        RowsZero(price, x, lps);
        assert false;
      }
      NoCheaperPlan(buy, price, caps, x, tiers, st, rem, theta, lps, width);
    }
  }

  // ----- the sweep over one side ----------------------------------------------

  /** The first dealable tier at or after `from`; the tier count when there is none. */
  method Frontier(px: seq<real>, sz: seq<real>, lps: nat, width: nat, lp: nat, n: int, from: int) returns (t: int)
    requires |px| == |sz| == lps * width && lp < lps && 0 <= from <= n <= width
    ensures from <= t <= n
    ensures forall k :: from <= k < t ==> CapRow(Rows(px, lps, width)[lp], Rows(sz, lps, width)[lp], n, width)[k] == 0.0
    ensures t < n ==> 0 <= lp * width + t < lps * width
    ensures t < n ==> CapRow(Rows(px, lps, width)[lp], Rows(sz, lps, width)[lp], n, width)[t] == sz[lp * width + t] > 0.0
  {
    hide Rows;
    hide CapRow;
    t := from;
    while t < n
      invariant from <= t <= n
      invariant forall k :: from <= k < t ==> CapRow(Rows(px, lps, width)[lp], Rows(sz, lps, width)[lp], n, width)[k] == 0.0
    {
      RowsAt(px, lps, width, lp, t);
      RowsAt(sz, lps, width, lp, t);
      var i := lp * width + t;
      if px[i] > 0.0 && sz[i] > 0.0 { return; }
      t := t + 1;
    }
  }

  /** The LP with the best frontier tier, the first of equals; -1 when every ladder is exhausted. */
  method SelectBest(px: seq<real>, tiers: seq<int>, lps: nat, width: nat, buy: bool, st: seq<int>)
    returns (best: int, bestPx: real)
    requires |px| == lps * width && |tiers| == |st| == lps
    requires forall lp :: 0 <= lp < lps ==> 0 <= st[lp] <= tiers[lp] <= width
    ensures best == -1 <==> forall lp :: 0 <= lp < lps ==> st[lp] == tiers[lp]
    ensures best != -1 ==> 0 <= best < lps && st[best] < tiers[best] && bestPx == Rows(px, lps, width)[best][st[best]]
    ensures best != -1 ==> forall lp :: 0 <= lp < lps && st[lp] < tiers[lp] ==>
              Key(buy, bestPx) <= Key(buy, Rows(px, lps, width)[lp][st[lp]])
  {
    hide Rows;
    ghost var prices := Rows(px, lps, width);
    best, bestPx := -1, 0.0;
    for lp := 0 to lps
      invariant best == -1 <==> forall k :: 0 <= k < lp ==> st[k] == tiers[k]
      invariant best != -1 ==> 0 <= best < lp && st[best] < tiers[best] && bestPx == prices[best][st[best]]
      invariant best != -1 ==> forall k :: 0 <= k < lp && st[k] < tiers[k] ==>
                  Key(buy, bestPx) <= Key(buy, prices[k][st[k]])
    {
      if st[lp] >= tiers[lp] { continue; }
      RowsAt(px, lps, width, lp, st[lp]);
      var p := px[lp * width + st[lp]];
      if best == -1 || (if buy then p < bestPx else p > bestPx) {
        best, bestPx := lp, p;
      }
    }
  }

  function NoPlan(lps: nat, width: nat): (x: seq<seq<real>>)
    ensures Shape(x, lps, width) && forall lp, t :: 0 <= lp < lps && 0 <= t < width ==> x[lp][t] == 0.0
  {
    seq(lps, _ => seq(width, _ => 0.0))
  }

  /** Puts every LP at its first dealable tier. */
  method StartLadders(px: seq<real>, sz: seq<real>, tiers: seq<int>, lps: nat, width: nat, ghost caps: seq<seq<real>>)
    returns (st: seq<int>, rem: seq<real>, ghost x: seq<seq<real>>)
    requires |px| == |sz| == lps * width && |tiers| == lps
    requires forall lp :: 0 <= lp < lps ==> 0 <= tiers[lp] <= width
    requires caps == Caps(Rows(px, lps, width), Rows(sz, lps, width), tiers, lps, width)
    ensures Shape(x, lps, width) && Ladders(caps, x, tiers, st, rem)
    ensures forall lp, t :: 0 <= lp < lps && 0 <= t < width ==> x[lp][t] == 0.0
  {
    st, rem := [], [];
    x := NoPlan(lps, width);
    CapsOk(Rows(px, lps, width), Rows(sz, lps, width), tiers, lps, width);
    hide NoPlan;
    hide Caps;
    hide Rows;
    hide CapRow;
    hide LadderAt;
    for lp := 0 to lps
      invariant |st| == |rem| == lp
      invariant forall k :: 0 <= k < lp ==> LadderAt(caps[k], x[k], tiers[k], st[k], rem[k])
    {
      var t, left := StartLadder(px, sz, tiers[lp], lps, width, lp, caps[lp], x[lp]);
      st := st + [t];
      rem := rem + [left];
    }
  }

  method StartLadder(px: seq<real>, sz: seq<real>, n: int, lps: nat, width: nat, lp: nat, ghost caps: seq<real>, ghost x: seq<real>)
    returns (t: int, left: real)
    requires |px| == |sz| == lps * width && lp < lps && 0 <= n <= width
    requires caps == CapRow(Rows(px, lps, width)[lp], Rows(sz, lps, width)[lp], n, width)
    requires forall k :: 0 <= k < width ==> caps[k] >= 0.0 && (k >= n ==> caps[k] == 0.0)
    requires |x| == width && forall k :: 0 <= k < width ==> x[k] == 0.0
    ensures LadderAt(caps, x, n, t, left)
  {
    hide Rows;
    hide CapRow;
    hide LadderAt;
    t := Frontier(px, sz, lps, width, lp, n, 0);
    LadderStart(caps, x, n, t);
    left := if t < n then sz[lp * width + t] else 0.0;
  }

  ghost function Left(st: seq<int>, tiers: seq<int>, n: nat): int
    requires n <= |st| && n <= |tiers|
  {
    if n == 0 then 0 else Left(st, tiers, n - 1) + tiers[n - 1] - st[n - 1]
  }

  lemma {:induction false} LeftShrinks(st: seq<int>, next: int, tiers: seq<int>, best: nat, n: nat)
    requires |st| == |tiers| && n <= |st| && best < |st|
    ensures Left(st[best := next], tiers, n) == Left(st, tiers, n) - if best < n then next - st[best] else 0
  {
    if n != 0 { LeftShrinks(st, next, tiers, best, n - 1); }
  }

  lemma {:induction false} LeftNonNegative(st: seq<int>, tiers: seq<int>, n: nat)
    requires |st| == |tiers| && n <= |st| && forall lp :: 0 <= lp < |st| ==> st[lp] <= tiers[lp]
    ensures Left(st, tiers, n) >= 0
  {
    if n != 0 { LeftNonNegative(st, tiers, n - 1); }
  }

  lemma LaddersInRange(caps: seq<seq<real>>, x: seq<seq<real>>, tiers: seq<int>, st: seq<int>, rem: seq<real>)
    requires Ladders(caps, x, tiers, st, rem)
    ensures forall lp :: 0 <= lp < |st| ==> 0 <= st[lp] <= tiers[lp] <= |caps[lp]| && |x[lp]| == |caps[lp]|
    ensures forall lp :: 0 <= lp < |st| && st[lp] < tiers[lp] ==> rem[lp] > 0.0
  {
    forall lp | 0 <= lp < |st|
      ensures 0 <= st[lp] <= tiers[lp] <= |caps[lp]| && |x[lp]| == |caps[lp]|
      ensures st[lp] < tiers[lp] ==> rem[lp] > 0.0
    {
      assert LadderAt(caps[lp], x[lp], tiers[lp], st[lp], rem[lp]);
    }
  }

  /** Moves one LP on after a take at its frontier. */
  method Advance(px: seq<real>, sz: seq<real>, n: int, lps: nat, width: nat, best: nat, take: real, at: int, held: real,
                 ghost caps: seq<real>, ghost x: seq<real>)
    returns (next: int, rem: real)
    requires |px| == |sz| == lps * width && best < lps && n <= width
    requires caps == CapRow(Rows(px, lps, width)[best], Rows(sz, lps, width)[best], n, width)
    requires LadderAt(caps, x, n, at, held) && at < n && 0.0 <= take <= held
    ensures at <= next <= n && (at < next <==> take == held)
    ensures at < next < n ==> caps[next] > 0.0
    ensures LadderAt(caps, x[at := x[at] + take], n, next, rem)
  {
    rem := held - take;
    next := at;
    if rem <= 0.0 {
      next := Frontier(px, sz, lps, width, best, n, at + 1);
      LadderNext(caps, x, n, at, held, next);
      rem := if next < n then sz[best * width + next] else 0.0;
    } else {
      LadderPart(caps, x, n, at, held, take);
    }
  }

  function Took(x: seq<seq<real>>, best: nat, at: int, take: real): seq<seq<real>>
    requires best < |x| && 0 <= at < |x[best]|
  {
    x[best := x[best][at := x[best][at] + take]]
  }

  ghost function Room(st: seq<int>, tiers: seq<int>): int {
    if |st| == |tiers| then Left(st, tiers, |st|) else 0
  }

  /** One round keeps everything `Swept` says and leaves less room, unless it dealt the rest. */
  lemma {:induction false} Round(
    buy: bool, price: seq<seq<real>>, caps: seq<seq<real>>, x: seq<seq<real>>, tiers: seq<int>, st: seq<int>, rem: seq<real>,
    theta: real, lps: nat, width: nat, taken: real, notional: real, best: nat, take: real, next: int, left: real)
    requires Swept(buy, price, caps, x, tiers, st, rem, theta, lps, width, taken, notional)
    requires |st| == |tiers| == lps && best < lps && 0 <= st[best] < tiers[best] && st[best] < width && st[best] <= next <= tiers[best]
    requires Shape(price, lps, width) && Shape(caps, lps, width) && Shape(x, lps, width) && |rem| == lps
    requires st[best] < next < tiers[best] ==> next < width && caps[best][next] > 0.0
    requires forall lp :: 0 <= lp < lps && st[lp] < tiers[lp] ==>
               0 <= st[lp] < width && Key(buy, price[best][st[best]]) <= Key(buy, price[lp][st[lp]])
    requires LadderAt(caps[best], Took(x, best, st[best], take)[best], tiers[best], next, left)
    ensures Swept(buy, price, caps, Took(x, best, st[best], take), tiers, st[best := next], rem[best := left],
                  Key(buy, price[best][st[best]]), lps, width, taken + take, notional + Mul(take, price[best][st[best]]))
    ensures Room(st[best := next], tiers) == Room(st, tiers) - (next - st[best])
  {
    assert Ladders(caps, Took(x, best, st[best], take), tiers, st[best := next], rem[best := left]) by { hide LadderAt; }
    SweptStep(buy, price, caps, x, tiers, st, rem, theta, lps, width, taken, notional, best, take, next, rem[best := left]);
    LeftShrinks(st, next, tiers, best, lps);
  }

  lemma {:induction false} SweptShape(
    buy: bool, price: seq<seq<real>>, caps: seq<seq<real>>, x: seq<seq<real>>, tiers: seq<int>, st: seq<int>, rem: seq<real>,
    theta: real, lps: nat, width: nat, taken: real, notional: real)
    requires Swept(buy, price, caps, x, tiers, st, rem, theta, lps, width, taken, notional)
    ensures Shape(x, lps, width) && RowsTotal(x, lps) == taken && |st| == |tiers| == |rem| == lps
    ensures Ladders(caps, x, tiers, st, rem) && Shape(caps, lps, width)
    ensures forall lp :: 0 <= lp < lps ==> 0 <= st[lp] <= tiers[lp] <= width
    ensures forall lp :: 0 <= lp < lps && st[lp] < tiers[lp] ==>
              rem[lp] > 0.0 && LadderAt(caps[lp], x[lp], tiers[lp], st[lp], rem[lp])
    ensures Room(st, tiers) >= 0
  {
    LaddersInRange(caps, x, tiers, st, rem);
    LeftNonNegative(st, tiers, lps);
  }

  /** Each LP's part of a plan. */
  predicate Parts(lpQty: seq<real>, plan: seq<seq<real>>, lps: nat, width: nat) {
    && |lpQty| == lps && Shape(plan, lps, width)
    && forall lp :: 0 <= lp < lps ==> lpQty[lp] == Total(plan[lp], width)
  }

  lemma NoParts(lpQty: seq<real>, plan: seq<seq<real>>, lps: nat, width: nat)
    requires |lpQty| == lps && Shape(plan, lps, width) && forall lp :: 0 <= lp < lps ==> lpQty[lp] == 0.0
    requires forall lp, t :: 0 <= lp < lps && 0 <= t < width ==> plan[lp][t] == 0.0
    ensures Parts(lpQty, plan, lps, width)
  {
    forall lp | 0 <= lp < lps ensures Total(plan[lp], width) == 0.0 { ZeroSums(plan[lp], plan[lp], width); }
  }

  lemma PartsStep(lpQty: seq<real>, plan: seq<seq<real>>, lps: nat, width: nat, best: nat, t: nat, take: real)
    requires Parts(lpQty, plan, lps, width) && best < lps && t < width
    ensures Parts(lpQty[best := lpQty[best] + take], Took(plan, best, t, take), lps, width)
  {
    TotalUpdate(plan[best], t, plan[best][t] + take, width);
  }

  /** One round of the sweep: the best frontier gives what it can, up to `remaining`. */
  method DealOnce(
    px: seq<real>, sz: seq<real>, tiers: seq<int>, lps: nat, width: nat, buy: bool, remaining: real,
    st: seq<int>, rem: seq<real>, lpQty: seq<real>, ghost caps: seq<seq<real>>, ghost x: seq<seq<real>>, ghost theta: real,
    ghost taken: real, ghost notional: real)
    returns (best: int, take: real, bestPx: real, st': seq<int>, rem': seq<real>, lpQty': seq<real>, ghost x': seq<seq<real>>)
    requires |px| == |sz| == lps * width && |tiers| == lps && remaining > 0.0
    requires forall lp :: 0 <= lp < lps ==> 0 <= tiers[lp] <= width
    requires caps == Caps(Rows(px, lps, width), Rows(sz, lps, width), tiers, lps, width)
    requires Swept(buy, Rows(px, lps, width), caps, x, tiers, st, rem, theta, lps, width, taken, notional)
    requires |lpQty| == lps && Parts(lpQty, x, lps, width)
    ensures |lpQty'| == lps && Parts(lpQty', x', lps, width)
    ensures best == -1 ==> x' == x && RowsTotal(x, lps) == RowsTotal(caps, lps) == taken
    ensures best != -1 ==>
              && 0.0 < take <= remaining
              && Swept(buy, Rows(px, lps, width), caps, x', tiers, st', rem', Key(buy, bestPx), lps, width,
                       taken + take, notional + Mul(take, bestPx))
              && 0 <= Room(st, tiers) && Room(st', tiers) <= Room(st, tiers)
              && (Room(st', tiers) == Room(st, tiers) ==> take == remaining)
  {
    hide Caps;
    hide Rows;
    hide CapRow;
    hide Swept;
    hide LadderAt;
    hide Ladders;
    hide Mul;
    hide Parts;
    SweptShape(buy, Rows(px, lps, width), caps, x, tiers, st, rem, theta, lps, width, taken, notional);
    take, st', rem', lpQty', x' := 0.0, st, rem, lpQty, x;
    best, bestPx := SelectBest(px, tiers, lps, width, buy, st);
    if best == -1 {
      Exhausted(caps, x, tiers, st, rem, lps, width);
      return;
    }
    take := if remaining <= rem[best] then remaining else rem[best];
    var next, left := Advance(px, sz, tiers[best], lps, width, best, take, st[best], rem[best], caps[best], x[best]);
    Round(buy, Rows(px, lps, width), caps, x, tiers, st, rem, theta, lps, width, taken, notional, best, take, next, left);
    x' := Took(x, best, st[best], take);
    PartsStep(lpQty, x, lps, width, best, st[best], take);
    lpQty' := lpQty[best := lpQty[best] + take];
    st', rem' := st[best := next], rem[best := left];
  }

  /** The sweep loop: always the best frontier, until the size is dealt or the book is dry. */
  method SweepSide(px: seq<real>, sz: seq<real>, tiers: seq<int>, lps: nat, width: nat, buy: bool, size: real)
    returns (cost: Option<real>, lpQty: seq<real>, ghost plan: seq<seq<real>>)
    requires |px| == |sz| == lps * width && |tiers| == lps && size > 0.0
    requires forall lp :: 0 <= lp < lps ==> 0 <= tiers[lp] <= width
    ensures Shape(plan, lps, width) && Parts(lpQty, plan, lps, width)
    ensures var caps := Caps(Rows(px, lps, width), Rows(sz, lps, width), tiers, lps, width);
            var prices := Rows(px, lps, width);
            && (cost.None? <==> RowsTotal(caps, lps) < size)
            && (cost.Some? ==>
                  RowsWithin(plan, caps) && RowsTotal(plan, lps) == size && cost.value == RowsValue(prices, plan, lps))
            && (cost.Some? && BestFirst(buy, prices, caps, lps, width) ==>
                  forall y :: Shape(y, lps, width) && RowsWithin(y, caps) && RowsTotal(y, lps) == size ==>
                    if buy then cost.value <= RowsValue(prices, y, lps) else cost.value >= RowsValue(prices, y, lps))
  {
    ghost var prices := Rows(px, lps, width);
    ghost var caps := Caps(prices, Rows(sz, lps, width), tiers, lps, width);
    hide Caps;
    hide Rows;
    hide CapRow;
    hide BestFirst;
    hide Swept;
    hide LadderAt;
    hide Left;
    hide Mul;
    hide RowsTotal;
    hide RowsValue;
    hide Ladders;
    hide Room;
    hide Parts;
    var st, rem;
    lpQty := seq(lps, _ => 0.0);
    st, rem, plan := StartLadders(px, sz, tiers, lps, width, caps);
    NoParts(lpQty, plan, lps, width);
    SweptStart(buy, prices, caps, plan, tiers, st, rem, 0.0, lps, width);
    var remaining, notional := size, 0.0;
    ghost var theta := 0.0;
    while remaining > 0.0
      invariant 0.0 <= remaining && Shape(plan, lps, width) && |lpQty| == lps
      invariant Parts(lpQty, plan, lps, width)
      invariant Swept(buy, prices, caps, plan, tiers, st, rem, theta, lps, width, size - remaining, notional)
      decreases Room(st, tiers), remaining > 0.0
    {
      var best, take, bestPx;
      best, take, bestPx, st, rem, lpQty, plan :=
        DealOnce(px, sz, tiers, lps, width, buy, remaining, st, rem, lpQty, caps, plan, theta, size - remaining, notional);
      if best == -1 { return None, lpQty, plan; }
      notional := notional + Mul(take, bestPx);
      remaining := remaining - take;
      theta := Key(buy, bestPx);
    }
    SweptDone(buy, prices, caps, plan, tiers, st, rem, theta, lps, width, size, notional);
    return Some(notional), lpQty, plan;
  }

  // ----- the book -------------------------------------------------------------

  class FxTierBook {
    const lpCount: nat
    const maxTiers: nat
    const bidPx: array<real>
    const bidSz: array<real>
    const askPx: array<real>
    const askSz: array<real>
    const bidTiers: array<int>
    const askTiers: array<int>
    var updateCount: nat

    ghost predicate Valid()
      reads this, bidTiers, askTiers
    {
      && bidPx.Length == bidSz.Length == askPx.Length == askSz.Length == lpCount * maxTiers
      && bidTiers.Length == askTiers.Length == lpCount
      && bidPx != bidSz && bidPx != askPx && bidPx != askSz && bidSz != askPx && bidSz != askSz && askPx != askSz
      && bidTiers != askTiers
      && (forall lp :: 0 <= lp < lpCount ==> 0 <= bidTiers[lp] <= maxTiers && 0 <= askTiers[lp] <= maxTiers)
    }

    constructor (lpCount: nat, maxTiers: nat)
      requires lpCount >= 1 && maxTiers >= 1
      ensures Valid() && this.lpCount == lpCount && this.maxTiers == maxTiers && updateCount == 0
      ensures forall lp :: 0 <= lp < lpCount ==> bidTiers[lp] == 0 && askTiers[lp] == 0
    {
      this.lpCount, this.maxTiers, updateCount := lpCount, maxTiers, 0;
      bidPx := new real[lpCount * maxTiers](_ => 0.0);
      bidSz := new real[lpCount * maxTiers](_ => 0.0);
      askPx := new real[lpCount * maxTiers](_ => 0.0);
      askSz := new real[lpCount * maxTiers](_ => 0.0);
      bidTiers := new int[lpCount](_ => 0);
      askTiers := new int[lpCount](_ => 0);
    }

    /** Replaces one tier of one ladder; an index out of range is refused and changes nothing. */
    method Tier(lp: int, bid: bool, tier: int, price: real, size: real) returns (ok: bool)
      requires Valid()
      modifies bidPx, bidSz, askPx, askSz
      ensures Valid() && ok == (0 <= lp < lpCount && 0 <= tier < maxTiers)
      ensures ok ==> 0 <= lp * maxTiers + tier < lpCount * maxTiers
      ensures var i := lp * maxTiers + tier;
              && bidPx[..] == (if ok && bid then old(bidPx[..])[i := price] else old(bidPx[..]))
              && bidSz[..] == (if ok && bid then old(bidSz[..])[i := size] else old(bidSz[..]))
              && askPx[..] == (if ok && !bid then old(askPx[..])[i := price] else old(askPx[..]))
              && askSz[..] == (if ok && !bid then old(askSz[..])[i := size] else old(askSz[..]))
    {
      if lp < 0 || lp >= lpCount || tier < 0 || tier >= maxTiers { return false; }
      IndexBound(lp, tier, lpCount, maxTiers);
      var i := lp * maxTiers + tier;
      if bid {
        bidPx[i] := price;
        bidSz[i] := size;
      } else {
        askPx[i] := price;
        askSz[i] := size;
      }
      return true;
    }

    method TierCount(lp: nat, bid: bool, count: int) returns (ok: bool)
      requires Valid() && lp < lpCount
      modifies this, bidTiers, askTiers
      ensures Valid() && ok == (0 <= count <= maxTiers)
      ensures bidTiers[..] == if ok && bid then old(bidTiers[..])[lp := count] else old(bidTiers[..])
      ensures askTiers[..] == if ok && !bid then old(askTiers[..])[lp := count] else old(askTiers[..])
      ensures updateCount == old(updateCount) + if ok then 1 else 0
    {
      if count < 0 || count > maxTiers { return false; }
      if bid { bidTiers[lp] := count; } else { askTiers[lp] := count; }
      updateCount := updateCount + 1;
      return true;
    }

    // ----- one side as a table ------------------------------------------------

    function Px(buy: bool): array<real> { if buy then askPx else bidPx }

    function Sz(buy: bool): array<real> { if buy then askSz else bidSz }

    function Tiers(buy: bool): array<int> { if buy then askTiers else bidTiers }

    ghost function Prices(buy: bool): (p: seq<seq<real>>)
      requires Valid()
      reads this, bidTiers, askTiers, Px(buy)
      ensures Shape(p, lpCount, maxTiers)
    {
      Rows(Px(buy)[..], lpCount, maxTiers)
    }

    ghost function Dealable(buy: bool): (c: seq<seq<real>>)
      requires Valid()
      reads this, bidTiers, askTiers, Px(buy), Sz(buy)
      ensures Shape(c, lpCount, maxTiers)
    {
      Caps(Rows(Px(buy)[..], lpCount, maxTiers), Rows(Sz(buy)[..], lpCount, maxTiers), Tiers(buy)[..], lpCount, maxTiers)
    }

    /** A buyer deals on what LPs ask, a seller on what they bid. */
    lemma BuyersLiftAsks()
      requires Valid()
      ensures Prices(true) == Rows(askPx[..], lpCount, maxTiers) && Prices(false) == Rows(bidPx[..], lpCount, maxTiers)
      ensures Dealable(true) == Caps(Prices(true), Rows(askSz[..], lpCount, maxTiers), askTiers[..], lpCount, maxTiers)
      ensures Dealable(false) == Caps(Prices(false), Rows(bidSz[..], lpCount, maxTiers), bidTiers[..], lpCount, maxTiers)
    {
    }

    /**
     All-in cost of dealing `size` (proceeds for a sell).  `None` exactly when the size is not
     positive or the dealable capacity is short; otherwise the plan takes exactly `size`, `lpQty`
     holds each LP's part of it and, over best-first ladders, no feasible plan is cheaper (dearer, for a sell).
     */
    method Sweep(buy: bool, size: real) returns (cost: Option<real>, lpQty: seq<real>, ghost plan: seq<seq<real>>)
      requires Valid()
      ensures Shape(plan, lpCount, maxTiers) && Parts(lpQty, plan, lpCount, maxTiers)
      ensures cost.None? <==> size <= 0.0 || RowsTotal(Dealable(buy), lpCount) < size
      ensures cost.Some? ==>
                && RowsWithin(plan, Dealable(buy)) && RowsTotal(plan, lpCount) == size
                && cost.value == RowsValue(Prices(buy), plan, lpCount)
      ensures cost.Some? && BestFirst(buy, Prices(buy), Dealable(buy), lpCount, maxTiers) ==>
                forall y :: Shape(y, lpCount, maxTiers) && RowsWithin(y, Dealable(buy)) && RowsTotal(y, lpCount) == size ==>
                  if buy then cost.value <= RowsValue(Prices(true), y, lpCount)
                  else cost.value >= RowsValue(Prices(false), y, lpCount)
    {
      if size <= 0.0 {
        plan := NoPlan(lpCount, maxTiers);
        lpQty := seq(lpCount, _ => 0.0);
        NoParts(lpQty, plan, lpCount, maxTiers);
        return None, lpQty, plan;
      }
      hide BestFirst;
      hide RowsWithin;
      hide RowsTotal;
      hide RowsValue;
      hide Shape;
      hide Parts;
      cost, lpQty, plan := SweepSide(Px(buy)[..], Sz(buy)[..], Tiers(buy)[..], lpCount, maxTiers, buy, size);
    }

    /** One LP's full-amount price: the first tier whose clip covers the size; best-first ladders make it the best one. */
    method FullAmountPrice(lp: nat, buy: bool, size: real) returns (p: Option<real>)
      requires Valid() && lp < lpCount
      ensures p.None? <==> size <= 0.0 || forall t :: 0 <= t < Tiers(buy)[lp] ==> Dealable(buy)[lp][t] < size
      ensures p.Some? && BestFirst(buy, Prices(buy), Dealable(buy), lpCount, maxTiers) ==>
                forall t :: 0 <= t < Tiers(buy)[lp] && Dealable(buy)[lp][t] >= size ==>
                  if buy then p.value <= Prices(true)[lp][t] else p.value >= Prices(false)[lp][t]
      ensures p.Some? ==> exists t :: 0 <= t < Tiers(buy)[lp] && Dealable(buy)[lp][t] >= size && p.value == Prices(buy)[lp][t]
                            && forall k :: 0 <= k < t ==> Dealable(buy)[lp][k] < size
    {
      if size <= 0.0 { return None; }
      hide Prices;
      hide Dealable;
      hide BestFirst;
      hide Key;
      for t := 0 to Tiers(buy)[lp]
        invariant forall k :: 0 <= k < t ==> Dealable(buy)[lp][k] < size
      {
        TierAt(buy, lp, t);
        var i := lp * maxTiers + t;
        if Sz(buy)[i] >= size && Px(buy)[i] > 0.0 {
          FirstIsBest(buy, Prices(buy), Dealable(buy), Tiers(buy)[..], lpCount, maxTiers, lp, t, size);
          return Some(Px(buy)[i]);
        }
      }
      return None;
    }

    lemma TierAt(buy: bool, lp: nat, t: nat)
      requires Valid() && lp < lpCount && t < Tiers(buy)[lp]
      ensures var i := lp * maxTiers + t;
              && t < maxTiers && i < Px(buy).Length && i < Sz(buy).Length && Prices(buy)[lp][t] == Px(buy)[i]
              && Dealable(buy)[lp][t] == if Px(buy)[i] > 0.0 && Sz(buy)[i] > 0.0 then Sz(buy)[i] else 0.0
    {
      hide Rows;
      hide Caps;
      CellAt(Px(buy)[..], Sz(buy)[..], Tiers(buy)[..], lpCount, maxTiers, lp, t);
    }
  }

  /** On a best-first ladder the first tier that covers a size is the best one that does. */
  lemma FirstIsBest(buy: bool, price: seq<seq<real>>, caps: seq<seq<real>>, tiers: seq<int>, lps: nat, width: nat,
                    lp: nat, t: nat, size: real)
    requires Shape(price, lps, width) && Shape(caps, lps, width) && |tiers| == lps && lp < lps
    requires t < tiers[lp] <= width && size > 0.0 && caps[lp][t] >= size && forall k :: 0 <= k < t ==> caps[lp][k] < size
    ensures BestFirst(buy, price, caps, lps, width) ==>
              forall u :: 0 <= u < tiers[lp] && caps[lp][u] >= size ==> Key(buy, price[lp][t]) <= Key(buy, price[lp][u])
  {
  }
}
