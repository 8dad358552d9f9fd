/**
 Volume-bucketed order-flow toxicity.  The estimator keeps only a ring of the last buckets and
 handles a block trade arithmetically; the specification splits every trade bucket by bucket
 into an unbounded history.  The two always agree on the open bucket and on the last buckets.
 */
module Vpin {
  import opened Outcomes
  import opened RealAlgebra
  import opened RealSums
  import opened Ring

  // ----- the bucket-by-bucket splitter ----------------------------------------

  /** Imbalances of all completed buckets, and the two sides of the open one. */
  datatype Flow = Flow(history: seq<real>, buy: real, sell: real)

  ghost predicate Open(f: Flow, volume: real) {
    volume > 0.0 && f.buy >= 0.0 && f.sell >= 0.0 && f.buy + f.sell < volume
  }

  function Added(f: Flow, qty: real, buyer: bool): Flow {
    if buyer then f.(buy := f.buy + qty) else f.(sell := f.sell + qty)
  }

  function Imbalance(f: Flow, volume: real): real
    requires volume != 0.0
  {
    (if f.buy >= f.sell then f.buy - f.sell else f.sell - f.buy) / volume
  }

  function Completed(f: Flow, volume: real): Flow
    requires volume != 0.0
  {
    Flow(f.history + [Imbalance(f, volume)], 0.0, 0.0)
  }

  /** How many bucket boundaries a trade crosses. */
  ghost function Crossings(f: Flow, qty: real, volume: real): int
    requires volume > 0.0
  {
    ((qty + f.buy + f.sell) / volume).Floor
  }

  lemma OneCrossing(level: real, volume: real)
    requires volume > 0.0 && level >= volume
    ensures ((level - volume) / volume).Floor == (level / volume).Floor - 1 >= 0
  {
    DivAdd(level - volume, volume, volume);
    DivSelf(volume);
    QuotientNonNegative(level - volume, volume);
  }

  /** Fill the open bucket, close it when full, carry on with the rest. */
  ghost function Split(f: Flow, qty: real, buyer: bool, volume: real): Flow
    requires Open(f, volume) && qty >= 0.0
    decreases Crossings(f, qty, volume)
  {
    var capacity := volume - (f.buy + f.sell);
    if qty < capacity then Added(f, qty, buyer)
    else
      OneCrossing(qty + f.buy + f.sell, volume);
      Split(Completed(Added(f, capacity, buyer), volume), qty - capacity, buyer, volume)
  }

  // ----- what splitting guarantees --------------------------------------------

  lemma {:induction false} SplitStaysOpen(f: Flow, qty: real, buyer: bool, volume: real)
    requires Open(f, volume) && qty >= 0.0
    ensures Open(Split(f, qty, buyer, volume), volume)
    decreases Crossings(f, qty, volume)
  {
    var capacity := volume - (f.buy + f.sell);
    if qty >= capacity {
      OneCrossing(qty + f.buy + f.sell, volume);
      SplitStaysOpen(Completed(Added(f, capacity, buyer), volume), qty - capacity, buyer, volume);
    }
  }

  /** Volume is conserved: completed buckets and the open one hold exactly what was traded. */
  lemma {:induction false} SplitConserves(f: Flow, qty: real, buyer: bool, volume: real)
    requires Open(f, volume) && qty >= 0.0
    ensures var g := Split(f, qty, buyer, volume);
            Mul(|g.history| as real, volume) + g.buy + g.sell == Mul(|f.history| as real, volume) + f.buy + f.sell + qty
    decreases Crossings(f, qty, volume)
  {
    hide Mul;
    var capacity := volume - (f.buy + f.sell);
    if qty >= capacity {
      OneCrossing(qty + f.buy + f.sell, volume);
      var g := Completed(Added(f, capacity, buyer), volume);
      MulAdd(volume, |f.history| as real, 1.0);
      MulUnits(volume);
      assert |g.history| as real == |f.history| as real + 1.0;
      SplitConserves(g, qty - capacity, buyer, volume);
    }
  }

  /** Fragmentation does not matter: two trades of one aggressor are their sum. */
  lemma {:induction false} SplitAdds(f: Flow, a: real, b: real, buyer: bool, volume: real)
    requires Open(f, volume) && a >= 0.0 && b >= 0.0
    ensures Open(Split(f, a, buyer, volume), volume)
    ensures Split(Split(f, a, buyer, volume), b, buyer, volume) == Split(f, a + b, buyer, volume)
    decreases Crossings(f, a, volume)
  {
    SplitStaysOpen(f, a, buyer, volume);
    var capacity := volume - (f.buy + f.sell);
    if a >= capacity {
      OneCrossing(a + f.buy + f.sell, volume);
      SplitAdds(Completed(Added(f, capacity, buyer), volume), a - capacity, b, buyer, volume);
    } else if a + b >= capacity {
      assert Added(Added(f, a, buyer), capacity - a, buyer) == Added(f, capacity, buyer);
    } else {
      assert Added(Added(f, a, buyer), b, buyer) == Added(f, a + b, buyer);
    }
  }

  function Repeat(x: real, n: nat): (s: seq<real>)
    ensures |s| == n && forall i :: 0 <= i < n ==> s[i] == x
  {
    seq(n, _ => x)
  }

  /** A one-sided block from an empty bucket: whole buckets of imbalance 1, then the remainder. */
  lemma {:induction false} SplitBlock(history: seq<real>, qty: real, buyer: bool, volume: real)
    requires volume > 0.0 && qty >= 0.0
    ensures var full := (qty / volume).Floor;
            && full >= 0 && 0.0 <= qty - Mul(full as real, volume) < volume
            && Split(Flow(history, 0.0, 0.0), qty, buyer, volume)
            == Added(Flow(history + Repeat(1.0, full), 0.0, 0.0), qty - Mul(full as real, volume), buyer)
    decreases (qty / volume).Floor
  {
    var f, full := Flow(history, 0.0, 0.0), (qty / volume).Floor;
    QuotientNonNegative(qty, volume);
    if qty < volume {
      BelowOne(qty, volume);
      MulUnits(volume);
      assert history + Repeat(1.0, 0) == history;
    } else {
      OneCrossing(qty, volume);
      DivSelf(volume);
      var g := Completed(Added(f, volume, buyer), volume);
      assert g == Flow(history + [1.0], 0.0, 0.0);
      SplitBlock(history + [1.0], qty - volume, buyer, volume);
      assert history + [1.0] + Repeat(1.0, full - 1) == history + Repeat(1.0, full);
      MulAdd(volume, (full - 1) as real, 1.0);
      MulUnits(volume);
      assert (full - 1) as real + 1.0 == full as real;
    }
  }

  lemma BelowOne(a: real, b: real)
    requires 0.0 <= a < b
    ensures (a / b).Floor == 0
  {
    QuotientNonNegative(a, b);
    if a / b >= 1.0 {
      MulNonNegative(a / b - 1.0, b);
    }
  }

  /** Every completed bucket's imbalance is a fraction. */
  lemma {:induction false} SplitFractions(f: Flow, qty: real, buyer: bool, volume: real)
    requires Open(f, volume) && qty >= 0.0 && forall i :: 0 <= i < |f.history| ==> 0.0 <= f.history[i] <= 1.0
    ensures var h := Split(f, qty, buyer, volume).history;
            f.history <= h && forall i :: 0 <= i < |h| ==> 0.0 <= h[i] <= 1.0
    decreases Crossings(f, qty, volume)
  {
    var capacity := volume - (f.buy + f.sell);
    if qty >= capacity {
      OneCrossing(qty + f.buy + f.sell, volume);
      var full := Added(f, capacity, buyer);
      ImbalanceFraction(full, volume);
      SplitFractions(Completed(full, volume), qty - capacity, buyer, volume);
    }
  }

  lemma ImbalanceFraction(f: Flow, volume: real)
    requires volume > 0.0 && f.buy >= 0.0 && f.sell >= 0.0 && f.buy + f.sell == volume
    ensures 0.0 <= Imbalance(f, volume) <= 1.0
  {
    var gap := if f.buy >= f.sell then f.buy - f.sell else f.sell - f.buy;
    QuotientNonNegative(gap, volume);
    QuotientNonNegative(volume - gap, volume);
    DivAdd(gap, volume - gap, volume);
    DivSelf(volume);
  }

  // ----- what a bucket records ------------------------------------------------

  datatype Print = Print(qty: real, buyer: bool)

  ghost predicate Positive(tape: seq<Print>) { forall k :: 0 <= k < |tape| ==> tape[k].qty >= 0.0 }

  function Volume(tape: seq<Print>): real {
    if tape == [] then 0.0 else Volume(tape[..|tape| - 1]) + tape[|tape| - 1].qty
  }

  /** How much of the first `v` units of the tape was bought. */
  function BoughtBy(tape: seq<Print>, v: real): real {
    if tape == [] then 0.0
    else
      var front, last := tape[..|tape| - 1], tape[|tape| - 1];
      var before := Volume(front);
      if v <= before then BoughtBy(front, v)
      else BoughtBy(front, before) + if !last.buyer then 0.0 else if v - before <= last.qty then v - before else last.qty
  }

  function Size(x: real): real { if x >= 0.0 then x else -x }

  /** Bought in the stretch of the tape that fills the `k`-th bucket. */
  function BoughtIn(tape: seq<Print>, volume: real, k: nat): real {
    BoughtBy(tape, Mul((k + 1) as real, volume)) - BoughtBy(tape, Mul(k as real, volume))
  }

  /**
   The recorded imbalances are those of the tape: a bucket's, in units of its volume, is the gap between
   what was bought and what was sold in its stretch, and the open bucket holds the rest.
   */
  ghost predicate Reads(f: Flow, tape: seq<Print>, volume: real) {
    && (forall k :: 0 <= k < |f.history| ==>
          var bought := BoughtIn(tape, volume, k);
          Mul(f.history[k], volume) == Size(bought - (volume - bought)))
    && Volume(tape) == Mul(|f.history| as real, volume) + f.buy + f.sell
    && f.buy == BoughtBy(tape, Volume(tape)) - BoughtBy(tape, Mul(|f.history| as real, volume))
  }

  lemma PrintAdded(tape: seq<Print>, t: Print, v: real)
    requires t.qty >= 0.0
    ensures Volume(tape + [t]) == Volume(tape) + t.qty
    ensures v <= Volume(tape) ==> BoughtBy(tape + [t], v) == BoughtBy(tape, v)
    ensures v > Volume(tape) ==>
              BoughtBy(tape + [t], v) == BoughtBy(tape, Volume(tape))
                + if !t.buyer then 0.0 else if v - Volume(tape) <= t.qty then v - Volume(tape) else t.qty
  {
    assert (tape + [t])[..|tape|] == tape;
  }

  /** One print in two parts reads like the whole of it. */
  lemma PrintSplit(tape: seq<Print>, a: real, b: real, buyer: bool, v: real)
    requires a >= 0.0 && b >= 0.0
    ensures BoughtBy(tape + [Print(a, buyer)] + [Print(b, buyer)], v) == BoughtBy(tape + [Print(a + b, buyer)], v)
    ensures Volume(tape + [Print(a, buyer)] + [Print(b, buyer)]) == Volume(tape + [Print(a + b, buyer)])
  {
    var first := tape + [Print(a, buyer)];
    PrintAdded(tape, Print(a, buyer), v);
    PrintAdded(tape, Print(a, buyer), Volume(first));
    PrintAdded(first, Print(b, buyer), v);
    PrintAdded(tape, Print(a + b, buyer), v);
  }

  /** Bucket boundaries rise. */
  lemma Boundaries(k: int, n: int, volume: real)
    requires 0 <= k <= n && volume > 0.0
    ensures 0.0 <= Mul(k as real, volume) <= Mul(n as real, volume)
    ensures Mul((n + 1) as real, volume) == Mul(n as real, volume) + volume
  {
    MulNonNegative(k as real, volume);
    MulNonNegative((n - k) as real, volume);
    MulSub(volume, n as real, k as real);
    assert (n - k) as real == n as real - k as real && (n + 1) as real == n as real + 1.0;
    MulAdd(volume, n as real, 1.0);
    MulUnits(volume);
  }

  lemma BoughtFits(tape: seq<Print>, volume: real, k: nat, n: nat, t: Print)
    requires k < n && volume > 0.0 && t.qty >= 0.0 && Volume(tape) >= Mul(n as real, volume)
    ensures BoughtIn(tape + [t], volume, k) == BoughtIn(tape, volume, k)
  {
    Boundaries(k + 1, n, volume);
    Boundaries(k, n, volume);
    PrintAdded(tape, t, Mul((k + 1) as real, volume));
    PrintAdded(tape, t, Mul(k as real, volume));
  }

  /** A print that does not fill the bucket only adds to it. */
  lemma AddedReads(f: Flow, tape: seq<Print>, qty: real, buyer: bool, volume: real)
    requires Reads(f, tape, volume) && volume > 0.0 && qty >= 0.0 && f.buy >= 0.0 && f.sell >= 0.0
    ensures Reads(Added(f, qty, buyer), tape + [Print(qty, buyer)], volume)
  {
    hide Mul;
    hide BoughtBy;
    hide Volume;
    var t := Print(qty, buyer);
    var n := |f.history|;
    forall k | 0 <= k < n
      ensures var bought := BoughtIn(tape + [t], volume, k); Mul(f.history[k], volume) == Size(bought - (volume - bought))
    {
      BoughtFits(tape, volume, k, n, t);
    }
    PrintAdded(tape, t, Volume(tape) + qty);
    PrintAdded(tape, t, Mul(n as real, volume));
    PrintAdded(tape, t, Volume(tape));
  }

  /** A full bucket records the gap between its two sides. */
  lemma CompletedReads(f: Flow, tape: seq<Print>, volume: real)
    requires Reads(f, tape, volume) && volume > 0.0 && f.buy + f.sell == volume
    ensures Reads(Completed(f, volume), tape, volume)
  {
    var n := |f.history|;
    Boundaries(n, n, volume);
    var gap := if f.buy >= f.sell then f.buy - f.sell else f.sell - f.buy;
    assert Imbalance(f, volume) == gap / volume;
    GapBack(gap, volume);
    hide Mul;
    hide BoughtBy;
    hide Volume;
    hide Imbalance;
    assert BoughtIn(tape, volume, n) == f.buy;
  }

  lemma GapBack(gap: real, volume: real)
    requires volume > 0.0
    ensures Mul(gap / volume, volume) == gap
  {
  }

  lemma ReadsSplitPrint(f: Flow, tape: seq<Print>, a: real, b: real, buyer: bool, volume: real)
    requires a >= 0.0 && b >= 0.0 && Reads(f, tape + [Print(a, buyer)] + [Print(b, buyer)], volume)
    ensures Reads(f, tape + [Print(a + b, buyer)], volume)
  {
    var parts, whole := tape + [Print(a, buyer)] + [Print(b, buyer)], tape + [Print(a + b, buyer)];
    forall v: real ensures BoughtBy(parts, v) == BoughtBy(whole, v) { PrintSplit(tape, a, b, buyer, v); }
    PrintSplit(tape, a, b, buyer, 0.0);
    hide BoughtBy;
    hide Volume;
    hide Mul;
    hide Size;
    forall k | 0 <= k < |f.history|
      ensures var bought := BoughtIn(whole, volume, k); Mul(f.history[k], volume) == Size(bought - (volume - bought))
    {
      assert BoughtIn(whole, volume, k) == BoughtIn(parts, volume, k);
    }
  }

  /** Splitting a trade keeps the record true to the tape. */
  lemma {:induction false} SplitReads(f: Flow, tape: seq<Print>, qty: real, buyer: bool, volume: real)
    requires Open(f, volume) && qty >= 0.0 && Reads(f, tape, volume)
    ensures Reads(Split(f, qty, buyer, volume), tape + [Print(qty, buyer)], volume)
    decreases Crossings(f, qty, volume)
  {
    hide Reads;
    var capacity := volume - (f.buy + f.sell);
    if qty < capacity {
      AddedReads(f, tape, qty, buyer, volume);
    } else {
      OneCrossing(qty + f.buy + f.sell, volume);
      AddedReads(f, tape, capacity, buyer, volume);
      CompletedReads(Added(f, capacity, buyer), tape + [Print(capacity, buyer)], volume);
      SplitReads(Completed(Added(f, capacity, buyer), volume), tape + [Print(capacity, buyer)], qty - capacity, buyer, volume);
      ReadsSplitPrint(Split(f, qty, buyer, volume), tape, capacity, qty - capacity, buyer, volume);
    }
  }

  lemma NothingRead(volume: real)
    ensures Reads(Flow([], 0.0, 0.0), [], volume)
  {
    MulUnits(volume);
  }

  /** A bucket records 0 exactly when its stretch is balanced, and 1 exactly when it is one-sided. */
  lemma BucketReadsExactly(f: Flow, tape: seq<Print>, volume: real, k: nat)
    requires Reads(f, tape, volume) && volume > 0.0 && k < |f.history|
    ensures f.history[k] == 0.0 <==> 2.0 * BoughtIn(tape, volume, k) == volume
    ensures f.history[k] == 1.0 <==> BoughtIn(tape, volume, k) == volume || BoughtIn(tape, volume, k) == 0.0
  {
    GapExactly(f.history[k], BoughtIn(tape, volume, k), volume);
  }

  lemma GapExactly(h: real, bought: real, volume: real)
    requires volume > 0.0 && Mul(h, volume) == Size(bought - (volume - bought))
    ensures h == 0.0 <==> 2.0 * bought == volume
    ensures h == 1.0 <==> bought == volume || bought == 0.0
  {
    MulUnits(volume);
    Cancel(h, volume);
    Cancel(h - 1.0, volume);
    MulSub(volume, h, 1.0);
  }

  lemma Cancel(x: real, volume: real)
    requires volume > 0.0
    ensures Mul(x, volume) == 0.0 <==> x == 0.0
  {
    if x > 0.0 { MulPositive(x, volume); } else if x < 0.0 { MulPositive(-x, volume); }
  }

  // ----- averages -------------------------------------------------------------

  /** Buckets older than the window cannot be seen: recording `window` ones is recording more. */
  lemma MirrorsForgets(ring: seq<real>, head: nat, filled: nat, history: seq<real>, full: nat)
    requires full >= |ring| && Mirrors(ring, head, filled, history + Repeat(1.0, |ring|))
    ensures Mirrors(ring, head, filled, history + Repeat(1.0, full))
  {
    assert Last(history + Repeat(1.0, full), |ring|) == Repeat(1.0, |ring|)
        == Last(history + Repeat(1.0, |ring|), |ring|);
  }

  lemma {:induction false} TotalOfFractions(x: seq<real>, n: nat)
    requires n <= |x| && forall i :: 0 <= i < n ==> 0.0 <= x[i] <= 1.0
    ensures 0.0 <= Total(x, n) <= n as real
  {
    if n != 0 { TotalOfFractions(x, n - 1); }
  }

  lemma MeanFraction(x: seq<real>)
    requires |x| > 0 && forall i :: 0 <= i < |x| ==> 0.0 <= x[i] <= 1.0
    ensures 0.0 <= Total(x, |x|) / |x| as real <= 1.0
  {
    TotalOfFractions(x, |x|);
    var t, n := Total(x, |x|), |x| as real;
    QuotientNonNegative(t, n);
    QuotientNonNegative(n - t, n);
    DivAdd(t, n - t, n);
    DivSelf(n);
  }

  // ----- the estimator --------------------------------------------------------

  class Vpin {
    const bucketVolume: real
    const imbalances: array<real>
    var filled: nat
    var head: nat
    var bucketBuy: real
    var bucketSell: real
    /** Every completed bucket since the start; not kept by the source. */
    ghost var history: seq<real>
    /** Every trade taken since the start; not kept by the source. */
    ghost var tape: seq<Print>

    ghost function View(): Flow
      reads this
    {
      Flow(history, bucketBuy, bucketSell)
    }

    /** The open bucket and the ring agree with the buckets completed so far. */
    ghost predicate Sound()
      reads this, imbalances
    {
      && Open(View(), bucketVolume) && Mirrors(imbalances[..], head, filled, history)
      && (forall i :: 0 <= i < |history| ==> 0.0 <= history[i] <= 1.0)
    }

    /** And the buckets record what the tape says. */
    ghost predicate Valid()
      reads this, imbalances
    {
      Sound() && Reads(View(), tape, bucketVolume)
    }

    constructor (bucketVolume: real, window: nat)
      requires bucketVolume > 0.0 && window >= 1
      ensures Valid() && tape == [] && View() == Flow([], 0.0, 0.0) && imbalances.Length == window && this.bucketVolume == bucketVolume
    {
      this.bucketVolume := bucketVolume;
      imbalances := new real[window](_ => 0.0);
      filled, head, bucketBuy, bucketSell := 0, 0, 0.0, 0.0;
      history, tape := [], [];
      NothingRead(bucketVolume);
    }

    /** The bucket is full: its imbalance enters the ring and a new one opens. */
    method CompleteBucket()
      requires bucketVolume > 0.0 && bucketBuy >= 0.0 && bucketSell >= 0.0 && bucketBuy + bucketSell == bucketVolume
      requires Mirrors(imbalances[..], head, filled, history)
      requires forall i :: 0 <= i < |history| ==> 0.0 <= history[i] <= 1.0
      modifies this, imbalances
      ensures Sound() && View() == Completed(old(View()), bucketVolume)
    {
      hide Last;
      hide Logical;
      ImbalanceFraction(View(), bucketVolume);
      var window := imbalances.Length;
      var imbalance := (if bucketBuy >= bucketSell then bucketBuy - bucketSell else bucketSell - bucketBuy) / bucketVolume;
      MirrorsPush(imbalances[..], head, filled, history, imbalance);
      ghost var ring := imbalances[..];
      imbalances[head] := imbalance;
      assert imbalances[..] == ring[head := imbalance];
      history := history + [imbalance];
      head := (head + 1) % window;
      if filled < window { filled := filled + 1; }
      bucketBuy, bucketSell := 0.0, 0.0;
    }

    /** First the open bucket; what is left of the trade meets an empty one. */
    method FinishOpen(quantity: real, buyer: bool) returns (remaining: real)
      requires Sound() && quantity > 0.0
      modifies this, imbalances
      ensures Sound() && remaining >= 0.0 && (remaining > 0.0 ==> bucketBuy == 0.0 == bucketSell)
      ensures Split(View(), remaining, buyer, bucketVolume) == Split(old(View()), quantity, buyer, bucketVolume)
      ensures remaining == 0.0 ==> View() == Split(View(), remaining, buyer, bucketVolume)
    {
      hide Mirrors;
      ghost var before := View();
      var capacity := bucketVolume - (bucketBuy + bucketSell);
      var take := if quantity <= capacity then quantity else capacity;
      if buyer { bucketBuy := bucketBuy + take; } else { bucketSell := bucketSell + take; }
      remaining := quantity - take;
      if bucketBuy + bucketSell == bucketVolume {
        assert View() == Added(before, capacity, buyer);
        CompleteBucket();
      }
    }

    /** Whole one-sided buckets without visiting each: at most `window` of them are recorded. */
    method RecordBlock(quantity: real, buyer: bool)
      requires Sound() && quantity > 0.0 && bucketBuy == 0.0 == bucketSell
      modifies this, imbalances
      ensures Sound() && View() == Split(old(View()), quantity, buyer, bucketVolume)
    {
      hide Mirrors;
      hide Split;
      hide Mul;
      ghost var before := history;
      var window := imbalances.Length;
      SplitBlock(history, quantity, buyer, bucketVolume);
      var full := (quantity / bucketVolume).Floor;
      var toRecord := if full <= window then full else window;
      Record(toRecord);
      if full > window {
        MirrorsForgets(imbalances[..], head, filled, before, full);
        history := before + Repeat(1.0, full);
      }
      var remaining := quantity - Mul(full as real, bucketVolume);
      if remaining > 0.0 {
        if buyer { bucketBuy := remaining; } else { bucketSell := remaining; }
      }
    }

    method Record(count: nat)
      requires Sound() && count <= imbalances.Length
      modifies this`head, this`filled, this`history, imbalances
      ensures Sound() && history == old(history) + Repeat(1.0, count)
    {
      hide Mirrors;
      var window := imbalances.Length;
      ghost var before, filledBefore := history, filled;
      MirrorsBound(imbalances[..], head, filled, history);
      ghost var seen := filled;
      for k := 0 to count
        invariant Open(View(), bucketVolume) && 0 <= head < window && filled == filledBefore
        invariant seen == (if filledBefore + k <= window then filledBefore + k else window)
        invariant history == before + Repeat(1.0, k)
        invariant Mirrors(imbalances[..], head, seen, history)
        invariant forall i :: 0 <= i < |history| ==> 0.0 <= history[i] <= 1.0
      {
        MirrorsPush(imbalances[..], head, seen, history, 1.0);
        ghost var ring := imbalances[..];
        imbalances[head] := 1.0;
        assert imbalances[..] == ring[head := 1.0];
        head := (head + 1) % window;
        seen := if seen < window then seen + 1 else seen;
        assert history + [1.0] == before + Repeat(1.0, k + 1);
        history := history + [1.0];
      }
      filled := if filled + count <= window then filled + count else window;
    }

    /** `false` for a quantity that is not positive, with nothing changed; otherwise the naive split. */
    method OnTrade(quantity: real, buyer: bool) returns (ok: bool)
      requires Valid()
      modifies this, imbalances
      ensures Valid() && ok == (quantity > 0.0)
      ensures tape == old(tape) + if ok then [Print(quantity, buyer)] else []
      ensures !ok ==> View() == old(View())
      ensures ok ==> View() == Split(old(View()), quantity, buyer, bucketVolume)
    {
      hide Split;
      hide Mirrors;
      hide Reads;
      if quantity <= 0.0 { return false; }
      SplitReads(View(), tape, quantity, buyer, bucketVolume);
      ghost var longer := tape + [Print(quantity, buyer)];
      var remaining := quantity;
      remaining := FinishOpen(quantity, buyer);
      if remaining != 0.0 { RecordBlock(remaining, buyer); }
      tape := longer;
      return true;
    }

    /** `None` until a bucket completes; then the mean imbalance of the last buckets, a fraction. */
    method Estimate() returns (v: Option<real>)
      requires Valid()
      ensures v.None? <==> history == []
      ensures v.Some? ==>
                var recent := Last(history, imbalances.Length);
                v.value == Total(recent, |recent|) / |recent| as real && 0.0 <= v.value <= 1.0
    {
      ghost var recent := Last(history, imbalances.Length);
      RingTotal(imbalances[..], head, filled, history);
      if filled == 0 { return None; }
      assert imbalances[..][..filled] == imbalances[..filled];
      MeanFraction(recent);
      return Some(Total(imbalances[..filled], filled) / filled as real);
    }

    method Ready() returns (r: bool)
      requires Valid()
      ensures r <==> |history| >= imbalances.Length
    {
      RingTotal(imbalances[..], head, filled, history);
      return filled == imbalances.Length;
    }
  }
}
