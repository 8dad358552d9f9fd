/**
 O(1)-per-tick indicators.  After any sequence of updates each one holds exactly the batch
 indicator's value at the last index, warm-up included.
 */
module StreamingIndicators {
  import opened Outcomes
  import opened RealAlgebra
  import opened RealSums
  import opened Ring
  import opened Indicators

  class Sma {
    const period: nat
    const window: array<real>
    var sum: real
    var count: nat
    var idx: nat
    var value: Value
    /** All values seen; not kept by the source. */
    ghost var history: seq<real>

    ghost predicate Valid()
      reads this, window
    {
      && period == window.Length > 0 && count == |history|
      && Mirrors(window[..], idx, if count <= period then count else period, history)
      && sum == Total(Last(history, period), |Last(history, period)|)
      && (count > 0 ==> value == SmaAt(history, period, count - 1)) && (count == 0 ==> value == None)
    }

    constructor (period: nat)
      requires period > 0
      ensures Valid() && this.period == period && history == []
    {
      this.period := period;
      window := new real[period](_ => 0.0);
      sum, count, idx, value, history := 0.0, 0, 0, None, [];
    }

    method Update(v: real) returns (r: Value)
      requires Valid()
      modifies this, window
      ensures Valid() && history == old(history) + [v]
      ensures r == value == SmaAt(history, period, |history| - 1)
    {
      hide Total;
      hide Last;
      hide Logical;
      hide Mean;
      hide SmaAt;
      hide Mirrors;
      SumSlides(window[..], idx, count, period, history, v);
      MirrorsNext(window[..], idx, if count <= period then count else period, history, v);
      ghost var ring := window[..];
      if count >= period { sum := sum - window[idx]; }
      window[idx] := v;
      assert window[..] == ring[idx := v];
      sum := sum + v;
      idx := if idx + 1 == period then 0 else idx + 1;
      count := count + 1;
      history := history + [v];
      value := if count >= period then Some(Mean(sum, period)) else None;
      SmaOfLast(history, period);
      return value;
    }
  }

  /** Dropping the slot about to be overwritten and adding the new value keeps the window's sum. */
  lemma SumSlides(ring: seq<real>, idx: nat, count: nat, period: nat, history: seq<real>, v: real)
    requires period == |ring| && count == |history|
    requires Mirrors(ring, idx, if count <= period then count else period, history)
    ensures var before, after := Last(history, period), Last(history + [v], period);
            Total(after, |after|) == Total(before, |before|) + v - (if count >= period then ring[idx] else 0.0)
  {
    var before := Last(history, period);
    LastPush(history, v, period);
    TotalOne(v);
    hide Total;
    hide Last;
    if count >= period {
      assert before[0] == ring[idx];
      TotalTail(before, period - 1);
      TotalJoin(before[1..], [v], 1);
    } else {
      TotalJoin(before, [v], 1);
    }
  }

  lemma TotalOne(v: real)
    ensures Total([v], 1) == v
  {
    assert Total([v], 1) == Total([v], 0) + v;
  }

  /** The batch mean at the newest value is that of the values last seen. */
  lemma SmaOfLast(history: seq<real>, period: nat)
    requires period > 0 && |history| > 0
    ensures var last := Last(history, period);
            SmaAt(history, period, |history| - 1) == if |history| >= period then Some(Mean(Total(last, |last|), period)) else None
  {
    hide Mean;
    hide Total;
    if |history| >= period { assert Last(history, period) == history[|history| - period..|history|]; }
  }

  class Ema {
    const period: nat
    const k: real
    var seedSum: Value
    var count: nat
    var value: Value
    /** All values seen; not kept by the source. */
    ghost var history: seq<Value>

    ghost predicate Valid()
      reads this
    {
      && period > 0 && k == Smoothing(period) && count == |history|
      && (count < period ==> seedSum == SumOf(history, count) && value == None)
      && (count >= period ==> value == EmaAt(history, period, count - 1))
    }

    constructor (period: nat)
      requires period > 0
      ensures Valid() && this.period == period && history == []
    {
      this.period, k := period, Smoothing(period);
      seedSum, count, value, history := Some(0.0), 0, None, [];
    }

    method Update(v: Value) returns (r: Value)
      requires Valid()
      modifies this
      ensures Valid() && history == old(history) + [v]
      ensures r == EmaAt(history, period, |history| - 1)
    {
      hide Smoothing;
      ghost var before := history;
      history := history + [v];
      SumOfPrefix(before, history, if |before| < period then |before| else period - 1);
      if count > 0 { EmaPrefix(before, history, period, count - 1); }
      count := count + 1;
      if count < period {
        seedSum := Plus(seedSum, v);
        return None;
      }
      if count == period {
        value := Over(Plus(seedSum, v), period);
      } else {
        value := Plus(value, Times(Minus(v, value), k));
      }
      return value;
    }
  }

  class Rsi {
    const period: nat
    var prev: Option<real>
    var changes: nat
    var gainSum: real
    var lossSum: real
    var avgGain: real
    var avgLoss: real
    var value: Value
    /** All values seen; not kept by the source. */
    ghost var history: seq<real>

    ghost predicate Valid()
      reads this
    {
      && period > 0
      && (history == [] ==> prev == None && changes == 0)
      && (history != [] ==> prev == Some(history[|history| - 1]) && changes == |history| - 1)
      && (changes < period ==>
            && (history == [] ==> gainSum == 0.0 == lossSum)
            && (history != [] ==> gainSum == Moves(history, true, changes) && lossSum == Moves(history, false, changes))
            && value == None)
      && (changes >= period ==>
            && avgGain == AverageAt(history, period, true, changes)
            && avgLoss == AverageAt(history, period, false, changes)
            && value == RsiAt(history, period, changes))
    }

    constructor (period: nat)
      requires period > 0
      ensures Valid() && this.period == period && history == []
    {
      this.period := period;
      prev, changes, gainSum, lossSum, avgGain, avgLoss, value, history := None, 0, 0.0, 0.0, 0.0, 0.0, None, [];
    }

    method Update(v: real) returns (r: Value)
      requires Valid()
      modifies this
      ensures Valid() && history == old(history) + [v]
      ensures r == RsiAt(history, period, |history| - 1)
    {
      hide Mul;
      hide ToRsi;
      hide PerPeriod;
      hide RsiAt;
      hide Moves;
      hide AverageAt;
      ghost var before := history;
      history := history + [v];
      MovesStart(history, before);
      if prev.None? {
        prev := Some(v);
        return None;
      }
      var d := v - prev.value;
      prev := Some(v);
      changes := changes + 1;
      var up, down := if d > 0.0 then d else 0.0, if -d > 0.0 then -d else 0.0;
      MovesStep(before, v, period, true, up);
      MovesStep(before, v, period, false, down);
      if changes < period {
        gainSum, lossSum := gainSum + up, lossSum + down;
        return None;
      }
      if changes == period {
        avgGain, avgLoss := PerPeriod(gainSum + up, period), PerPeriod(lossSum + down, period);
      } else {
        avgGain := PerPeriod(Mul(avgGain, (period - 1) as real) + up, period);
        avgLoss := PerPeriod(Mul(avgLoss, (period - 1) as real) + down, period);
      }
      RsiFromAverages(history, period, changes);
      value := Some(ToRsi(avgGain, avgLoss));
      return value;
    }
  }

  lemma MovesStart(history: seq<real>, before: seq<real>)
    requires |history| == |before| + 1
    ensures Moves(history, true, 0) == 0.0 == Moves(history, false, 0)
  {
  }

  /** One more value: the sums and averages of the longer series from those of the shorter one. */
  lemma MovesStep(before: seq<real>, v: real, period: nat, up: bool, move: real)
    requires period > 0 && before != []
    requires var d := v - before[|before| - 1];
             move == if up then (if d > 0.0 then d else 0.0) else (if -d > 0.0 then -d else 0.0)
    ensures var n, history := |before|, before + [v];
            && Moves(history, up, n) == Moves(before, up, n - 1) + move
            && (n == period ==> AverageAt(history, period, up, n) == PerPeriod(Moves(before, up, n - 1) + move, period))
            && (n > period ==>
                  AverageAt(history, period, up, n) == Wilder(AverageAt(before, period, up, n - 1), move, period))
  {
    hide Mul;
    hide PerPeriod;
    var n, history := |before|, before + [v];
    MovesPrefix(before, history, up, n - 1);
    assert move == if up then Gain(history, n) else Loss(history, n);
    if n > period { AveragePrefix(before, history, period, up, n - 1); }
  }

  lemma {:induction false} MovesPrefix(v: seq<real>, w: seq<real>, up: bool, n: nat)
    requires n < |v| <= |w| && v == w[..|v|]
    ensures Moves(v, up, n) == Moves(w, up, n)
  {
    if n != 0 {
      MovesPrefix(v, w, up, n - 1);
      assert v[n] == w[n] && v[n - 1] == w[n - 1];
    }
  }

  lemma {:induction false} AveragePrefix(v: seq<real>, w: seq<real>, period: nat, up: bool, i: nat)
    requires period > 0 && period <= i < |v| <= |w| && v == w[..|v|]
    ensures AverageAt(v, period, up, i) == AverageAt(w, period, up, i)
  {
    hide Mul;
    hide PerPeriod;
    if i == period {
      MovesPrefix(v, w, up, period);
    } else {
      AveragePrefix(v, w, period, up, i - 1);
      assert v[i] == w[i] && v[i - 1] == w[i - 1];
    }
  }

  class Macd {
    const fast: Ema
    const slow: Ema
    const signalEma: Ema
    var line: Value
    var signal: Value
    var histogram: Value
    /** All values seen; not kept by the source. */
    ghost var history: seq<real>

    ghost predicate Valid()
      reads this, fast, slow, signalEma
    {
      && fast != slow && fast != signalEma && slow != signalEma
      && fast.period > 0 && slow.period > 0 && signalEma.period > 0
      && fast.Valid() && slow.Valid() && signalEma.Valid()
      && fast.history == Lift(history) && slow.history == Lift(history)
      && signalEma.history == MacdLines(history, fast.period, slow.period)
      && (|history| < slow.period ==> line == None && signal == None && histogram == None)
      && (|history| >= slow.period ==>
            && line == MacdLineAt(history, fast.period, slow.period, |history| - 1)
            && signal == MacdSignalAt(history, fast.period, slow.period, signalEma.period, |history| - 1)
            && histogram == MacdHistogramAt(history, fast.period, slow.period, signalEma.period, |history| - 1))
    }

    constructor (fastPeriod: nat, slowPeriod: nat, signalPeriod: nat)
      requires fastPeriod > 0 && slowPeriod > 0 && signalPeriod > 0
      ensures Valid() && fresh(fast) && fresh(slow) && fresh(signalEma) && history == []
      ensures fast.period == fastPeriod && slow.period == slowPeriod && signalEma.period == signalPeriod
    {
      fast := new Ema(fastPeriod);
      slow := new Ema(slowPeriod);
      signalEma := new Ema(signalPeriod);
      line, signal, histogram, history := None, None, None, [];
    }

    /** For any three periods: line, signal and histogram are the batch ones at the last index. */
    method Update(v: real) returns (r: Value)
      requires Valid()
      modifies this, fast, slow, signalEma
      ensures Valid() && history == old(history) + [v]
      ensures r == MacdLineAt(history, fast.period, slow.period, |history| - 1)
    {
      hide EmaAt;
      hide Ema.Valid;
      ghost var before := history;
      history := history + [v];
      assert Lift(history) == Lift(before) + [Some(v)];
      EmaWarmUp(history, slow.period, |history| - 1);
      LinesGrow(before, v, fast.period, slow.period);
      var f := fast.Update(Some(v));
      var s := slow.Update(Some(v));
      if s.None? { return None; }
      line := Minus(f, s);
      signal := signalEma.Update(line);
      histogram := if signal.None? then None else Minus(line, signal);
      return line;
    }
  }

  lemma LinesGrow(v: seq<real>, x: real, fast: nat, slow: nat)
    requires fast > 0 && slow > 0
    ensures MacdLines(v + [x], fast, slow)
         == MacdLines(v, fast, slow) + if |v| + 1 < slow then [] else [MacdLineAt(v + [x], fast, slow, |v|)]
  {
    hide EmaAt;
    var w := v + [x];
    forall i: nat | i < |v| ensures MacdLineAt(w, fast, slow, i) == MacdLineAt(v, fast, slow, i) {
      assert Lift(w)[..i + 1] == Lift(v)[..i + 1];
      EmaPrefix(Lift(v), Lift(w), fast, i);
      EmaPrefix(Lift(v), Lift(w), slow, i);
    }
  }

  class Vwap {
    var cumPv: real
    var cumVol: real
    var value: Value
    /** All prices and volumes seen; not kept by the source. */
    ghost var prices: seq<real>
    ghost var volumes: seq<real>

    ghost predicate Valid()
      reads this
    {
      && |prices| == |volumes|
      && cumPv == Dot(prices, volumes, |prices|) && cumVol == Total(volumes, |volumes|)
    }

    constructor ()
      ensures Valid() && prices == [] == volumes
    {
      cumPv, cumVol, value, prices, volumes := 0.0, 0.0, None, [], [];
    }

    method Update(price: real, volume: real) returns (r: real)
      requires Valid()
      modifies this
      ensures Valid() && prices == old(prices) + [price] && volumes == old(volumes) + [volume]
      ensures var n, vol := |prices|, Total(volumes, |volumes|);
              r == if vol == 0.0 then price else Dot(prices, volumes, n) / vol
    {
      hide Mul;
      TotalJoin(volumes, [volume], 1);
      assert Total([volume], 1) == Total([volume], 0) + volume;
      DotPush(prices, volumes, price, volume, |prices|);
      prices, volumes := prices + [price], volumes + [volume];
      cumPv, cumVol := cumPv + Mul(price, volume), cumVol + volume;
      r := if cumVol == 0.0 then price else cumPv / cumVol;
      value := Some(r);
    }
  }

  lemma {:induction false} DotPush(x: seq<real>, y: seq<real>, a: real, b: real, n: nat)
    requires |x| == |y| && n <= |x|
    ensures Dot(x + [a], y + [b], n) == Dot(x, y, n)
    ensures Dot(x + [a], y + [b], |x| + 1) == Dot(x + [a], y + [b], |x|) + Mul(a, b)
  {
    hide Mul;
    if n != 0 { DotPush(x, y, a, b, n - 1); }
  }
}
