/**
 Batch indicators by definition and by loop.  A missing value (NaN in the source) is `None` and
 propagates through arithmetic; `XxxAt` is the value at one index.
 */
module Indicators {
  import opened Outcomes
  import opened RealAlgebra
  import opened RealSums

  type Value = Option<real>

  // ----- arithmetic with missing values ---------------------------------------

  function Plus(a: Value, b: Value): Value { if a.None? || b.None? then None else Some(a.value + b.value) }

  function Minus(a: Value, b: Value): Value { if a.None? || b.None? then None else Some(a.value - b.value) }

  function Times(a: Value, k: real): Value { if a.None? then None else Some(Mul(a.value, k)) }

  function Over(a: Value, n: nat): Value
    requires n > 0
  {
    if a.None? then None else Some(a.value / n as real)
  }

  function SumOf(v: seq<Value>, n: nat): Value
    requires n <= |v|
  {
    if n == 0 then Some(0.0) else Plus(SumOf(v, n - 1), v[n - 1])
  }

  function Lift(v: seq<real>): (l: seq<Value>)
    ensures |l| == |v| && forall i :: 0 <= i < |v| ==> l[i] == Some(v[i])
  {
    seq(|v|, i requires 0 <= i < |v| => Some(v[i]))
  }

  // ----- moving averages ------------------------------------------------------

  function Mean(sum: real, n: nat): real
    requires n > 0
  {
    sum / n as real
  }

  /** Mean of the last `period` values. */
  function SmaAt(v: seq<real>, period: nat, i: nat): Value
    requires period > 0 && i < |v|
  {
    if i + 1 < period then None else Some(Mean(Total(v[i + 1 - period..i + 1], period), period))
  }

  function Smoothing(period: nat): real { 2.0 / (period + 1) as real }

  /** Seeded with the mean of the first `period` values. */
  function EmaAt(v: seq<Value>, period: nat, i: nat): Value
    requires period > 0 && i < |v|
  {
    if i + 1 < period then None
    else if i + 1 == period then Over(SumOf(v, period), period)
    else
      var prev := EmaAt(v, period, i - 1);
      Plus(prev, Times(Minus(v[i], prev), Smoothing(period)))
  }

  lemma {:induction false} SumOfPrefix(v: seq<Value>, w: seq<Value>, n: nat)
    requires n <= |v| && n <= |w| && v[..n] == w[..n]
    ensures SumOf(v, n) == SumOf(w, n)
  {
    if n != 0 {
      assert v[..n - 1] == v[..n][..n - 1] && w[..n - 1] == w[..n][..n - 1];
      assert v[n - 1] == v[..n][n - 1] && w[n - 1] == w[..n][n - 1];
      SumOfPrefix(v, w, n - 1);
    }
  }

  /** An average only sees what came before it. */
  lemma {:induction false} EmaPrefix(v: seq<Value>, w: seq<Value>, period: nat, i: nat)
    requires period > 0 && i < |v| && i < |w| && v[..i + 1] == w[..i + 1]
    ensures EmaAt(v, period, i) == EmaAt(w, period, i)
  {
    hide Smoothing;
    if i + 1 == period {
      SumOfPrefix(v, w, period);
    } else if i + 1 > period {
      assert v[..i] == v[..i + 1][..i] && w[..i] == w[..i + 1][..i];
      assert v[i] == v[..i + 1][i] && w[i] == w[..i + 1][i];
      EmaPrefix(v, w, period, i - 1);
    }
  }

  lemma {:induction false} SumOfReals(v: seq<real>, n: nat)
    requires n <= |v|
    ensures SumOf(Lift(v), n) == Some(Total(v, n))
  {
    if n != 0 { SumOfReals(v, n - 1); }
  }

  /** On real input the average is missing exactly during warm-up. */
  lemma {:induction false} EmaWarmUp(v: seq<real>, period: nat, i: nat)
    requires period > 0 && i < |v|
    ensures EmaAt(Lift(v), period, i).None? <==> i + 1 < period
  {
    if i + 1 == period {
      SumOfReals(v, period);
    } else if i + 1 > period {
      EmaWarmUp(v, period, i - 1);
    }
  }

  method Ema(v: seq<Value>, period: nat) returns (out: seq<Value>)
    requires period > 0
    ensures |out| == |v| && forall i :: 0 <= i < |v| ==> out[i] == EmaAt(v, period, i)
  {
    hide Smoothing;
    out := seq(|v|, _ => None);
    if |v| < period { return; }
    var prev := Over(SumOf(v, period), period);
    out := out[period - 1 := prev];
    var k := Smoothing(period);
    for i := period to |v|
      invariant |out| == |v| && prev == EmaAt(v, period, i - 1)
      invariant forall j :: 0 <= j < i ==> out[j] == EmaAt(v, period, j)
      invariant forall j :: i <= j < |v| ==> out[j] == None
    {
      prev := Plus(prev, Times(Minus(v[i], prev), k));
      out := out[i := prev];
    }
  }

  // ----- MACD -----------------------------------------------------------------

  function MacdLineAt(v: seq<real>, fast: nat, slow: nat, i: nat): Value
    requires fast > 0 && slow > 0 && i < |v|
  {
    Minus(EmaAt(Lift(v), fast, i), EmaAt(Lift(v), slow, i))
  }

  /** The line from the slow average's first value on. */
  function MacdLines(v: seq<real>, fast: nat, slow: nat): (l: seq<Value>)
    requires fast > 0 && slow > 0
    ensures |l| == if |v| < slow then 0 else |v| - (slow - 1)
    ensures forall j :: 0 <= j < |l| ==> l[j] == MacdLineAt(v, fast, slow, slow - 1 + j)
  {
    if |v| < slow then []
    else seq(|v| - (slow - 1), j requires 0 <= j < |v| - (slow - 1) => MacdLineAt(v, fast, slow, slow - 1 + j))
  }

  function MacdSignalAt(v: seq<real>, fast: nat, slow: nat, signal: nat, i: nat): Value
    requires fast > 0 && slow > 0 && signal > 0 && i < |v|
  {
    if i + 1 < slow then None else EmaAt(MacdLines(v, fast, slow), signal, i - (slow - 1))
  }

  function MacdHistogramAt(v: seq<real>, fast: nat, slow: nat, signal: nat, i: nat): Value
    requires fast > 0 && slow > 0 && signal > 0 && i < |v|
  {
    Minus(MacdLineAt(v, fast, slow, i), MacdSignalAt(v, fast, slow, signal, i))
  }

  method Macd(close: seq<real>, fastPeriod: nat, slowPeriod: nat, signalPeriod: nat)
    returns (line: seq<Value>, signal: seq<Value>, hist: seq<Value>)
    requires fastPeriod > 0 && slowPeriod > 0 && signalPeriod > 0
    ensures |line| == |signal| == |hist| == |close|
    ensures forall i :: 0 <= i < |close| ==>
              && line[i] == MacdLineAt(close, fastPeriod, slowPeriod, i)
              && signal[i] == MacdSignalAt(close, fastPeriod, slowPeriod, signalPeriod, i)
              && hist[i] == MacdHistogramAt(close, fastPeriod, slowPeriod, signalPeriod, i)
  {
    hide EmaAt;
    var n := |close|;
    var fast := Ema(Lift(close), fastPeriod);
    var slow := Ema(Lift(close), slowPeriod);
    line := seq(n, i requires 0 <= i < n => Minus(fast[i], slow[i]));
    signal, hist := seq(n, _ => None), seq(n, _ => None);
    var start := slowPeriod - 1;
    forall i | 0 <= i < n && i < start ensures EmaAt(Lift(close), slowPeriod, i) == None {
      EmaWarmUp(close, slowPeriod, i);
    }
    if start < n {
      var valid := line[start..];
      assert valid == MacdLines(close, fastPeriod, slowPeriod);
      var sigValid := Ema(valid, signalPeriod);
      signal := signal[..start] + sigValid;
      hist := hist[..start] + seq(n - start, j requires 0 <= j < n - start => Minus(line[start + j], sigValid[j]));
    }
  }

  // ----- RSI ------------------------------------------------------------------

  function Gain(v: seq<real>, i: nat): (g: real)
    requires 0 < i < |v|
    ensures g >= 0.0
  {
    if v[i] > v[i - 1] then v[i] - v[i - 1] else 0.0
  }

  function Loss(v: seq<real>, i: nat): (l: real)
    requires 0 < i < |v|
    ensures l >= 0.0
  {
    if v[i] < v[i - 1] then v[i - 1] - v[i] else 0.0
  }

  /** Sum of the first `n` gains or losses. */
  function Moves(v: seq<real>, up: bool, n: nat): (s: real)
    requires n < |v|
    ensures s >= 0.0
  {
    if n == 0 then 0.0 else Moves(v, up, n - 1) + if up then Gain(v, n) else Loss(v, n)
  }

  function PerPeriod(x: real, period: nat): real
    requires period > 0
  {
    x / period as real
  }

  function Wilder(average: real, move: real, period: nat): real
    requires period > 0
  {
    PerPeriod(Mul(average, (period - 1) as real) + move, period)
  }

  /** Wilder's average gain or loss after `i` changes. */
  function AverageAt(v: seq<real>, period: nat, up: bool, i: nat): real
    requires period > 0 && period <= i < |v|
  {
    if i == period then PerPeriod(Moves(v, up, period), period)
    else Wilder(AverageAt(v, period, up, i - 1), if up then Gain(v, i) else Loss(v, i), period)
  }

  function ToRsi(gain: real, loss: real): real
    requires loss != 0.0 ==> 1.0 + gain / loss != 0.0
  {
    if loss == 0.0 then (if gain == 0.0 then 50.0 else 100.0) else 100.0 - 100.0 / (1.0 + gain / loss)
  }

  lemma {:induction false} AverageNonNegative(v: seq<real>, period: nat, up: bool, i: nat)
    requires period > 0 && period <= i < |v|
    ensures AverageAt(v, period, up, i) >= 0.0
  {
    hide Mul;
    if i == period {
      QuotientNonNegative(Moves(v, up, period), period as real);
    } else {
      AverageNonNegative(v, period, up, i - 1);
      MulNonNegative(AverageAt(v, period, up, i - 1), (period - 1) as real);
      QuotientNonNegative(Mul(AverageAt(v, period, up, i - 1), (period - 1) as real) + if up then Gain(v, i) else Loss(v, i),
                       period as real);
    }
  }

  lemma RsiDefined(gain: real, loss: real)
    requires gain >= 0.0 && loss >= 0.0
    ensures loss != 0.0 ==> gain / loss >= 0.0
    ensures 0.0 <= ToRsi(gain, loss) <= 100.0
  {
    if loss != 0.0 {
      QuotientNonNegative(gain, loss);
      QuotientNonNegative(100.0, 1.0 + gain / loss);
      QuotientNonNegative(100.0 * (gain / loss), 1.0 + gain / loss);
      DivAdd(100.0, 100.0 * (gain / loss), 1.0 + gain / loss);
      Hundred(gain / loss);
    }
  }

  lemma Hundred(q: real)
    requires q >= 0.0
    ensures (100.0 + 100.0 * q) / (1.0 + q) == 100.0
  {
    assert 100.0 + 100.0 * q == 100.0 * (1.0 + q);
  }

  /** Missing until `period` changes are seen, then between 0 and 100. */
  function RsiAt(v: seq<real>, period: nat, i: nat): (r: Value)
    requires period > 0 && i < |v|
    ensures r.None? <==> i < period
    ensures r.Some? ==> 0.0 <= r.value <= 100.0
  {
    if i < period then None
    else
      AverageNonNegative(v, period, true, i);
      AverageNonNegative(v, period, false, i);
      RsiDefined(AverageAt(v, period, true, i), AverageAt(v, period, false, i));
      Some(ToRsi(AverageAt(v, period, true, i), AverageAt(v, period, false, i)))
  }

  lemma RsiFromAverages(v: seq<real>, period: nat, i: nat)
    requires period > 0 && period <= i < |v|
    ensures AverageAt(v, period, true, i) >= 0.0 && AverageAt(v, period, false, i) >= 0.0
    ensures var gain, loss := AverageAt(v, period, true, i), AverageAt(v, period, false, i);
            (loss != 0.0 ==> 1.0 + gain / loss != 0.0) && RsiAt(v, period, i) == Some(ToRsi(gain, loss))
  {
    AverageNonNegative(v, period, true, i);
    AverageNonNegative(v, period, false, i);
    RsiDefined(AverageAt(v, period, true, i), AverageAt(v, period, false, i));
  }

  method Rsi(v: seq<real>, period: nat) returns (out: seq<Value>)
    requires period > 0
    ensures |out| == |v| && forall i :: 0 <= i < |v| ==> out[i] == RsiAt(v, period, i)
  {
    hide Mul;
    hide ToRsi;
    hide PerPeriod;
    out := seq(|v|, _ => None);
    if |v| <= period { return; }
    var gain, loss := 0.0, 0.0;
    for i := 1 to period + 1
      invariant gain == Moves(v, true, i - 1) && loss == Moves(v, false, i - 1)
    {
      var d := v[i] - v[i - 1];
      if d > 0.0 { gain := gain + d; } else { loss := loss - d; }
    }
    var avgGain, avgLoss := PerPeriod(gain, period), PerPeriod(loss, period);
    AverageNonNegative(v, period, true, period);
    AverageNonNegative(v, period, false, period);
    RsiDefined(avgGain, avgLoss);
    out := out[period := Some(ToRsi(avgGain, avgLoss))];
    for i := period + 1 to |v|
      invariant |out| == |v|
      invariant avgGain == AverageAt(v, period, true, i - 1) && avgLoss == AverageAt(v, period, false, i - 1)
      invariant forall j :: 0 <= j < i ==> out[j] == RsiAt(v, period, j)
      invariant forall j :: i <= j < |v| ==> out[j] == None
    {
      var d := v[i] - v[i - 1];
      avgGain := PerPeriod(Mul(avgGain, (period - 1) as real) + (if d > 0.0 then d else 0.0), period);
      avgLoss := PerPeriod(Mul(avgLoss, (period - 1) as real) + (if -d > 0.0 then -d else 0.0), period);
      AverageNonNegative(v, period, true, i);
      AverageNonNegative(v, period, false, i);
      RsiDefined(avgGain, avgLoss);
      out := out[i := Some(ToRsi(avgGain, avgLoss))];
    }
  }

  // ----- Chaikin money flow ---------------------------------------------------

  function Multiplier(high: real, low: real, close: real): real {
    if high == low then 0.0 else ((close - low) - (high - close)) / (high - low)
  }

  function FlowVolumes(high: seq<real>, low: seq<real>, close: seq<real>, volume: seq<real>): (m: seq<real>)
    requires |high| == |low| == |close| == |volume|
    ensures |m| == |high|
    ensures forall i :: 0 <= i < |high| ==> m[i] == Mul(Multiplier(high[i], low[i], close[i]), volume[i])
  {
    seq(|high|, i requires 0 <= i < |high| => Mul(Multiplier(high[i], low[i], close[i]), volume[i]))
  }

  /** Sum over the window that ends at `i`. */
  function WindowSum(x: seq<real>, period: nat, i: nat): real
    requires i < |x|
  {
    if i + 1 <= period then Total(x[..i + 1], i + 1) else Total(x[i + 1 - period..i + 1], period)
  }

  function CmfAt(flow: seq<real>, volume: seq<real>, period: nat, i: nat): Value
    requires i < |flow| == |volume|
  {
    if i + 1 < period then None
    else if WindowSum(volume, period, i) == 0.0 then Some(0.0)
    else Some(WindowSum(flow, period, i) / WindowSum(volume, period, i))
  }

  /** Adding the newest and dropping the oldest value slides the window by one. */
  lemma SlideWindow(x: seq<real>, period: nat, i: nat)
    requires 0 < period && 0 < i < |x|
    ensures WindowSum(x, period, i) == WindowSum(x, period, i - 1) + x[i] - (if i >= period then x[i - period] else 0.0)
  {
    if i + 1 <= period {
      TotalShift(x[..i + 1], x[..i], i);
    } else {
      var w := x[i - period..i + 1];
      TotalTail(w, period);
      TotalShift(w[1..], x[i + 1 - period..i + 1], period);
      TotalShift(w, x[i - period..i], period);
      if i == period { assert x[i - period..i] == x[..i]; }
    }
  }

  method Cmf(high: seq<real>, low: seq<real>, close: seq<real>, volume: seq<real>, period: nat) returns (out: seq<Value>)
    requires period > 0 && |high| == |low| == |close| == |volume|
    ensures |out| == |high|
    ensures forall i :: 0 <= i < |high| ==> out[i] == CmfAt(FlowVolumes(high, low, close, volume), volume, period, i)
  {
    hide Mul;
    hide WindowSum;
    var n := |high|;
    var flow := FlowVolumes(high, low, close, volume);
    out := seq(n, _ => None);
    var sumFlow, sumVol := 0.0, 0.0;
    for i := 0 to n
      invariant |out| == n
      invariant i == 0 ==> sumFlow == 0.0 == sumVol
      invariant i > 0 ==> sumFlow == WindowSum(flow, period, i - 1) && sumVol == WindowSum(volume, period, i - 1)
      invariant forall j :: 0 <= j < i ==> out[j] == CmfAt(flow, volume, period, j)
      invariant forall j :: i <= j < n ==> out[j] == None
    {
      if i == 0 {
        FirstWindow(flow, period);
        FirstWindow(volume, period);
      } else {
        SlideWindow(flow, period, i);
        SlideWindow(volume, period, i);
      }
      sumFlow, sumVol := sumFlow + flow[i], sumVol + volume[i];
      if i >= period {
        sumFlow, sumVol := sumFlow - flow[i - period], sumVol - volume[i - period];
      }
      if i >= period - 1 {
        out := out[i := Some(if sumVol == 0.0 then 0.0 else sumFlow / sumVol)];
      }
    }
  }

  lemma FirstWindow(x: seq<real>, period: nat)
    requires |x| > 0 && period > 0
    ensures WindowSum(x, period, 0) == x[0]
  {
    assert Total(x[..1], 1) == Total(x[..1], 0) + x[0];
  }
}
