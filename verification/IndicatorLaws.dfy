/**
 What the indicators mean, apart from how they are computed: the moving averages in closed form, the
 index as a share of gains, the histogram's direction, the money flow's end points.
 */
module IndicatorLaws {
  import opened Outcomes
  import opened RealAlgebra
  import opened RealSums
  import opened Decay
  import opened Indicators

  // ----- moving averages ------------------------------------------------------

  lemma MeanScales(sum: real, n: nat)
    requires n > 0
    ensures Mul(Mean(sum, n), n as real) == sum
  {
  }

  /** The first mean is that of the first `period` values; each later one moves by what enters and what leaves. */
  lemma SmaMoves(v: seq<real>, period: nat, i: nat)
    requires 0 < period <= i + 1 <= |v|
    ensures SmaAt(v, period, i).Some?
    ensures i + 1 == period ==> Mul(SmaAt(v, period, i).value, period as real) == Total(v, period)
    ensures i >= period ==>
              SmaAt(v, period, i - 1).Some?
              && Mul(SmaAt(v, period, i).value, period as real)
              == Mul(SmaAt(v, period, i - 1).value, period as real) + v[i] - v[i - period]
  {
    hide Mean;
    hide Mul;
    MeanScales(WindowSum(v, period, i), period);
    if i >= period {
      MeanScales(WindowSum(v, period, i - 1), period);
      SlideWindow(v, period, i);
    } else {
      assert v[..i + 1] == v[i + 1 - period..i + 1];
      TotalShift(v[..i + 1], v, period);
    }
  }

  /** Values after the seed. */
  function Later(v: seq<real>, period: nat, i: nat): seq<real>
    requires period <= i + 1 <= |v|
  {
    v[period..i + 1]
  }

  /** The exponential average: the mean of the first `period` values and the later ones, decayed by `1 - 2 / (period + 1)` each. */
  lemma {:induction false} EmaIsDecayed(v: seq<real>, period: nat, i: nat)
    requires 0 < period <= i + 1 <= |v|
    ensures EmaAt(Lift(v), period, i)
         == Some(Decayed(1.0 - 2.0 / (period + 1) as real, Total(v, period) / period as real, Later(v, period, i)))
  {
    hide Mul;
    hide Decayed;
    hide Total;
    var lam, start := 1.0 - 2.0 / (period + 1) as real, Total(v, period) / period as real;
    if i + 1 == period {
      SumOfReals(v, period);
      NothingDecayed(lam, start);
    } else {
      EmaIsDecayed(v, period, i - 1);
      var before := Decayed(lam, start, Later(v, period, i - 1));
      assert Later(v, period, i) == Later(v, period, i - 1) + [v[i]];
      DecayedStep(lam, start, Later(v, period, i - 1), v[i]);
      MulCommutes(1.0 - lam, v[i] - before);
      EmaNext(v, period, i, before);
    }
  }

  lemma EmaNext(v: seq<real>, period: nat, i: nat, before: real)
    requires 0 < period < i + 1 <= |v| && EmaAt(Lift(v), period, i - 1) == Some(before)
    ensures EmaAt(Lift(v), period, i) == Some(before + Mul(v[i] - before, 2.0 / (period + 1) as real))
  {
    hide Mul;
  }

  // ----- MACD -----------------------------------------------------------------

  /** On a flat series every average is the price and the line is 0. */
  lemma {:induction false} EmaOfFlat(v: seq<real>, c: real, period: nat, i: nat)
    requires 0 < period <= i + 1 <= |v| && forall k :: 0 <= k <= i ==> v[k] == c
    ensures EmaAt(Lift(v), period, i) == Some(c)
  {
    hide Mul;
    if i + 1 == period {
      SumOfReals(v, period);
      FlatTotal(v, c, period);
      MulDiv(c, period as real);
    } else {
      EmaOfFlat(v, c, period, i - 1);
      MulUnits(Smoothing(period));
    }
  }

  lemma {:induction false} FlatTotal(v: seq<real>, c: real, n: nat)
    requires n <= |v| && forall k :: 0 <= k < n ==> v[k] == c
    ensures Total(v, n) == Mul(c, n as real)
  {
    if n != 0 { FlatTotal(v, c, n - 1); }
  }

  /**
   When a flat price jumps, the line moves with it by the difference of the two smoothing weights,
   the signal by its own weight of that, and the histogram by the rest.
   */
  lemma MacdFollows(v: seq<real>, c: real, fast: nat, slow: nat, signal: nat, i: nat)
    requires 0 < fast <= slow && 0 < signal && slow + signal <= i + 1 && i < |v| && forall k :: 0 <= k < i ==> v[k] == c
    ensures var jump := v[i] - c;
            var line := Mul(jump, 2.0 / (fast + 1) as real) - Mul(jump, 2.0 / (slow + 1) as real);
            && MacdLineAt(v, fast, slow, i) == Some(line)
            && MacdSignalAt(v, fast, slow, signal, i) == Some(Mul(line, 2.0 / (signal + 1) as real))
            && MacdHistogramAt(v, fast, slow, signal, i) == Some(line - Mul(line, 2.0 / (signal + 1) as real))
  {
    EmaJumps(v, c, fast, i);
    EmaJumps(v, c, slow, i);
    var lines, n := MacdLines(v, fast, slow), i - (slow - 1);
    FlatLines(v, c, fast, slow, i);
    FlatSignal(lines, signal, n - 1);
    assert lines[n] == MacdLineAt(v, fast, slow, i);
    SignalStep(lines, signal, n);
    hide Mul;
    hide EmaAt;
    hide MacdLines;
  }

  lemma EmaJumps(v: seq<real>, c: real, period: nat, i: nat)
    requires 0 < period <= i < |v| && forall k :: 0 <= k < i ==> v[k] == c
    ensures EmaAt(Lift(v), period, i) == Some(c + Mul(v[i] - c, 2.0 / (period + 1) as real))
  {
    hide Mul;
    EmaOfFlat(v, c, period, i - 1);
  }

  lemma SignalStep(lines: seq<Value>, signal: nat, n: nat)
    requires 0 < signal <= n < |lines| && lines[n].Some? && EmaAt(lines, signal, n - 1) == Some(0.0)
    ensures EmaAt(lines, signal, n) == Some(Mul(lines[n].value, 2.0 / (signal + 1) as real))
  {
    hide Mul;
  }

  lemma FlatLines(v: seq<real>, c: real, fast: nat, slow: nat, i: nat)
    requires 0 < fast <= slow <= i < |v| && forall k :: 0 <= k < i ==> v[k] == c
    ensures forall k :: 0 <= k < i - (slow - 1) ==> MacdLines(v, fast, slow)[k] == Some(0.0)
  {
    forall k | 0 <= k < i - (slow - 1) ensures MacdLines(v, fast, slow)[k] == Some(0.0) {
      EmaOfFlat(v, c, fast, slow - 1 + k);
      EmaOfFlat(v, c, slow, slow - 1 + k);
    }
  }

  lemma {:induction false} FlatSignal(lines: seq<Value>, signal: nat, n: nat)
    requires 0 < signal <= n + 1 && n < |lines| && forall k :: 0 <= k <= n ==> lines[k] == Some(0.0)
    ensures EmaAt(lines, signal, n) == Some(0.0)
  {
    if n + 1 == signal {
      FlatSum(lines, signal);
    } else {
      FlatSignal(lines, signal, n - 1);
      MulUnits(Smoothing(signal));
    }
  }

  lemma {:induction false} FlatSum(lines: seq<Value>, n: nat)
    requires n <= |lines| && forall k :: 0 <= k < n ==> lines[k] == Some(0.0)
    ensures SumOf(lines, n) == Some(0.0)
  {
    if n != 0 { FlatSum(lines, n - 1); }
  }

  // ----- RSI ------------------------------------------------------------------

  /** Gains less losses are what the price moved, and no change is both. */
  lemma {:induction false} MovesTelescope(v: seq<real>, n: nat)
    requires n < |v|
    ensures Moves(v, true, n) - Moves(v, false, n) == v[n] - v[0]
    ensures n > 0 ==> Gain(v, n) == 0.0 || Loss(v, n) == 0.0
  {
    if n != 0 { MovesTelescope(v, n - 1); }
  }

  function MovesAfter(v: seq<real>, period: nat, up: bool, i: nat): (m: seq<real>)
    requires period <= i < |v|
    ensures |m| == i - period
    ensures forall k :: 0 <= k < |m| ==> m[k] == if up then Gain(v, period + 1 + k) else Loss(v, period + 1 + k)
  {
    seq(i - period, k requires 0 <= k < i - period => if up then Gain(v, period + 1 + k) else Loss(v, period + 1 + k))
  }

  /** Wilder's average: the mean of the first `period` moves and the later ones, decayed by `1 - 1 / period` each. */
  lemma {:induction false} AverageIsDecayed(v: seq<real>, period: nat, up: bool, i: nat)
    requires 0 < period <= i < |v|
    ensures AverageAt(v, period, up, i)
         == Decayed(1.0 - 1.0 / period as real, Moves(v, up, period) / period as real, MovesAfter(v, period, up, i))
  {
    hide Mul;
    hide Decayed;
    var lam, start := 1.0 - 1.0 / period as real, Moves(v, up, period) / period as real;
    if i == period {
      NothingDecayed(lam, start);
      assert MovesAfter(v, period, up, i) == [];
    } else {
      AverageIsDecayed(v, period, up, i - 1);
      var before, move := MovesAfter(v, period, up, i - 1), if up then Gain(v, i) else Loss(v, i);
      assert MovesAfter(v, period, up, i) == before + [move];
      DecayedStep(lam, start, before, move);
      WilderBlends(Decayed(lam, start, before), move, period);
    }
  }

  lemma WilderBlends(average: real, move: real, period: nat)
    requires period > 0
    ensures Wilder(average, move, period) == average + Mul(1.0 / period as real, move - average)
  {
    var p := period as real;
    assert (average * (p - 1.0) + move) / p == average + 1.0 / p * (move - average) by {
      assert average * (p - 1.0) + move == average * p + (move - average);
      MulDiv(average, p);
      DivAdd(Mul(average, p), move - average, p);
    }
  }

  /** The index is the gains' share of all movement, out of 100; 50 when nothing moved. */
  lemma RsiIsShare(gain: real, loss: real)
    requires gain >= 0.0 && loss >= 0.0
    ensures loss != 0.0 ==> 1.0 + gain / loss != 0.0
    ensures gain + loss > 0.0 ==> Mul(ToRsi(gain, loss), gain + loss) == 100.0 * gain
    ensures gain == 0.0 == loss ==> ToRsi(gain, loss) == 50.0
  {
    if loss != 0.0 {
      QuotientNonNegative(gain, loss);
      var q := gain / loss;
      assert q * loss == gain;
      ShareOfMoves(q, loss);
    }
  }

  lemma ShareOfMoves(q: real, loss: real)
    requires q >= 0.0 && loss > 0.0
    ensures Mul(100.0 - 100.0 / (1.0 + q), q * loss + loss) == 100.0 * (q * loss)
  {
    var w := 1.0 + q;
    var share := 100.0 / w;
    assert share * w == 100.0;
    assert q * loss + loss == w * loss;
    assert share * (w * loss) == (share * w) * loss;
  }

  /** So on a series: the index times all averaged movement is 100 times the averaged gains. */
  lemma RsiAtIsShare(v: seq<real>, period: nat, i: nat)
    requires 0 < period <= i < |v|
    ensures RsiAt(v, period, i).Some?
    ensures var gain, loss, r := AverageAt(v, period, true, i), AverageAt(v, period, false, i), RsiAt(v, period, i).value;
            (gain + loss > 0.0 ==> Mul(r, gain + loss) == 100.0 * gain) && (gain == 0.0 == loss ==> r == 50.0)
  {
    AverageNonNegative(v, period, true, i);
    AverageNonNegative(v, period, false, i);
    RsiIsShare(AverageAt(v, period, true, i), AverageAt(v, period, false, i));
  }

  // ----- Chaikin money flow ---------------------------------------------------

  /** Where the close lies in its bar: 1 at the high, -1 at the low, linear in between, 0 on a bar without range. */
  lemma MultiplierPlaces(high: real, low: real, close: real)
    ensures high == low ==> Multiplier(high, low, close) == 0.0
    ensures high != low ==> Multiplier(high, low, high) == 1.0 && Multiplier(high, low, low) == -1.0
    ensures high != low ==> Mul(Multiplier(high, low, close), high - low) == (close - low) - (high - close)
  {
    if high != low {
      DivSelf(high - low);
      assert (low - high) / (high - low) == -1.0;
    }
  }

  /** The index times the window's volume is the window's signed volume; 0 where nothing traded. */
  lemma CmfIsShare(flow: seq<real>, volume: seq<real>, period: nat, i: nat)
    requires 0 < period <= i + 1 <= |flow| == |volume|
    ensures var f, v := Total(flow[i + 1 - period..i + 1], period), Total(volume[i + 1 - period..i + 1], period);
            CmfAt(flow, volume, period, i).Some?
            && (if v == 0.0 then CmfAt(flow, volume, period, i).value == 0.0 else Mul(CmfAt(flow, volume, period, i).value, v) == f)
  {
    if i + 1 == period { assert flow[..i + 1] == flow[i + 1 - period..i + 1] && volume[..i + 1] == volume[i + 1 - period..i + 1]; }
    hide Total;
  }
}
