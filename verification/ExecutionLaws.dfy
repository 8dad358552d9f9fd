/** What each shipped execution model does with a request: at which price, how much of it, and when not at all. */
module ExecutionLaws {
  import opened Outcomes
  import opened RealAlgebra
  import opened ExecutionModels

  // ----- instant execution ----------------------------------------------------

  /** Everything at once at the close, dearer for a buyer and cheaper for a seller by the cost rate. */
  lemma InstantFills(m: Model, side: Side, requested: int, bars: seq<Bar>, i: nat)
    requires m.Instant? && i < |bars| && BarOk(bars[i])
    ensures Execute(m, side, requested, bars, i).Some?
    ensures var (fills, next) := Execute(m, side, requested, bars, i).value;
            && next == m && (requested <= 0 ==> fills == [])
            && (requested > 0 ==>
                  var close, rate := bars[i].close, m.costRate;
                  fills == [Fill(side, if side == Buy then close + Mul(close, rate) else close - Mul(close, rate), requested)])
  {
    hide Mul;
    AllIn(bars[i].close, side, m.costRate);
    hide Loaded;
  }

  lemma AllIn(x: real, side: Side, k: real)
    ensures Mul(x, Loaded(side, k)) == if side == Buy then x + Mul(x, k) else x - Mul(x, k)
  {
    MulAdd(x, 1.0, Sign(side) * k);
    MulUnits(x);
    MulSub(x, 0.0, k);
  }

  /** What a model tells the engine to budget with: the price point its fills are anchored to and its worst cost. */
  lemma TermsAre(m: Model, bars: seq<Bar>, i: nat)
    requires i < |bars|
    ensures m.Instant? ==> ReferencePrice(m, bars, i) == bars[i].close && WorstCase(m) == m.costRate
    ensures m.LastLook? ==> ReferencePrice(m, bars, i) == bars[i].open && 10000.0 * WorstCase(m) == m.spreadBps
    ensures m.Sliced? ==> ReferencePrice(m, bars, i) == ReferencePrice(m.inner, bars, i) && WorstCase(m) == WorstCase(m.inner)
  {
  }

  // ----- last look ------------------------------------------------------------

  /** The bar moved in the taker's favour by more than the threshold, in basis points of its open. */
  predicate RanAway(side: Side, bar: Bar, threshold: real) {
    var gained := if side == Buy then bar.close - bar.open else bar.open - bar.close;
    10000.0 * gained > Mul(threshold, bar.open)
  }

  lemma FavourIs(side: Side, bar: Bar, threshold: real)
    requires bar.open > 0.0
    ensures FavourableBps(side, bar) > threshold <==> RanAway(side, bar, threshold)
  {
    var gained := if side == Buy then bar.close - bar.open else bar.open - bar.close;
    var bps := FavourableBps(side, bar);
    assert bps * bar.open == 10000.0 * gained by {
      assert Sign(side) * (bar.close - bar.open) == gained;
      assert gained / bar.open * bar.open == gained;
    }
    if bps > threshold { MulPositive(bps - threshold, bar.open); } else { MulNonNegative(threshold - bps, bar.open); }
    MulSub(bar.open, bps, threshold);
    MulSub(bar.open, threshold, bps);
  }

  /**
   Held on the signal bar; rejected exactly when the market ran away, and counted; otherwise filled in
   full at the open with the spread on the taker's side.
   */
  lemma LastLookDecides(spread: real, threshold: real, count: nat, rejects: nat, signalBar: int,
                        side: Side, requested: int, bars: seq<Bar>, i: nat)
    requires i < |bars| && BarOk(bars[i]) && requested > 0
    ensures var m := LastLook(spread, threshold, count, rejects, signalBar);
            && Execute(m, side, requested, bars, i).Some?
            && var (fills, next) := Execute(m, side, requested, bars, i).value;
               var held, against := i == signalBar, RanAway(side, bars[i], threshold);
               && (held || against <==> fills == [])
               && next == (if held then m else if against then m.(rejects := rejects + 1) else m.(fills := count + 1))
               && (fills != [] ==>
                     var k := spread / 10000.0;
                     var price := if side == Buy then bars[i].open + Mul(bars[i].open, k) else bars[i].open - Mul(bars[i].open, k);
                     fills == [Fill(side, price, requested)])
  {
    hide FavourableBps;
    hide RanAway;
    hide Mul;
    FavourIs(side, bars[i], threshold);
    AllIn(bars[i].open, side, spread / 10000.0);
    hide Loaded;
  }

  // ----- icebergs -------------------------------------------------------------

  /** What an iceberg passes on is all it may: one unit more would exceed the request, the tranche or the participation. */
  lemma SliceCapIsLargest(o: Iceberg, requested: int, maxParticipation: real, volume: real)
    ensures var cap := SliceCap(o, requested, maxParticipation, volume);
            && cap <= requested && cap <= o.visible && (maxParticipation > 0.0 ==> cap as real <= Mul(volume, maxParticipation))
            && (cap + 1 > requested || cap + 1 > o.visible
                || (maxParticipation > 0.0 && (cap + 1) as real > Mul(volume, maxParticipation)))
  {
  }

  /** A wrapped execution is the inner model's for that much, or nothing. */
  lemma SlicedFills(m: Model, side: Side, requested: int, bars: seq<Bar>, i: nat)
    requires i < |bars| && BarOk(bars[i]) && m.Sliced? && Honours(m, bars)
    ensures Execute(m, side, requested, bars, i).Some?
    ensures var fills := Execute(m, side, requested, bars, i).value.0;
            if m.iceberg == None || m.iceberg.value.remaining == 0 || requested <= 0 then fills == []
            else
              var cap := SliceCap(m.iceberg.value, requested, m.maxParticipation, bars[i].volume);
              if cap <= 0 then fills == []
              else Execute(m.inner, side, cap, bars, i).Some? && fills == Execute(m.inner, side, cap, bars, i).value.0
  {
    ExecuteKeepsContract(m, side, requested, bars, i, 0);
    hide SliceCap;
    hide AfterFill;
    hide Honours;
  }

  /** Without jitter a tranche is the display size, as far as there is that much left. */
  lemma PlainTranche(o: Iceberg)
    requires o.randomizePct <= 0.0
    ensures var n := NextTranche(o);
            && n.visible <= o.displayQty && n.visible <= o.remaining && (n.visible == o.displayQty || n.visible == o.remaining)
            && n.drawn == o.drawn
  {
  }

  /** With jitter it is the display size scaled by between `1 - pct` and `1 + pct`, rounded to nearest, at least 1; one draw is used. */
  lemma JitteredTranche(o: Iceberg)
    requires o.randomizePct > 0.0 && 0.0 <= o.draws(o.drawn) < 1.0 && o.displayQty >= 0
    ensures NextTranche(o).drawn == o.drawn + 1
    ensures var n, d := NextTranche(o).visible as real, o.displayQty as real;
            && n <= o.remaining as real
            && (n <= 1.0 || n <= d + Mul(d, o.randomizePct) + 0.5)
            && (n == o.remaining as real || n > d - Mul(d, o.randomizePct) - 0.5)
  {
    JitterBounds(o.displayQty as real, o.randomizePct, o.draws(o.drawn));
    hide Mul;
  }

  lemma JitterBounds(d: real, pct: real, u: real)
    requires d >= 0.0 && pct > 0.0 && 0.0 <= u < 1.0
    ensures d - Mul(d, pct) <= d * (1.0 + pct * (2.0 * u - 1.0)) <= d + Mul(d, pct)
  {
    var spread := Mul(d, pct);
    MulNonNegative(d, pct);
    MulNonNegative(spread, 1.0 - u);
    MulNonNegative(spread, u);
    Jittered(d, pct, u);
    hide Mul;
    MulSub(spread, 1.0, u);
    MulUnits(spread);
  }

  lemma Jittered(d: real, pct: real, u: real)
    ensures d * (1.0 + pct * (2.0 * u - 1.0)) == d + 2.0 * Mul(Mul(d, pct), u) - Mul(d, pct)
  {
    assert pct * (2.0 * u - 1.0) == 2.0 * (pct * u) - pct;
    assert d * (1.0 + (2.0 * (pct * u) - pct)) == d + 2.0 * (d * (pct * u)) - d * pct;
    assert d * (pct * u) == d * pct * u;
  }

  /** A fill uses up the tranche first; only an exhausted one is followed by the next. */
  lemma TrancheAfterFill(o: Iceberg, qty: int)
    requires 0 < qty <= o.visible <= o.remaining
    ensures AfterFill(o, qty).Some?
    ensures var n := AfterFill(o, qty).value;
            && n.remaining == o.remaining - qty
            && (qty < o.visible || qty == o.remaining ==> n.visible == o.visible - qty && n.drawn == o.drawn)
            && (qty == o.visible < o.remaining ==> n == NextTranche(o.(visible := 0, remaining := o.remaining - qty)))
  {
  }
}
