/**
 Execution models: how a parent order turns into fills, bar by bar.  `Honours` is the contract
 the engine relies on; the shipped models and every nesting of icebergs around them keep it, and
 an iceberg's remaining quantity follows the engine's pending quantity exactly.
 */
module ExecutionModels {
  import opened Outcomes
  import opened RealAlgebra

  datatype Side = Buy | Sell
  datatype Bar = Bar(open: real, high: real, low: real, close: real, volume: real)
  /** All-in price: fees and spread are folded in. */
  datatype Fill = Fill(side: Side, price: real, quantity: int)

  function Sign(side: Side): real { if side.Buy? then 1.0 else -1.0 }

  /** All-in price per unit of quoted price: dearer for a buyer, cheaper for a seller. */
  function Loaded(side: Side, rate: real): real { 1.0 + Sign(side) * rate }

  function Notional(f: Fill): real { Mul(f.price, f.quantity as real) }

  function Filled(fills: seq<Fill>): int {
    if fills == [] then 0 else Filled(fills[..|fills| - 1]) + fills[|fills| - 1].quantity
  }

  predicate BarOk(b: Bar) { b.open > 0.0 && b.close > 0.0 && b.volume >= 0.0 }

  // ----- the iceberg state machine --------------------------------------------

  /** `draws(k)` is the k-th random number in [0, 1) of this order's generator. */
  datatype Iceberg = Iceberg(
    displayQty: int, randomizePct: real, draws: nat -> real, drawn: nat, remaining: int, visible: int)

  /** Half-up rounding of the jittered display size, at least 1. */
  function JitteredSize(displayQty: int, randomizePct: real, u: real): (size: int)
    ensures size >= 1
  {
    var size := (displayQty as real * (1.0 + randomizePct * (2.0 * u - 1.0)) + 0.5).Floor;
    if size < 1 then 1 else size
  }

  /** Shows a fresh tranche; a random number is used only when jitter is on. */
  function NextTranche(o: Iceberg): Iceberg {
    var base := if o.randomizePct > 0.0 then JitteredSize(o.displayQty, o.randomizePct, o.draws(o.drawn)) else o.displayQty;
    o.(visible := if base <= o.remaining then base else o.remaining,
       drawn := if o.randomizePct > 0.0 then o.drawn + 1 else o.drawn)
  }

  function NewIceberg(total: int, displayQty: int, randomizePct: real, draws: nat -> real): Option<Iceberg> {
    if total <= 0 || displayQty <= 0 then None
    else Some(NextTranche(Iceberg(displayQty, randomizePct, draws, 0, total, 0)))
  }

  /** `None` where the source raises: a fill that is not positive or exceeds the visible tranche. */
  function AfterFill(o: Iceberg, qty: int): Option<Iceberg> {
    if qty <= 0 || qty > o.visible then None
    else
      var o' := o.(visible := o.visible - qty, remaining := o.remaining - qty);
      Some(if o'.visible == 0 && o'.remaining > 0 then NextTranche(o') else o')
  }

  /** Something is shown exactly while something remains, and never more than remains. */
  predicate Afloat(o: Iceberg) {
    o.displayQty > 0 && 0 <= o.visible <= o.remaining && (o.visible == 0 <==> o.remaining == 0)
  }

  lemma TrancheAfloat(o: Iceberg)
    requires o.displayQty > 0 && o.remaining > 0
    ensures Afloat(NextTranche(o)) && NextTranche(o).remaining == o.remaining
  {
  }

  /** A new iceberg floats; fills within the visible tranche keep it afloat and are subtracted exactly. */
  lemma IcebergFloats(total: int, displayQty: int, randomizePct: real, draws: nat -> real, o: Iceberg, qty: int)
    ensures var n := NewIceberg(total, displayQty, randomizePct, draws);
            (n.Some? <==> total > 0 && displayQty > 0) && (n.Some? ==> Afloat(n.value) && n.value.remaining == total)
    ensures Afloat(o) ==>
              var n := AfterFill(o, qty);
              && (n.Some? <==> 0 < qty <= o.visible)
              && (n.Some? ==> Afloat(n.value) && n.value.remaining == o.remaining - qty)
  {
    hide JitteredSize;
  }

  class IcebergOrder {
    const displayQty: int
    const randomizePct: real
    const draws: nat -> real
    var drawn: nat
    var remaining: int
    var visible: int

    ghost function View(): Iceberg
      reads this
    {
      Iceberg(displayQty, randomizePct, draws, drawn, remaining, visible)
    }

    constructor (total: int, displayQty: int, randomizePct: real, draws: nat -> real)
      requires total > 0 && displayQty > 0
      ensures Some(View()) == NewIceberg(total, displayQty, randomizePct, draws) && Afloat(View()) && remaining == total
    {
      this.displayQty, this.randomizePct, this.draws := displayQty, randomizePct, draws;
      drawn, remaining, visible := 0, total, 0;
      new;
      TrancheAfloat(View());
      LoadTranche();
    }

    method LoadTranche()
      modifies this
      ensures View() == NextTranche(old(View()))
    {
      var size := displayQty;
      if randomizePct > 0.0 {
        size := JitteredSize(displayQty, randomizePct, draws(drawn));
        drawn := drawn + 1;
      }
      visible := if size <= remaining then size else remaining;
    }

    /** `None` on a fill outside the visible tranche, with nothing changed; else whether a fresh tranche was loaded. */
    method OnFill(qty: int) returns (r: Option<bool>)
      requires Afloat(View())
      modifies this
      ensures Afloat(View()) && (r.Some? <==> 0 < qty <= old(visible))
      ensures r.None? ==> View() == old(View())
      ensures r.Some? ==> Some(View()) == AfterFill(old(View()), qty)
      ensures r.Some? ==> (r.value <==> qty == old(visible) && qty < old(remaining))
    {
      hide NextTranche;
      IcebergFloats(0, 0, 0.0, draws, View(), qty);
      if qty <= 0 || qty > visible { return None; }
      visible := visible - qty;
      remaining := remaining - qty;
      if visible == 0 && remaining > 0 {
        LoadTranche();
        return Some(true);
      }
      return Some(false);
    }
  }

  // ----- the models -----------------------------------------------------------

  /**
   `Custom` stands for any other model: `respond` may depend on how often it has been asked,
   so every stateful implementation's behaviour in a run is one such function.
   */
  datatype Model =
    | Instant(costRate: real)
    | Sliced(inner: Model, displayQty: int, randomizePct: real, maxParticipation: real,
             seeds: nat -> nat -> real, parentSeq: nat, iceberg: Option<Iceberg>)
    | LastLook(spreadBps: real, rejectThresholdBps: real, fills: nat, rejects: nat, parentSignalBar: int)
    | Custom(worstCase: real, anchor: nat -> real, respond: (nat, Side, int, nat) -> seq<Fill>, calls: nat)

  function WorstCase(m: Model): real {
    match m
    case Instant(rate) => rate
    case Sliced(inner, _, _, _, _, _, _) => WorstCase(inner)
    case LastLook(spread, _, _, _, _) => spread / 10000.0
    case Custom(worst, _, _, _) => worst
  }

  function ReferencePrice(m: Model, bars: seq<Bar>, i: nat): real
    requires i < |bars|
  {
    match m
    case Instant(_) => bars[i].close
    case Sliced(inner, _, _, _, _, _, _) => ReferencePrice(inner, bars, i)
    case LastLook(_, _, _, _, _) => bars[i].open
    case Custom(_, anchor, _, _) => anchor(i)
  }

  /** Notification of a new parent; `None` where the source raises. */
  function OnParentOrder(m: Model, side: Side, total: int, bar: nat): Option<Model> {
    match m
    case Instant(_) => Some(m)
    case Sliced(inner, display, pct, _, seeds, parentSeq, _) =>
      var o := NewIceberg(total, display, pct, seeds(parentSeq));
      var i := OnParentOrder(inner, side, total, bar);
      if o.None? || i.None? then None
      else Some(m.(inner := i.value, parentSeq := parentSeq + 1, iceberg := o))
    case LastLook(_, _, _, _, _) => Some(m.(parentSignalBar := bar))
    case Custom(_, _, _, _) => Some(m)
  }

  /** How much of a request an iceberg passes on: the visible tranche, within the participation cap. */
  function SliceCap(o: Iceberg, requested: int, maxParticipation: real, volume: real): int {
    var cap := if requested <= o.visible then requested else o.visible;
    if maxParticipation > 0.0 && Mul(volume, maxParticipation).Floor < cap then Mul(volume, maxParticipation).Floor else cap
  }

  /** The move in the taker's favour over the bar, in basis points. */
  function FavourableBps(side: Side, bar: Bar): real
    requires bar.open != 0.0
  {
    Sign(side) * (bar.close - bar.open) / bar.open * 10000.0
  }

  /** Executes up to `requested` on bar `i`; `None` where the source raises. */
  function Execute(m: Model, side: Side, requested: int, bars: seq<Bar>, i: nat): Option<(seq<Fill>, Model)>
    requires i < |bars| && BarOk(bars[i])
    decreases m
  {
    match m
    case Instant(rate) =>
      if requested <= 0 then Some(([], m))
      else Some(([Fill(side, Mul(bars[i].close, Loaded(side, rate)), requested)], m))
    case Sliced(inner, _, _, maxParticipation, _, _, iceberg) =>
      if iceberg.None? || iceberg.value.remaining == 0 || requested <= 0 then Some(([], m))
      else
        var cap := SliceCap(iceberg.value, requested, maxParticipation, bars[i].volume);
        if cap <= 0 then Some(([], m))
        else
          var r := Execute(inner, side, cap, bars, i);
          if r.None? then None
          else
            var (fills, inner') := r.value;
            if Filled(fills) <= 0 then Some((fills, m.(inner := inner')))
            else
              var o := AfterFill(iceberg.value, Filled(fills));
              if o.None? then None else Some((fills, m.(inner := inner', iceberg := o)))
    case LastLook(spread, threshold, count, rejects, parentBar) =>
      if requested <= 0 || i == parentBar then Some(([], m))
      else if FavourableBps(side, bars[i]) > threshold then Some(([], m.(rejects := rejects + 1)))
      else Some(([Fill(side, Mul(bars[i].open, Loaded(side, spread / 10000.0)), requested)], m.(fills := count + 1)))
    case Custom(_, _, respond, calls) =>
      Some((respond(calls, side, requested, i), m.(calls := calls + 1)))
  }

  // ----- the contract ---------------------------------------------------------

  /** Positive quantities within the request; buys at a price between zero and the bound. */
  predicate GoodFills(fills: seq<Fill>, side: Side, requested: int, bound: real) {
    && Filled(fills) <= (if requested <= 0 then 0 else requested)
    && forall k :: 0 <= k < |fills| ==>
         fills[k].side == side && fills[k].quantity > 0 && (side.Buy? ==> 0.0 <= fills[k].price <= bound)
  }

  /** Nothing is sold at a negative price. */
  predicate Paid(fills: seq<Fill>) { forall k :: 0 <= k < |fills| ==> fills[k].price >= 0.0 }

  /** What the engine may rely on, for the bars of a run. */
  ghost predicate Honours(m: Model, bars: seq<Bar>) {
    match m
    case Instant(rate) => -1.0 < rate
    case Sliced(inner, display, _, _, _, _, iceberg) =>
      Honours(inner, bars) && display > 0 && (iceberg.Some? ==> Afloat(iceberg.value))
    case LastLook(spread, threshold, _, _, _) => 0.0 <= spread && threshold > 0.0
    case Custom(worst, anchor, respond, _) =>
      && -1.0 < worst
      && (forall i :: 0 <= i < |bars| ==> anchor(i) > 0.0)
      && (forall calls: nat, side: Side, requested: int, i: nat :: i < |bars| ==>
            GoodFills(respond(calls, side, requested, i), side, requested, Mul(anchor(i), 1.0 + worst)))
  }

  /** A worst case of at most 100%, and no sale that costs money: what keeps cash from going negative. */
  ghost predicate Solvent(m: Model, bars: seq<Bar>) {
    match m
    case Instant(rate) => rate <= 1.0
    case Sliced(inner, _, _, _, _, _, _) => Solvent(inner, bars)
    case LastLook(spread, _, _, _, _) => spread <= 10000.0
    case Custom(worst, _, respond, _) =>
      && worst <= 1.0
      && (forall calls: nat, side: Side, requested: int, i: nat :: i < |bars| ==> Paid(respond(calls, side, requested, i)))
  }

  /** Every iceberg in the nesting holds exactly the pending quantity. */
  predicate Tracks(m: Model, pending: int) {
    match m
    case Instant(_) => true
    case Sliced(inner, _, _, _, _, _, iceberg) =>
      iceberg.Some? && iceberg.value.remaining == pending && Tracks(inner, pending)
    case LastLook(_, _, _, _, _) => true
    case Custom(_, _, _, _) => true
  }

  /** The pricing model is a last-look model. */
  predicate HoldsFirst(m: Model) {
    match m
    case Instant(_) => false
    case Sliced(inner, _, _, _, _, _, _) => HoldsFirst(inner)
    case LastLook(_, _, _, _, _) => true
    case Custom(_, _, _, _) => false
  }

  /** The bar the priced order was decided on, where the model keeps it. */
  function SignalBar(m: Model): int {
    match m
    case Instant(_) => -1
    case Sliced(inner, _, _, _, _, _, _) => SignalBar(inner)
    case LastLook(_, _, _, _, bar) => bar
    case Custom(_, _, _, _) => -1
  }

  /** What never changes about a model. */
  ghost predicate SameTerms(a: Model, b: Model, bars: seq<Bar>) {
    && WorstCase(a) == WorstCase(b) && HoldsFirst(a) == HoldsFirst(b) && Solvent(a, bars) == Solvent(b, bars)
    && forall i :: 0 <= i < |bars| ==> ReferencePrice(a, bars, i) == ReferencePrice(b, bars, i)
  }

  lemma {:induction false} TermsPositive(m: Model, bars: seq<Bar>, i: nat)
    requires Honours(m, bars) && i < |bars| && BarOk(bars[i])
    ensures -1.0 < WorstCase(m) && ReferencePrice(m, bars, i) > 0.0 && (Solvent(m, bars) ==> WorstCase(m) <= 1.0)
    ensures Mul(ReferencePrice(m, bars, i), 1.0 + WorstCase(m)) > 0.0
    decreases m
  {
    if m.Sliced? {
      TermsPositive(m.inner, bars, i);
    } else {
      MulPositive(ReferencePrice(m, bars, i), 1.0 + WorstCase(m));
    }
  }

  /** Announcing a parent of positive size never raises, and from then on every iceberg tracks it. */
  lemma {:induction false} ParentIsTracked(m: Model, side: Side, total: int, bar: nat, bars: seq<Bar>)
    requires Honours(m, bars) && total > 0
    ensures var r := OnParentOrder(m, side, total, bar);
            && r.Some? && Honours(r.value, bars) && Tracks(r.value, total) && SameTerms(m, r.value, bars)
            && (HoldsFirst(m) ==> SignalBar(r.value) == bar)
    decreases m
  {
    hide NextTranche;
    if m.Sliced? {
      ParentIsTracked(m.inner, side, total, bar, bars);
      IcebergFloats(total, m.displayQty, m.randomizePct, m.seeds(m.parentSeq), Iceberg(1, 0.0, m.seeds(m.parentSeq), 0, 0, 0), 1);
      SlicedTerms(m, OnParentOrder(m, side, total, bar).value, bars);
    }
  }

  /** A wrapper's terms are its inner model's. */
  lemma SlicedTerms(a: Model, b: Model, bars: seq<Bar>)
    requires a.Sliced? && b.Sliced? && SameTerms(a.inner, b.inner, bars)
    ensures SameTerms(a, b, bars)
  {
    assert forall i :: 0 <= i < |bars| ==> ReferencePrice(a.inner, bars, i) == ReferencePrice(b.inner, bars, i);
  }

  lemma NoFills()
    ensures Filled([]) == 0
  {
  }

  lemma TermsReflexive(m: Model, bars: seq<Bar>)
    ensures SameTerms(m, m, bars)
  {
  }

  lemma PriceBound(anchor: real, rate: real)
    requires anchor > 0.0 && -1.0 < rate
    ensures Mul(anchor, 1.0 + rate) >= 0.0 && (rate <= 1.0 ==> Mul(anchor, 1.0 - rate) >= 0.0)
  {
    MulNonNegative(anchor, 1.0 + rate);
    if rate <= 1.0 { MulNonNegative(anchor, 1.0 - rate); }
  }

  lemma OneFill(f: Fill)
    ensures Filled([f]) == f.quantity && Filled([]) == 0
  {
    assert [f][..0] == [];
  }

  /** Every execution keeps the contract, never raises, and is followed by the icebergs to the unit. */
  lemma {:induction false} ExecuteKeepsContract(m: Model, side: Side, requested: int, bars: seq<Bar>, i: nat, pending: int)
    requires i < |bars| && BarOk(bars[i]) && Honours(m, bars)
    ensures var r := Execute(m, side, requested, bars, i);
            && r.Some? && Honours(r.value.1, bars) && SameTerms(m, r.value.1, bars)
            && GoodFills(r.value.0, side, requested, Mul(ReferencePrice(m, bars, i), 1.0 + WorstCase(m)))
            && (Solvent(m, bars) ==> Paid(r.value.0))
            && (Tracks(m, pending) ==> Tracks(r.value.1, pending - Filled(r.value.0)))
            && SignalBar(r.value.1) == SignalBar(m)
            && (HoldsFirst(m) && SignalBar(m) == i ==> r.value.0 == [])
    decreases m, 0
  {
    hide NextTranche;
    hide FavourableBps;
    hide SliceCap;
    hide Mul;
    if m.Sliced? {
      SlicedKeepsContract(m, side, requested, bars, i, pending);
    } else if m.Instant? {
      PriceBound(bars[i].close, m.costRate);
      OneFill(Fill(side, Mul(bars[i].close, Loaded(side, m.costRate)), requested));
    } else if m.LastLook? {
      PriceBound(bars[i].open, m.spreadBps / 10000.0);
      OneFill(Fill(side, Mul(bars[i].open, Loaded(side, m.spreadBps / 10000.0)), requested));
    }
  }

  lemma {:induction false} SlicedKeepsContract(m: Model, side: Side, requested: int, bars: seq<Bar>, i: nat, pending: int)
    requires i < |bars| && BarOk(bars[i]) && Honours(m, bars) && m.Sliced?
    ensures var r := Execute(m, side, requested, bars, i);
            && r.Some? && Honours(r.value.1, bars) && SameTerms(m, r.value.1, bars)
            && GoodFills(r.value.0, side, requested, Mul(ReferencePrice(m, bars, i), 1.0 + WorstCase(m)))
            && (Solvent(m, bars) ==> Paid(r.value.0))
            && (Tracks(m, pending) ==> Tracks(r.value.1, pending - Filled(r.value.0)))
            && SignalBar(r.value.1) == SignalBar(m)
            && (HoldsFirst(m) && SignalBar(m) == i ==> r.value.0 == [])
    decreases m.inner, 1
  {
    hide NextTranche;
    hide SliceCap;
    hide AfterFill;
    hide Mul;
    hide FavourableBps;
    hide Filled;
    hide SameTerms;
    TermsReflexive(m, bars);
    NoFills();
    if m.iceberg.Some? && m.iceberg.value.remaining != 0 && requested > 0 {
      var o := m.iceberg.value;
      var cap := SliceCap(o, requested, m.maxParticipation, bars[i].volume);
      SliceCapFits(o, requested, m.maxParticipation, bars[i].volume);
      if cap > 0 {
        ExecuteKeepsContract(m.inner, side, cap, bars, i, pending);
        var fills := Execute(m.inner, side, cap, bars, i).value.0;
        IcebergFloats(0, 0, 0.0, o.draws, o, Filled(fills));
        NothingFilled(fills, side, cap, Mul(ReferencePrice(m, bars, i), 1.0 + WorstCase(m)));
        SlicedTerms(m, Execute(m, side, requested, bars, i).value.1, bars);
      }
    }
  }

  lemma SliceCapFits(o: Iceberg, requested: int, maxParticipation: real, volume: real)
    ensures SliceCap(o, requested, maxParticipation, volume) <= requested
    ensures SliceCap(o, requested, maxParticipation, volume) <= o.visible
    ensures maxParticipation > 0.0 ==> SliceCap(o, requested, maxParticipation, volume) as real <= Mul(volume, maxParticipation)
  {
  }

  /** Positive fills that add up to nothing are no fills. */
  lemma {:induction false} NothingFilled(fills: seq<Fill>, side: Side, requested: int, bound: real)
    requires GoodFills(fills, side, requested, bound)
    ensures Filled(fills) >= |fills| && (Filled(fills) <= 0 ==> fills == [])
  {
    FilledAtLeast(fills);
  }

  lemma {:induction false} FilledAtLeast(fills: seq<Fill>)
    requires forall k :: 0 <= k < |fills| ==> fills[k].quantity > 0
    ensures Filled(fills) >= |fills|
  {
    if fills != [] { FilledAtLeast(fills[..|fills| - 1]); }
  }
}
