/**
 The execution-aware backtester as a state machine: what each step does to cash, position,
 pending quantities and the parent-order records, and what every step keeps.
 */
module BacktestSpec {
  import opened Outcomes
  import opened RealAlgebra
  import opened ExecutionModels

  datatype Signal = BuySignal | SellSignal | HoldSignal
  datatype Reason = Entry | BySignal | StopLoss | TakeProfit | EndOfData
  datatype Parent = Parent(side: Side, signalIndex: int, arrivalPrice: real, reason: Reason, fills: seq<Fill>, bars: seq<int>)
  datatype Trade = Trade(entryBar: int, exitBar: int, entryPrice: real, exitPrice: real, quantity: int,
                         pnl: real, returnPct: real, reason: Reason)
  datatype Config = Config(initialCapital: real, stopLossPct: real, takeProfitPct: real)

  /** `entry` and `exit` are the open parents' positions in `parents`. */
  datatype State = State(
    cash: real, position: int, pendingEntry: int, pendingExit: int, entryCost: real, exitProceeds: real,
    totalEntryQty: int, firstEntryBar: int, entry: Option<nat>, exit: Option<nat>,
    parents: seq<Parent>, trades: seq<Trade>, model: Model)

  // ----- sums over records ----------------------------------------------------

  function Spent(fills: seq<Fill>): real {
    if fills == [] then 0.0 else Spent(fills[..|fills| - 1]) + Notional(fills[|fills| - 1])
  }

  function Profit(trades: seq<Trade>): real {
    if trades == [] then 0.0 else Profit(trades[..|trades| - 1]) + trades[|trades| - 1].pnl
  }

  /** Cash moved by one parent: out for buys, in for sells. */
  function Moved(p: Parent): real { if p.side.Buy? then -Spent(p.fills) else Spent(p.fills) }

  function Ledger(parents: seq<Parent>): real {
    if parents == [] then 0.0 else Ledger(parents[..|parents| - 1]) + Moved(parents[|parents| - 1])
  }

  lemma {:induction false} SumsJoin(a: seq<Fill>, b: seq<Fill>)
    ensures Spent(a + b) == Spent(a) + Spent(b) && Filled(a + b) == Filled(a) + Filled(b)
  {
    if b == [] {
      assert a + b == a;
    } else {
      SumsJoin(a, b[..|b| - 1]);
      assert (a + b)[..|a + b| - 1] == a + b[..|b| - 1];
    }
  }

  lemma {:induction false} LedgerUpdate(parents: seq<Parent>, k: nat, p: Parent)
    requires k < |parents|
    ensures Ledger(parents[k := p]) == Ledger(parents) - Moved(parents[k]) + Moved(p)
  {
    var n := |parents| - 1;
    if k == n {
      assert parents[k := p][..n] == parents[..n];
    } else {
      LedgerUpdate(parents[..n], k, p);
      assert parents[k := p][..n] == parents[..n][k := p];
    }
  }

  lemma LedgerAppend(parents: seq<Parent>, p: Parent)
    ensures Ledger(parents + [p]) == Ledger(parents) + Moved(p)
  {
    assert (parents + [p])[..|parents|] == parents;
  }

  lemma ProfitAppend(trades: seq<Trade>, t: Trade)
    ensures Profit(trades + [t]) == Profit(trades) + t.pnl
  {
    assert (trades + [t])[..|trades|] == trades;
  }

  /** Fills priced within `bound` cost at most their quantity times `bound`. */
  lemma {:induction false} SpentBound(fills: seq<Fill>, side: Side, bound: real)
    requires forall k :: 0 <= k < |fills| ==> fills[k].quantity > 0 && (side.Buy? ==> 0.0 <= fills[k].price <= bound)
    ensures side.Buy? ==> Spent(fills) <= Mul(bound, Filled(fills) as real)
    ensures side.Buy? || Paid(fills) ==> Spent(fills) >= 0.0
  {
    hide Mul;
    if fills == [] {
      MulUnits(bound);
    } else {
      var n := |fills| - 1;
      SpentBound(fills[..n], side, bound);
      var f := fills[n];
      if f.price >= 0.0 { MulNonNegative(f.price, f.quantity as real); }
      if side.Buy? {
        MulNonNegative(bound - f.price, f.quantity as real);
        MulSub(f.quantity as real, bound, f.price);
        MulAdd(bound, Filled(fills[..n]) as real, f.quantity as real);
      }
    }
  }

  /** A request cut to what cash affords costs no more than the cash. */
  lemma AffordableCosts(cash: real, bound: real, request: int)
    requires bound > 0.0 && request <= (cash / bound).Floor
    ensures Mul(bound, request as real) <= cash
  {
    assert request as real <= cash / bound;
    MulNonNegative(bound, cash / bound - request as real);
    MulSub(bound, cash / bound, request as real);
    assert Mul(bound, cash / bound) == cash;
  }

  // ----- what every state keeps -----------------------------------------------

  function Work(s: State): seq<Fill> {
    if s.exit.Some? && s.exit.value < |s.parents| then s.parents[s.exit.value].fills else []
  }

  /** The bar of a parent's first child fill; -1 before it. */
  predicate FirstFilled(p: Parent, bar: int) {
    |p.bars| == |p.fills| && if p.bars == [] then bar == -1 else bar == p.bars[0] >= 0
  }

  /** The open parents' records carry exactly the running totals. */
  ghost predicate Recorded(s: State) {
    && (s.entry.Some? ==>
          && s.entry.value < |s.parents| && s.parents[s.entry.value].side.Buy?
          && s.totalEntryQty == Filled(s.parents[s.entry.value].fills)
          && s.entryCost == Spent(s.parents[s.entry.value].fills)
          && FirstFilled(s.parents[s.entry.value], s.firstEntryBar))
    && (s.entry.None? ==> s.totalEntryQty == 0 && s.entryCost == 0.0 && s.firstEntryBar == -1)
    && (s.exit.Some? ==>
          && s.exit.value < |s.parents| && s.parents[s.exit.value].side.Sell?
          && s.exitProceeds == Spent(s.parents[s.exit.value].fills))
    && (s.exit.None? ==> s.exitProceeds == 0.0)
    && s.totalEntryQty == s.position + Filled(Work(s))
  }

  /** Cash is accounted for twice: by trades and by child fills. */
  ghost predicate Balanced(s: State, initial: real) {
    && s.entryCost >= 0.0
    && s.cash == initial + Profit(s.trades) + s.exitProceeds - s.entryCost
    && s.cash == initial + Ledger(s.parents)
  }

  /** Nothing is overdrawn. */
  predicate Funded(s: State) { s.cash >= 0.0 && s.exitProceeds >= 0.0 }

  /** Position, pending quantities and open parents fit together, also between two fills. */
  ghost predicate Coherent(s: State, now: int) {
    && s.position >= 0 && s.pendingEntry >= 0
    && s.totalEntryQty >= s.position && (s.totalEntryQty == 0 ==> s.entryCost == 0.0)
    && (s.exit.None? ==> s.pendingExit == 0) && (s.exit.Some? ==> s.pendingExit == s.position && s.pendingEntry == 0)
    && (s.entry.None? ==> s.position == 0 && s.pendingEntry == 0 && s.exit.None?)
    && (s.exit.Some? ==> s.totalEntryQty > 0)
    && (s.firstEntryBar >= 0 <==> s.totalEntryQty > 0) && s.firstEntryBar <= now
  }

  /** The model keeps its contract, and its icebergs hold exactly what is pending. */
  ghost predicate ModelInStep(s: State, bars: seq<Bar>) {
    && Honours(s.model, bars)
    && (s.pendingEntry > 0 ==> Tracks(s.model, s.pendingEntry))
    && (s.pendingExit > 0 ==> Tracks(s.model, s.pendingExit))
  }

  /** Fills follow their parent's signal, strictly so under a model that holds first. */
  ghost predicate Timely(s: State, now: int, holds: bool) {
    && (forall k :: 0 <= k < |s.parents| ==>
          && 0 <= s.parents[k].signalIndex <= now
          && forall b :: 0 <= b < |s.parents[k].bars| ==>
               s.parents[k].signalIndex <= s.parents[k].bars[b] && (holds ==> s.parents[k].signalIndex < s.parents[k].bars[b]))
    && (holds && s.entry.Some? && s.exit.None? && s.entry.value < |s.parents| ==>
          SignalBar(s.model) == s.parents[s.entry.value].signalIndex)
    && (holds && s.exit.Some? && s.exit.value < |s.parents| ==>
          SignalBar(s.model) == s.parents[s.exit.value].signalIndex)
  }

  /** What holds between two actions of the engine. */
  ghost predicate Sound(s: State, initial: real, bars: seq<Bar>, now: int) {
    && Recorded(s) && Balanced(s, initial) && Coherent(s, now) && ModelInStep(s, bars)
    && Timely(s, now, HoldsFirst(s.model)) && (Solvent(s.model, bars) ==> Funded(s))
    && (s.exit.Some? ==> s.position > 0)
    && (s.entry.Some? ==> s.position > 0 || s.pendingEntry > 0)
  }

  /** What a run never changes about its model. */
  ghost predicate SameKind(a: Model, b: Model, bars: seq<Bar>) {
    HoldsFirst(a) == HoldsFirst(b) && Solvent(a, bars) == Solvent(b, bars)
  }

  predicate BarsOk(bars: seq<Bar>) {
    forall i :: 0 <= i < |bars| ==> BarOk(bars[i])
  }

  // ----- fills ----------------------------------------------------------------

  function Repeat(x: int, n: nat): (r: seq<int>)
    ensures |r| == n && forall i :: 0 <= i < n ==> r[i] == x
  {
    seq(n, _ => x)
  }

  function Recording(p: Parent, fills: seq<Fill>, i: int): Parent {
    p.(fills := p.fills + fills, bars := p.bars + Repeat(i, |fills|))
  }

  /** Entry fills on bar `i`. */
  function Bought(s: State, fills: seq<Fill>, i: int): State
    requires s.entry.Some? && s.entry.value < |s.parents|
  {
    s.(cash := s.cash - Spent(fills), entryCost := s.entryCost + Spent(fills),
       position := s.position + Filled(fills), totalEntryQty := s.totalEntryQty + Filled(fills),
       pendingEntry := s.pendingEntry - Filled(fills),
       parents := s.parents[s.entry.value := Recording(s.parents[s.entry.value], fills, i)],
       firstEntryBar := if s.firstEntryBar < 0 && fills != [] then i else s.firstEntryBar)
  }

  /** Exit fills on bar `i`. */
  function Sold(s: State, fills: seq<Fill>, i: int): State
    requires s.exit.Some? && s.exit.value < |s.parents|
  {
    s.(cash := s.cash + Spent(fills), exitProceeds := s.exitProceeds + Spent(fills),
       position := s.position - Filled(fills), pendingExit := s.pendingExit - Filled(fills),
       parents := s.parents[s.exit.value := Recording(s.parents[s.exit.value], fills, i)])
  }

  /** The round trip is over: it becomes a trade and the accumulators start afresh. */
  function Closed(s: State, i: int): State
    requires s.totalEntryQty > 0 && s.exit.Some? && s.exit.value < |s.parents|
  {
    var q := s.totalEntryQty as real;
    var pnl := s.exitProceeds - s.entryCost;
    s.(trades := s.trades + [Trade(s.firstEntryBar, i, s.entryCost / q, s.exitProceeds / q, s.totalEntryQty, pnl,
                                   if s.entryCost == 0.0 then 0.0 else pnl / s.entryCost, s.parents[s.exit.value].reason)],
       entry := None, exit := None, firstEntryBar := -1, entryCost := 0.0, exitProceeds := 0.0, totalEntryQty := 0)
  }

  lemma BoughtRecorded(s: State, fills: seq<Fill>, i: int)
    requires Recorded(s) && s.entry.Some? && s.exit.None? && i >= 0
    ensures Recorded(Bought(s, fills, i))
    ensures Ledger(Bought(s, fills, i).parents) == Ledger(s.parents) - Spent(fills)
  {
    var k := s.entry.value;
    SumsJoin(s.parents[k].fills, fills);
    LedgerUpdate(s.parents, k, Recording(s.parents[k], fills, i));
  }

  lemma SoldRecorded(s: State, fills: seq<Fill>, i: int)
    requires Recorded(s) && s.exit.Some? && s.entry.Some?
    ensures Recorded(Sold(s, fills, i))
    ensures Ledger(Sold(s, fills, i).parents) == Ledger(s.parents) + Spent(fills)
  {
    var k := s.exit.value;
    SumsJoin(s.parents[k].fills, fills);
    LedgerUpdate(s.parents, k, Recording(s.parents[k], fills, i));
  }

  /** Fills on bar `i` keep the records timely: a model that holds first has none on the signal bar. */
  lemma RecordingTimely(s: State, k: nat, fills: seq<Fill>, i: int, holds: bool)
    requires Timely(s, i, holds) && k < |s.parents|
    requires holds && fills != [] ==> s.parents[k].signalIndex < i
    ensures Timely(s.(parents := s.parents[k := Recording(s.parents[k], fills, i)]), i, holds)
  {
  }

  /** The engine's situation at bar `i`. */
  ghost predicate At(s: State, initial: real, bars: seq<Bar>, i: nat) {
    BarsOk(bars) && i < |bars| && Sound(s, initial, bars, i)
  }

  // ----- working an entry -----------------------------------------------------

  /** What the cash pays for at the model's own anchor and worst case. */
  function Affordable(cash: real, m: Model, anchor: real): int
    requires Mul(anchor, 1.0 + WorstCase(m)) > 0.0
  {
    (cash / Mul(anchor, 1.0 + WorstCase(m))).Floor
  }

  function Least(a: int, b: int): int { if a <= b then a else b }

  /** Fills that fit the pending entry and the cash keep the state sound. */
  lemma BoughtKeeps(s: State, initial: real, bars: seq<Bar>, i: nat, request: int, bound: real, fills: seq<Fill>, m: Model)
    requires At(s, initial, bars, i) && s.pendingEntry > 0
    requires GoodFills(fills, Buy, request, bound) && 0 < request <= s.pendingEntry && Mul(bound, request as real) <= s.cash && bound > 0.0
    requires Honours(m, bars) && SameTerms(s.model, m, bars) && Tracks(m, s.pendingEntry - Filled(fills))
    requires SignalBar(m) == SignalBar(s.model) && (HoldsFirst(s.model) && SignalBar(s.model) == i ==> fills == [])
    ensures s.entry.Some? && s.entry.value < |s.parents|
    ensures Sound(Bought(s.(model := m), fills, i), initial, bars, i)
  {
    hide Mul;
    hide Honours;
    hide Tracks;
    hide Filled;
    hide Spent;
    hide Ledger;
    hide Profit;
    hide SameTerms;
    hide Recorded;
    hide Timely;
    hide Balanced;
    hide GoodFills;
    RecordedEntry(s);
    SameHolding(s.model, m, bars);
    NothingFilled(fills, Buy, request, bound);
    EmptySpent(fills);
    BoughtRecords(s, initial, bars, i, request, bound, fills, m);
  }

  lemma RecordedEntry(s: State)
    requires Recorded(s)
    ensures s.entry.Some? ==> s.entry.value < |s.parents|
  {
  }

  /** The entry's records after its fills. */
  lemma BoughtRecords(s: State, initial: real, bars: seq<Bar>, i: nat, request: int, bound: real, fills: seq<Fill>, m: Model)
    requires At(s, initial, bars, i) && s.entry.Some? && s.entry.value < |s.parents| && s.exit.None? && bound > 0.0
    requires GoodFills(fills, Buy, request, bound) && 0 < request && Mul(bound, request as real) <= s.cash
    requires HoldsFirst(m) == HoldsFirst(s.model)
    requires SignalBar(m) == SignalBar(s.model) && (HoldsFirst(s.model) && SignalBar(s.model) == i ==> fills == [])
    ensures var r := Bought(s.(model := m), fills, i);
            && Recorded(r) && Balanced(r, initial) && Timely(r, i, HoldsFirst(m)) && Filled(fills) <= request
            && (Solvent(s.model, bars) ==> Funded(r))
  {
    hide Mul;
    hide Filled;
    hide Spent;
    hide Ledger;
    hide Recorded;
    hide Balanced;
    hide Timely;
    SpentBound(fills, Buy, bound);
    MulNonNegative(bound, request as real - Filled(fills) as real);
    MulSub(bound, request as real, Filled(fills) as real);
    BoughtRecorded(s, fills, i);
    BoughtTimely(s, bars, i, fills, m);
    BoughtBalanced(s, m, initial, fills, i);
    RecordedAnyModel(Bought(s, fills, i), m);
    assert Bought(s, fills, i).(model := m) == Bought(s.(model := m), fills, i);
  }

  lemma EmptySpent(fills: seq<Fill>)
    ensures fills == [] ==> Spent(fills) == 0.0 && Filled(fills) == 0
  {
    hide Notional;
  }

  lemma RecordedAnyModel(s: State, m: Model)
    requires Recorded(s)
    ensures Recorded(s.(model := m))
  {
    hide Filled;
    hide Spent;
  }

  lemma BoughtBalanced(s: State, m: Model, initial: real, fills: seq<Fill>, i: int)
    requires Balanced(s, initial) && s.entry.Some? && s.entry.value < |s.parents| && 0.0 <= Spent(fills)
    requires Ledger(Bought(s, fills, i).parents) == Ledger(s.parents) - Spent(fills)
    ensures Balanced(Bought(s.(model := m), fills, i), initial)
  {
    hide Spent;
    hide Ledger;
    hide Profit;
  }

  lemma BoughtTimely(s: State, bars: seq<Bar>, i: nat, fills: seq<Fill>, m: Model)
    requires Timely(s, i, HoldsFirst(s.model)) && s.entry.Some? && s.entry.value < |s.parents| && s.exit.None?
    requires SignalBar(m) == SignalBar(s.model) && (HoldsFirst(s.model) && SignalBar(s.model) == i ==> fills == [])
    ensures Timely(Bought(s.(model := m), fills, i), i, HoldsFirst(s.model))
  {
    RecordingTimely(s, s.entry.value, fills, i, HoldsFirst(s.model));
  }

  /** One bar's work on the entry: cut to the cash, executed by the model. */
  ghost function WorkEntry(s: State, initial: real, bars: seq<Bar>, i: nat): (r: State)
    requires At(s, initial, bars, i) && s.pendingEntry > 0
    ensures At(r, initial, bars, i) && SameKind(s.model, r.model, bars)
  {
    TermsPositive(s.model, bars, i);
    var anchor := ReferencePrice(s.model, bars, i);
    var request := Least(s.pendingEntry, Affordable(s.cash, s.model, anchor));
    if request <= 0 then s
    else
      ExecuteKeepsContract(s.model, Buy, request, bars, i, s.pendingEntry);
      AffordableCosts(s.cash, Mul(anchor, 1.0 + WorstCase(s.model)), request);
      var (fills, m) := Execute(s.model, Buy, request, bars, i).value;
      BoughtKeeps(s, initial, bars, i, request, Mul(anchor, 1.0 + WorstCase(s.model)), fills, m);
      Bought(s.(model := m), fills, i)
  }

  // ----- working an exit ------------------------------------------------------

  lemma ClosedKeeps(s: State, initial: real, bars: seq<Bar>, i: nat)
    requires BarsOk(bars) && i < |bars| && Recorded(s) && Balanced(s, initial) && Timely(s, i, HoldsFirst(s.model))
    requires s.entry.Some? && s.exit.Some? && s.position == 0 == s.pendingExit == s.pendingEntry && s.totalEntryQty > 0
    requires Honours(s.model, bars)
    requires Solvent(s.model, bars) ==> Funded(s)
    ensures Sound(Closed(s, i), initial, bars, i)
  {
    RecordedExit(s);
    ClosedRecorded(s, i);
    ClosedBalanced(s, initial, i);
    ClosedParts(s, bars, i);
    hide Recorded;
    hide Balanced;
    hide Coherent;
    hide ModelInStep;
    hide Timely;
    hide Honours;
    hide Solvent;
    hide Closed;
  }

  lemma ClosedParts(s: State, bars: seq<Bar>, i: nat)
    requires s.totalEntryQty > 0 && s.exit.Some? && s.exit.value < |s.parents|
    requires s.position == 0 == s.pendingExit == s.pendingEntry && Honours(s.model, bars) && Timely(s, i, HoldsFirst(s.model))
    ensures var r := Closed(s, i);
            && Coherent(r, i) && ModelInStep(r, bars) && Timely(r, i, HoldsFirst(r.model))
            && r.entry.None? && r.exit.None? && r.model == s.model && r.cash == s.cash && r.exitProceeds == 0.0
  {
    hide Honours;
  }

  lemma ClosedRecorded(s: State, i: nat)
    requires s.totalEntryQty > 0 && s.exit.Some? && s.exit.value < |s.parents| && s.position == 0
    ensures Recorded(Closed(s, i))
  {
  }

  lemma ClosedBalanced(s: State, initial: real, i: nat)
    requires s.totalEntryQty > 0 && s.exit.Some? && s.exit.value < |s.parents| && Balanced(s, initial)
    ensures Balanced(Closed(s, i), initial)
  {
    hide Ledger;
    hide Profit;
    ProfitAppend(s.trades, Closed(s, i).trades[|s.trades|]);
  }

  lemma RecordedExit(s: State)
    requires Recorded(s)
    ensures s.exit.Some? ==> s.exit.value < |s.parents|
  {
  }

  lemma SoldKeeps(s: State, initial: real, bars: seq<Bar>, i: nat, fills: seq<Fill>, m: Model, bound: real)
    requires At(s, initial, bars, i) && s.exit.Some?
    requires GoodFills(fills, Sell, s.pendingExit, bound) && (Solvent(s.model, bars) ==> Paid(fills))
    requires Honours(m, bars) && SameTerms(s.model, m, bars) && Tracks(m, s.pendingExit - Filled(fills))
    requires SignalBar(m) == SignalBar(s.model) && (HoldsFirst(s.model) && SignalBar(s.model) == i ==> fills == [])
    ensures s.exit.value < |s.parents|
    ensures var r := Sold(s.(model := m), fills, i);
            && r.totalEntryQty > 0 && r.position == r.pendingExit >= 0
            && Sound(if r.position == 0 then Closed(r, i) else r, initial, bars, i)
  {
    hide Mul;
    hide Honours;
    hide Tracks;
    hide Filled;
    hide Spent;
    hide Ledger;
    hide Profit;
    hide SameTerms;
    hide Recorded;
    hide Balanced;
    hide Timely;
    hide GoodFills;
    RecordedExit(s);
    SameHolding(s.model, m, bars);
    NothingFilled(fills, Sell, s.pendingExit, bound);
    SoldRecords(s, initial, bars, i, fills, m, bound);
    var r := Sold(s.(model := m), fills, i);
    if r.position == 0 {
      ClosedKeeps(r, initial, bars, i);
    }
  }

  /** The exit's records after its fills. */
  lemma SoldRecords(s: State, initial: real, bars: seq<Bar>, i: nat, fills: seq<Fill>, m: Model, bound: real)
    requires At(s, initial, bars, i) && s.exit.Some? && s.exit.value < |s.parents|
    requires GoodFills(fills, Sell, s.pendingExit, bound) && HoldsFirst(m) == HoldsFirst(s.model)
    requires Solvent(s.model, bars) ==> Paid(fills)
    requires SignalBar(m) == SignalBar(s.model) && (HoldsFirst(s.model) && SignalBar(s.model) == i ==> fills == [])
    ensures var r := Sold(s.(model := m), fills, i);
            && Recorded(r) && Balanced(r, initial) && Timely(r, i, HoldsFirst(m)) && Filled(fills) <= s.pendingExit
            && (Solvent(s.model, bars) ==> Funded(r))
  {
    hide Mul;
    hide Filled;
    hide Spent;
    hide Ledger;
    hide Recorded;
    hide Balanced;
    hide Timely;
    SpentBound(fills, Sell, bound);
    SoldRecorded(s, fills, i);
    SoldTimely(s, bars, i, fills, m);
    SoldBalanced(s, m, initial, fills, i);
    RecordedAnyModel(Sold(s, fills, i), m);
    assert Sold(s, fills, i).(model := m) == Sold(s.(model := m), fills, i);
  }

  lemma SoldBalanced(s: State, m: Model, initial: real, fills: seq<Fill>, i: int)
    requires Balanced(s, initial) && s.exit.Some? && s.exit.value < |s.parents|
    requires Ledger(Sold(s, fills, i).parents) == Ledger(s.parents) + Spent(fills)
    ensures Balanced(Sold(s.(model := m), fills, i), initial)
  {
    hide Spent;
    hide Ledger;
    hide Profit;
  }

  lemma SoldTimely(s: State, bars: seq<Bar>, i: nat, fills: seq<Fill>, m: Model)
    requires Timely(s, i, HoldsFirst(s.model)) && s.exit.Some? && s.exit.value < |s.parents|
    requires SignalBar(m) == SignalBar(s.model) && (HoldsFirst(s.model) && SignalBar(s.model) == i ==> fills == [])
    ensures Timely(Sold(s.(model := m), fills, i), i, HoldsFirst(s.model))
  {
    RecordingTimely(s, s.exit.value, fills, i, HoldsFirst(s.model));
  }

  lemma SameHolding(a: Model, b: Model, bars: seq<Bar>)
    requires SameTerms(a, b, bars)
    ensures SameKind(a, b, bars)
  {
  }

  /** One bar's work on the exit; a finished exit closes the round trip. */
  ghost function WorkExit(s: State, initial: real, bars: seq<Bar>, i: nat): (r: State)
    requires At(s, initial, bars, i) && s.exit.Some?
    ensures At(r, initial, bars, i) && SameKind(s.model, r.model, bars)
  {
    ExecuteKeepsContract(s.model, Sell, s.pendingExit, bars, i, s.pendingExit);
    var (fills, m) := Execute(s.model, Sell, s.pendingExit, bars, i).value;
    SoldKeeps(s, initial, bars, i, fills, m, Mul(ReferencePrice(s.model, bars, i), 1.0 + WorstCase(s.model)));
    var t := Sold(s.(model := m), fills, i);
    if t.position == 0 && t.pendingExit == 0 then Closed(t, i) else t
  }

  // ----- new parents ----------------------------------------------------------

  ghost function StartEntry(s: State, bars: seq<Bar>, i: nat, target: int): State
    requires i < |bars| && Honours(s.model, bars) && target > 0
  {
    ParentIsTracked(s.model, Buy, target, i, bars);
    s.(entry := Some(|s.parents|), parents := s.parents + [Parent(Buy, i, bars[i].close, Entry, [], [])],
       entryCost := 0.0, exitProceeds := 0.0, totalEntryQty := 0, firstEntryBar := -1,
       pendingEntry := target, model := OnParentOrder(s.model, Buy, target, i).value)
  }

  ghost function StartExit(s: State, bars: seq<Bar>, i: nat, reason: Reason): State
    requires i < |bars| && Honours(s.model, bars) && s.position > 0
  {
    ParentIsTracked(s.model, Sell, s.position, i, bars);
    s.(pendingEntry := 0, exit := Some(|s.parents|),
       parents := s.parents + [Parent(Sell, i, bars[i].close, reason, [], [])],
       pendingExit := s.position, model := OnParentOrder(s.model, Sell, s.position, i).value)
  }

  lemma StartEntryKeeps(s: State, initial: real, bars: seq<Bar>, i: nat, target: int)
    requires At(s, initial, bars, i) && s.position == 0 == s.pendingEntry == s.pendingExit && target > 0
    ensures At(StartEntry(s, bars, i, target), initial, bars, i)
    ensures SameKind(s.model, StartEntry(s, bars, i, target).model, bars)
  {
    hide Honours;
    hide Tracks;
    hide OnParentOrder;
    hide Solvent;
    hide Ledger;
    hide Profit;
    ParentIsTracked(s.model, Buy, target, i, bars);
    LedgerAppend(s.parents, Parent(Buy, i, bars[i].close, Entry, [], []));
  }

  lemma StartExitKeeps(s: State, initial: real, bars: seq<Bar>, i: nat, reason: Reason)
    requires At(s, initial, bars, i) && s.position > 0 && s.exit.None?
    ensures At(StartExit(s, bars, i, reason), initial, bars, i)
    ensures SameKind(s.model, StartExit(s, bars, i, reason).model, bars)
  {
    hide Honours;
    hide Tracks;
    hide OnParentOrder;
    hide Solvent;
    hide Ledger;
    hide Profit;
    ParentIsTracked(s.model, Sell, s.position, i, bars);
    LedgerAppend(s.parents, Parent(Sell, i, bars[i].close, reason, [], []));
  }

  // ----- one bar --------------------------------------------------------------

  /** 1. Keep working whatever parent is open. */
  ghost function WorkOpen(s: State, initial: real, bars: seq<Bar>, i: nat): (r: State)
    requires At(s, initial, bars, i)
    ensures At(r, initial, bars, i) && SameKind(s.model, r.model, bars)
  {
    if s.pendingExit > 0 then WorkExit(s, initial, bars, i)
    else if s.pendingEntry > 0 then WorkEntry(s, initial, bars, i)
    else s
  }

  /** Stop before target, both against the average all-in entry price. */
  ghost function Trigger(s: State, config: Config, bar: Bar): Option<Reason>
    requires s.totalEntryQty != 0
  {
    var avgEntry := s.entryCost / s.totalEntryQty as real;
    if config.stopLossPct > 0.0 && bar.low <= Mul(avgEntry, 1.0 - config.stopLossPct) then Some(StopLoss)
    else if config.takeProfitPct > 0.0 && bar.high >= Mul(avgEntry, 1.0 + config.takeProfitPct) then Some(TakeProfit)
    else None
  }

  /** 2. Intrabar risk exits, from the bar after the first entry fill. */
  ghost function CheckRisk(s: State, initial: real, config: Config, bars: seq<Bar>, i: nat): (r: State)
    requires At(s, initial, bars, i)
    ensures At(r, initial, bars, i) && SameKind(s.model, r.model, bars)
  {
    if s.position <= 0 || s.pendingExit > 0 || s.firstEntryBar < 0 || i <= s.firstEntryBar then s
    else
      var reason := Trigger(s, config, bars[i]);
      if reason.None? then s
      else
        StartExitKeeps(s, initial, bars, i, reason.value);
        WorkExit(StartExit(s, bars, i, reason.value), initial, bars, i)
  }

  lemma AbandonKeeps(s: State, initial: real, bars: seq<Bar>, i: nat)
    requires At(s, initial, bars, i) && s.exit.None?
    ensures s.position == 0 ==> At(s.(pendingEntry := 0, entry := None), initial, bars, i)
    ensures s.position > 0 ==> At(s.(pendingEntry := 0), initial, bars, i)
  {
  }

  /** 3. The strategy's signal at the close. */
  ghost function OnSignal(s: State, initial: real, bars: seq<Bar>, i: nat, signal: Signal): (r: State)
    requires At(s, initial, bars, i)
    ensures At(r, initial, bars, i) && SameKind(s.model, r.model, bars)
  {
    if signal.BuySignal? && s.position == 0 && s.pendingEntry == 0 && s.pendingExit == 0 then
      TermsPositive(s.model, bars, i);
      MulPositive(bars[i].close, 1.0 + WorstCase(s.model));
      var target := Affordable(s.cash, s.model, bars[i].close);
      if target <= 0 then s
      else
        StartEntryKeeps(s, initial, bars, i, target);
        WorkEntry(StartEntry(s, bars, i, target), initial, bars, i)
    else if signal.SellSignal? && s.pendingExit == 0 && (s.position > 0 || s.pendingEntry > 0) then
      AbandonKeeps(s, initial, bars, i);
      if s.position > 0 then
        StartExitKeeps(s.(pendingEntry := 0), initial, bars, i, BySignal);
        WorkExit(StartExit(s.(pendingEntry := 0), bars, i, BySignal), initial, bars, i)
      else s.(pendingEntry := 0, entry := None)
    else s
  }

  ghost function OneBar(s: State, initial: real, config: Config, bars: seq<Bar>, i: nat, signal: Signal): (r: State)
    requires At(s, initial, bars, i)
    ensures At(r, initial, bars, i) && SameKind(s.model, r.model, bars)
  {
    OnSignal(CheckRisk(WorkOpen(s, initial, bars, i), initial, config, bars, i), initial, bars, i, signal)
  }

  // ----- whole runs -----------------------------------------------------------

  ghost function Initial(config: Config, m: Model): State {
    State(config.initialCapital, 0, 0, 0, 0.0, 0.0, 0, -1, None, None, [], [], m)
  }

  ghost predicate Runnable(config: Config, bars: seq<Bar>, m: Model) {
    config.initialCapital >= 0.0 && |bars| > 0 && BarsOk(bars) && Honours(m, bars)
  }

  lemma InitialSound(config: Config, bars: seq<Bar>, m: Model, now: int)
    requires Runnable(config, bars, m) && now >= 0
    ensures Sound(Initial(config, m), config.initialCapital, bars, now)
  {
  }

  lemma SoundLater(s: State, initial: real, bars: seq<Bar>, now: int)
    requires Sound(s, initial, bars, now)
    ensures Sound(s, initial, bars, now + 1)
  {
  }

  /** The state after the first `n` bars, for any strategy, bars and model. */
  ghost function Run(config: Config, bars: seq<Bar>, m: Model, signals: seq<Signal>, n: nat): (r: State)
    requires Runnable(config, bars, m) && n <= |bars| == |signals|
    ensures Sound(r, config.initialCapital, bars, if n == 0 then 0 else n - 1) && SameKind(m, r.model, bars)
  {
    if n == 0 then
      InitialSound(config, bars, m, 0);
      Initial(config, m)
    else
      var before := Run(config, bars, m, signals, n - 1);
      assert Sound(before, config.initialCapital, bars, n - 1) by {
        if n > 1 { SoundLater(before, config.initialCapital, bars, n - 2); }
      }
      OneBar(before, config.initialCapital, config, bars, n - 1, signals[n - 1])
  }

  /** Every state a run passes through between actions: no orphaned quantity, books that balance, no overdraft under a solvent model. */
  lemma RunIsSound(config: Config, bars: seq<Bar>, m: Model, signals: seq<Signal>, n: nat)
    requires Runnable(config, bars, m) && n <= |bars| == |signals|
    ensures var s := Run(config, bars, m, signals, n);
            && (Solvent(m, bars) ==> s.cash >= 0.0) && s.position >= 0
            && (s.pendingExit == 0 || s.pendingExit == s.position)
            && s.totalEntryQty == s.position + Filled(Work(s))
            && s.cash == config.initialCapital + Profit(s.trades) + s.exitProceeds - s.entryCost
            && s.cash == config.initialCapital + Ledger(s.parents)
  {
  }

  /** No fill predates its signal, and a model that holds first never fills on the signal bar. */
  lemma RunIsTimely(config: Config, bars: seq<Bar>, m: Model, signals: seq<Signal>, n: nat, k: nat, b: nat)
    requires Runnable(config, bars, m) && n <= |bars| == |signals|
    requires k < |Run(config, bars, m, signals, n).parents| && b < |Run(config, bars, m, signals, n).parents[k].bars|
    ensures var p := Run(config, bars, m, signals, n).parents[k];
            p.signalIndex <= p.bars[b] && (HoldsFirst(m) ==> p.signalIndex < p.bars[b])
  {
  }

  // ----- the end of the data --------------------------------------------------

  /** Position closed at the last close less the worst-case cost. */
  ghost function ForceClose(s: State, bars: seq<Bar>, last: nat): State
    requires last < |bars| && Coherent(s, last) && Recorded(s)
  {
    var s0 := s.(pendingEntry := 0);
    if s0.position <= 0 then s0
    else
      var s1 := if s0.exit.Some? then s0
                else s0.(exit := Some(|s0.parents|),
                         parents := s0.parents + [Parent(Sell, last, bars[last].close, EndOfData, [], [])]);
      var fill := Fill(Sell, Mul(bars[last].close, 1.0 - WorstCase(s.model)), s1.position);
      Closed(Sold(s1, [fill], last).(position := 0, pendingExit := 0), last)
  }

  lemma OneFillSpent(f: Fill)
    ensures Spent([f]) == Notional(f) && Filled([f]) == f.quantity
  {
    assert [f][..0] == [];
  }

  lemma WithoutPending(s: State, initial: real)
    requires Recorded(s) && Balanced(s, initial)
    ensures Recorded(s.(pendingEntry := 0)) && Balanced(s.(pendingEntry := 0), initial)
  {
  }

  lemma NewExitKeeps(s: State, initial: real, p: Parent)
    requires Recorded(s) && Balanced(s, initial) && s.exit.None? && p.side.Sell? && p.fills == []
    ensures var r := s.(exit := Some(|s.parents|), parents := s.parents + [p]);
            Recorded(r) && Balanced(r, initial) && r.exit.value < |r.parents|
  {
    LedgerAppend(s.parents, p);
  }

  lemma LastTrade(s: State, initial: real, i: int)
    requires Balanced(s, initial) && s.totalEntryQty > 0 && s.exit.Some? && s.exit.value < |s.parents| && s.position == 0
    ensures var r := Closed(s, i);
            && r.cash == initial + Profit(r.trades) && r.cash == initial + Ledger(r.parents)
            && r.cash == s.cash && |r.trades| == |s.trades| + 1
  {
    ProfitAppend(s.trades, Closed(s, i).trades[|s.trades|]);
  }

  lemma FlatIsClear(s: State, initial: real, bars: seq<Bar>, now: int)
    requires Sound(s, initial, bars, now) && s.position == 0
    ensures s.entryCost == 0.0 == s.exitProceeds && s.pendingExit == 0
  {
  }

  /** The final equity is the initial capital plus the profit of all trades, and it is all cash. */
  lemma FinalEquityIsProfit(s: State, initial: real, bars: seq<Bar>, last: nat)
    requires At(s, initial, bars, last)
    ensures var r := ForceClose(s, bars, last);
            && r.position == 0 == r.pendingExit == r.pendingEntry && (Solvent(s.model, bars) ==> r.cash >= 0.0)
            && r.cash == initial + Profit(r.trades) && r.cash == initial + Ledger(r.parents)
            && |r.trades| == |s.trades| + if s.position > 0 then 1 else 0
  {
    hide Mul;
    hide Filled;
    hide Spent;
    hide Ledger;
    hide Profit;
    hide Recorded;
    hide Balanced;
    hide Closed;
    hide Sold;
    hide Honours;
    hide Timely;
    hide Tracks;
    WithoutPending(s, initial);
    var s0 := s.(pendingEntry := 0);
    if s0.position > 0 {
      TermsPositive(s.model, bars, last);
      if Solvent(s.model, bars) { MulNonNegative(bars[last].close, 1.0 - WorstCase(s.model)); }
      var p := Parent(Sell, last, bars[last].close, EndOfData, [], []);
      if s0.exit.None? { NewExitKeeps(s0, initial, p); }
      var s1 := if s0.exit.Some? then s0 else s0.(exit := Some(|s0.parents|), parents := s0.parents + [p]);
      ForcedExit(s1, initial, Mul(bars[last].close, 1.0 - WorstCase(s.model)), last);
    } else {
      FlatIsClear(s, initial, bars, last);
      FlatCash(s, initial);
    }
  }

  lemma FlatCash(s: State, initial: real)
    requires Balanced(s, initial) && s.entryCost == 0.0 == s.exitProceeds
    ensures s.cash == initial + Profit(s.trades) && s.cash == initial + Ledger(s.parents)
  {
  }

  /** Selling the whole position at any price closes the books. */
  lemma ForcedExit(s: State, initial: real, price: real, last: nat)
    requires Recorded(s) && Balanced(s, initial) && s.exit.Some? && s.entry.Some? && s.totalEntryQty > 0
    requires s.position > 0
    ensures s.exit.value < |s.parents|
    ensures var r := Closed(Sold(s, [Fill(Sell, price, s.position)], last).(position := 0, pendingExit := 0), last);
            && r.position == 0 == r.pendingExit && r.pendingEntry == s.pendingEntry && (s.cash >= 0.0 && price >= 0.0 ==> r.cash >= 0.0)
            && r.cash == initial + Profit(r.trades) && r.cash == initial + Ledger(r.parents)
            && |r.trades| == |s.trades| + 1
  {
    hide Mul;
    hide Filled;
    hide Spent;
    hide Ledger;
    hide Profit;
    hide Recorded;
    hide Balanced;
    var fill := Fill(Sell, price, s.position);
    if price >= 0.0 { MulNonNegative(price, s.position as real); }
    OneFillSpent(fill);
    RecordedExit(s);
    SoldRecorded(s, [fill], last);
    SoldBalanced(s, s.model, initial, [fill], last);
    assert s.(model := s.model) == s;
    BalancedFlat(Sold(s, [fill], last), initial);
    LastTrade(Sold(s, [fill], last).(position := 0, pendingExit := 0), initial, last);
  }

  lemma BalancedFlat(s: State, initial: real)
    requires Balanced(s, initial)
    ensures Balanced(s.(position := 0, pendingExit := 0), initial)
  {
    hide Ledger;
    hide Profit;
  }

  // ----- overdrafts -----------------------------------------------------------

  /** Selling `q` at `price` less `w` of it, which costs money when `w` exceeds 1. */
  lemma SaleProceeds(price: real, w: real, q: real)
    ensures Mul(Mul(price, 1.0 - w), q) == -Mul(Mul(price, w - 1.0), q)
  {
    assert price * (1.0 - w) * q == -(price * (w - 1.0) * q);
  }

  /** The forced close overdraws exactly when the cash does not cover what it costs beyond the price. */
  lemma ForcedCloseOverdraws(s: State, bars: seq<Bar>, last: nat)
    requires last < |bars| && Coherent(s, last) && Recorded(s) && s.position > 0
    ensures ForceClose(s, bars, last).cash < 0.0
       <==> s.cash < Mul(Mul(bars[last].close, WorstCase(s.model) - 1.0), s.position as real)
  {
    hide Filled;
    hide Mul;
    hide Recorded;
    hide Ledger;
    OneFillSpent(Fill(Sell, Mul(bars[last].close, 1.0 - WorstCase(s.model)), s.position));
    SaleProceeds(bars[last].close, WorstCase(s.model), s.position as real);
    RecordedExit(s);
  }

  /** So does an ordinary exit filled by an instant or a last-look model, at the model's own anchor. */
  lemma ExitOverdraws(s: State, initial: real, bars: seq<Bar>, i: nat)
    requires At(s, initial, bars, i) && s.exit.Some? && (s.model.Instant? || s.model.LastLook?)
    requires Execute(s.model, Sell, s.pendingExit, bars, i).value.0 != []
    ensures WorkExit(s, initial, bars, i).cash < 0.0
       <==> s.cash < Mul(Mul(ReferencePrice(s.model, bars, i), WorstCase(s.model) - 1.0), s.position as real)
  {
    hide Filled;
    hide Mul;
    hide Recorded;
    hide Ledger;
    hide Balanced;
    hide Timely;
    hide FavourableBps;
    var price := Mul(ReferencePrice(s.model, bars, i), 1.0 - WorstCase(s.model));
    OneFillSpent(Fill(Sell, price, s.pendingExit));
    SaleProceeds(ReferencePrice(s.model, bars, i), WorstCase(s.model), s.position as real);
    RecordedExit(s);
  }

  /** A run over one bar: the budget buys exactly one unit and leaves no cash. */
  lemma BuyOne(config: Config, rate: real, price: real)
    requires rate > -1.0 && price > 0.0 && config.initialCapital == Mul(price, 1.0 + rate)
    ensures var bars := [Bar(price, price, price, price, 0.0)];
            && Runnable(config, bars, Instant(rate))
            && var s := Run(config, bars, Instant(rate), [BuySignal], 1);
               s.cash == 0.0 && s.position == 1 && s.model == Instant(rate)
  {
    var bars, m := [Bar(price, price, price, price, 0.0)], Instant(rate);
    MulPositive(price, 1.0 + rate);
    InitialSound(config, bars, m, 0);
    var s0 := Initial(config, m);
    assert Run(config, bars, m, [BuySignal], 0) == s0;
    BuyOneBar(s0, config, bars, rate);
  }

  lemma BuyOneBar(s0: State, config: Config, bars: seq<Bar>, rate: real)
    requires s0 == Initial(config, Instant(rate)) && At(s0, config.initialCapital, bars, 0) && rate > -1.0
    requires config.initialCapital == Mul(bars[0].close, 1.0 + rate) > 0.0
    ensures var s := OneBar(s0, config.initialCapital, config, bars, 0, BuySignal);
            s.cash == 0.0 && s.position == 1 && s.model == Instant(rate)
  {
    hide Mul;
    hide Sound;
    var initial := config.initialCapital;
    assert Affordable(initial, s0.model, bars[0].close) == 1 by { DivSelf(initial); }
    var s1 := StartEntry(s0, bars, 0, 1);
    StartEntryKeeps(s0, initial, bars, 0, 1);
    var f := Fill(Buy, Mul(bars[0].close, 1.0 + rate), 1);
    OneFillSpent(f);
    MulUnits(f.price);
    assert WorkEntry(s1, initial, bars, 0) == Bought(s1, [f], 0);
  }

  /** Cash stays non-negative in every run of a model, up to and including the forced close. */
  ghost predicate NeverOverdraws(m: Model) {
    forall config: Config, bars: seq<Bar>, signals: seq<Signal>, n: nat ::
      Runnable(config, bars, m) && 0 < n <= |bars| == |signals| ==>
        && Run(config, bars, m, signals, n).cash >= 0.0
        && ForceClose(Run(config, bars, m, signals, n), bars, n - 1).cash >= 0.0
  }

  lemma SolventNeverOverdraws(config: Config, bars: seq<Bar>, m: Model, signals: seq<Signal>, n: nat)
    requires Runnable(config, bars, m) && 0 < n <= |bars| == |signals| && Solvent(m, bars)
    ensures Run(config, bars, m, signals, n).cash >= 0.0
    ensures ForceClose(Run(config, bars, m, signals, n), bars, n - 1).cash >= 0.0
  {
    hide ForceClose;
    hide Run;
    hide Recorded;
    hide Coherent;
    hide Balanced;
    hide Timely;
    hide ModelInStep;
    hide Honours;
    hide Solvent;
    hide BarsOk;
    RunIsSound(config, bars, m, signals, n);
    FinalEquityIsProfit(Run(config, bars, m, signals, n), config.initialCapital, bars, n - 1);
  }

  /** The exact condition for instant execution: no run ever overdraws if and only if costs are at most 100%. */
  lemma OverdraftExactly(rate: real)
    requires rate > -1.0
    ensures NeverOverdraws(Instant(rate)) <==> rate <= 1.0
  {
    hide Run;
    hide ForceClose;
    hide Recorded;
    hide Coherent;
    hide Balanced;
    hide Timely;
    hide ModelInStep;
    hide Honours;
    hide BarsOk;
    var m := Instant(rate);
    if rate <= 1.0 {
      forall config: Config, bars: seq<Bar>, signals: seq<Signal>, n: nat
        | Runnable(config, bars, m) && 0 < n <= |bars| == |signals|
        ensures Run(config, bars, m, signals, n).cash >= 0.0
        ensures ForceClose(Run(config, bars, m, signals, n), bars, n - 1).cash >= 0.0
      {
        SolventNeverOverdraws(config, bars, m, signals, n);
      }
    } else {
      hide Runnable;
      MulUnits(1.0 + rate);
      OverdrawnRun(Config(1.0 + rate, 0.0, 0.0), rate, 1.0);
      assert !NeverOverdraws(m);
    }
  }

  /** Above 100%, at any price: a run from cash for one unit ends below zero. */
  lemma OverdrawnRun(config: Config, rate: real, price: real)
    requires rate > 1.0 && price > 0.0 && config.initialCapital == Mul(price, 1.0 + rate)
    ensures var bars := [Bar(price, price, price, price, 0.0)];
            && Runnable(config, bars, Instant(rate))
            && ForceClose(Run(config, bars, Instant(rate), [BuySignal], 1), bars, 0).cash < 0.0
  {
    var bars := [Bar(price, price, price, price, 0.0)];
    BuyOne(config, rate, price);
    var s := Run(config, bars, Instant(rate), [BuySignal], 1);
    ForcedCloseOverdraws(s, bars, 0);
    MulPositive(price, rate - 1.0);
  }
}
