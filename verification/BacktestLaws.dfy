/**
 What starts an order in the backtester, and what a signal does: read off the parent records of a run,
 bar by bar and in both directions.
 */
module BacktestLaws {
  import opened Outcomes
  import opened RealAlgebra
  import opened ExecutionModels
  import opened BacktestSpec

  // ----- observations ---------------------------------------------------------

  /** A position entered on an earlier bar, with no exit in progress. */
  predicate Armed(s: State, i: nat) { s.position > 0 && s.pendingExit == 0 && 0 <= s.firstEntryBar < i }

  /** The bar trades down to the stop: its low, for the quantity entered, is at most the entry cost less the stop. */
  predicate Stopped(s: State, config: Config, bar: Bar) {
    config.stopLossPct > 0.0 && Mul(bar.low, s.totalEntryQty as real) <= Mul(s.entryCost, 1.0 - config.stopLossPct)
  }

  /** The bar trades up to the target. */
  predicate Targeted(s: State, config: Config, bar: Bar) {
    config.takeProfitPct > 0.0 && Mul(bar.high, s.totalEntryQty as real) >= Mul(s.entryCost, 1.0 + config.takeProfitPct)
  }

  predicate Flat(s: State) { s.position == 0 && s.pendingEntry == 0 && s.pendingExit == 0 }

  /** The `n`-th parent is one that bar `i` started. */
  predicate Starts(s: State, n: nat, side: Side, reason: Reason, i: nat) {
    n < |s.parents| && s.parents[n].side == side && s.parents[n].reason == reason && s.parents[n].signalIndex == i
  }

  predicate SameOrigin(a: Parent, b: Parent) {
    a.side == b.side && a.signalIndex == b.signalIndex && a.reason == b.reason && a.arrivalPrice == b.arrivalPrice
  }

  /** Later parents come behind, earlier ones keep their origin. */
  ghost predicate Extends(a: seq<Parent>, b: seq<Parent>) {
    |a| <= |b| && forall k :: 0 <= k < |a| ==> SameOrigin(a[k], b[k])
  }

  lemma ExtendsTrans(a: seq<Parent>, b: seq<Parent>, c: seq<Parent>)
    requires Extends(a, b) && Extends(b, c)
    ensures Extends(a, c)
  {
  }

  // ----- how parents come about -----------------------------------------------

  lemma WorkKeepsOrigins(s: State, initial: real, bars: seq<Bar>, i: nat)
    requires At(s, initial, bars, i)
    ensures s.pendingEntry > 0 ==>
              var r := WorkEntry(s, initial, bars, i); Extends(s.parents, r.parents) && |r.parents| == |s.parents|
    ensures s.exit.Some? ==>
              var r := WorkExit(s, initial, bars, i); Extends(s.parents, r.parents) && |r.parents| == |s.parents|
  {
    hide Execute;
    hide Honours;
    hide Spent;
    hide Filled;
    hide Ledger;
    hide Profit;
    hide Timely;
    hide Tracks;
    hide Solvent;
    hide Repeat;
    hide Balanced;
    hide Notional;
  }

  lemma TriggerMeans(s: State, config: Config, bar: Bar)
    requires s.totalEntryQty > 0
    ensures var t := Trigger(s, config, bar);
            && (t == Some(StopLoss) <==> Stopped(s, config, bar))
            && (t == Some(TakeProfit) <==> !Stopped(s, config, bar) && Targeted(s, config, bar))
            && (t == None <==> !Stopped(s, config, bar) && !Targeted(s, config, bar))
  {
    Averaged(bar.low, s.entryCost, s.totalEntryQty as real, 1.0 - config.stopLossPct);
    Averaged(bar.high, s.entryCost, s.totalEntryQty as real, 1.0 + config.takeProfitPct);
    hide Mul;
  }

  /** Comparing a price with a multiple of the average is comparing the value with that multiple of the cost. */
  lemma Averaged(price: real, cost: real, q: real, k: real)
    requires q > 0.0
    ensures price <= Mul(cost / q, k) <==> Mul(price, q) <= Mul(cost, k)
    ensures price >= Mul(cost / q, k) <==> Mul(price, q) >= Mul(cost, k)
  {
    var average := cost / q;
    assert average * q == cost;
    assert average * k * q == cost * k;
    Scaled(price, Mul(average, k), q);
    Scaled(Mul(average, k), price, q);
  }

  lemma Scaled(a: real, b: real, q: real)
    requires q > 0.0
    ensures a <= b <==> Mul(a, q) <= Mul(b, q)
  {
    MulSub(q, b, a);
    if a <= b { MulNonNegative(b - a, q); } else { MulPositive(a - b, q); MulSub(q, a, b); }
  }

  /** The risk check starts at most one parent, and works it on the spot. */
  lemma RiskStarts(s: State, initial: real, config: Config, bars: seq<Bar>, i: nat)
    requires At(s, initial, bars, i)
    ensures var r, stop, target := CheckRisk(s, initial, config, bars, i), Stopped(s, config, bars[i]), Targeted(s, config, bars[i]);
            if Armed(s, i) && (stop || target) then
              && Extends(s.parents, r.parents) && |r.parents| == |s.parents| + 1
              && Starts(r, |s.parents|, Sell, if stop then StopLoss else TakeProfit, i)
            else r == s
  {
    if Armed(s, i) {
      ArmedEntered(s, initial, bars, i);
      TriggerMeans(s, config, bars[i]);
      hide Trigger;
      hide Stopped;
      hide Targeted;
      var reason := Trigger(s, config, bars[i]);
      if reason.Some? {
        StartExitKeeps(s, initial, bars, i, reason.value);
        ExitStarts(s, initial, bars, i, reason.value);
        hide At;
        hide WorkExit;
        hide StartExit;
      }
    }
  }

  lemma ArmedEntered(s: State, initial: real, bars: seq<Bar>, i: nat)
    requires At(s, initial, bars, i) && s.position > 0
    ensures s.totalEntryQty > 0 && (s.pendingExit == 0 ==> s.exit.None?)
  {
  }

  lemma ExitStarts(s: State, initial: real, bars: seq<Bar>, i: nat, reason: Reason)
    requires At(s, initial, bars, i) && s.position > 0 && s.exit.None?
    requires At(StartExit(s, bars, i, reason), initial, bars, i)
    ensures var r := WorkExit(StartExit(s, bars, i, reason), initial, bars, i);
            Extends(s.parents, r.parents) && |r.parents| == |s.parents| + 1 && Starts(r, |s.parents|, Sell, reason, i)
  {
    var started := StartExit(s, bars, i, reason);
    WorkKeepsOrigins(started, initial, bars, i);
    hide WorkExit;
    hide At;
  }

  lemma EntryStarts(s: State, initial: real, bars: seq<Bar>, i: nat, target: int)
    requires At(s, initial, bars, i) && target > 0
    requires At(StartEntry(s, bars, i, target), initial, bars, i)
    ensures var r := WorkEntry(StartEntry(s, bars, i, target), initial, bars, i);
            Extends(s.parents, r.parents) && |r.parents| == |s.parents| + 1 && Starts(r, |s.parents|, Buy, Entry, i)
  {
    var started := StartEntry(s, bars, i, target);
    WorkKeepsOrigins(started, initial, bars, i);
    hide WorkEntry;
    hide At;
  }

  // ----- what a signal does ---------------------------------------------------

  /** One unit at the close, with the model's worst case on top, is within the cash. */
  predicate Affords(s: State, bar: Bar) { Mul(bar.close, 1.0 + WorstCase(s.model)) <= s.cash }

  /** The largest quantity the cash pays for in full. */
  predicate Largest(s: State, bar: Bar, q: int) {
    var unit := Mul(bar.close, 1.0 + WorstCase(s.model));
    Mul(unit, q as real) <= s.cash < Mul(unit, (q + 1) as real)
  }

  lemma AffordableIsLargest(cash: real, unit: real)
    requires unit > 0.0
    ensures var q := (cash / unit).Floor;
            Mul(unit, q as real) <= cash < Mul(unit, (q + 1) as real) && (q >= 1 <==> unit <= cash)
  {
    var x := cash / unit;
    assert x * unit == cash;
    MulNonNegative(unit, x - x.Floor as real);
    MulPositive(unit, (x.Floor + 1) as real - x);
    MulSub(unit, x, x.Floor as real);
    MulSub(unit, (x.Floor + 1) as real, x);
    Scaled(1.0, x, unit);
    MulUnits(unit);
  }

  /** A buy opens an entry exactly when the book is flat and the cash pays for a unit; its target is all the cash pays for. */
  lemma BuyOpens(s: State, initial: real, bars: seq<Bar>, i: nat)
    requires At(s, initial, bars, i)
    ensures var r := OnSignal(s, initial, bars, i, BuySignal);
            if Flat(s) && Affords(s, bars[i]) then
              && Extends(s.parents, r.parents) && |r.parents| == |s.parents| + 1 && Starts(r, |s.parents|, Buy, Entry, i)
              && exists q :: q > 0 && Largest(s, bars[i], q) && At(StartEntry(s, bars, i, q), initial, bars, i)
                             && r == WorkEntry(StartEntry(s, bars, i, q), initial, bars, i)
            else r == s
  {
    hide At;
    hide Mul;
    hide Extends;
    hide Starts;
    hide WorkEntry;
    hide StartEntry;
    hide Largest;
    BuyTarget(s, initial, bars, i);
    BuySteps(s, initial, bars, i);
    if Flat(s) && Affords(s, bars[i]) {
      var q := Affordable(s.cash, s.model, bars[i].close);
      StartEntryKeeps(s, initial, bars, i, q);
      EntryStarts(s, initial, bars, i, q);
    }
  }

  lemma BuyTarget(s: State, initial: real, bars: seq<Bar>, i: nat)
    requires At(s, initial, bars, i)
    ensures i < |bars| && Mul(bars[i].close, 1.0 + WorstCase(s.model)) > 0.0
    ensures var q := Affordable(s.cash, s.model, bars[i].close); Largest(s, bars[i], q) && (q > 0 <==> Affords(s, bars[i]))
  {
    TermsPositive(s.model, bars, i);
    MulPositive(bars[i].close, 1.0 + WorstCase(s.model));
    AffordableIsLargest(s.cash, Mul(bars[i].close, 1.0 + WorstCase(s.model)));
    hide Mul;
  }

  lemma BuySteps(s: State, initial: real, bars: seq<Bar>, i: nat)
    requires At(s, initial, bars, i) && Mul(bars[i].close, 1.0 + WorstCase(s.model)) > 0.0
    ensures var q := Affordable(s.cash, s.model, bars[i].close);
            && (Flat(s) && q > 0 ==>
                  && At(StartEntry(s, bars, i, q), initial, bars, i)
                  && OnSignal(s, initial, bars, i, BuySignal) == WorkEntry(StartEntry(s, bars, i, q), initial, bars, i))
            && (!(Flat(s) && q > 0) ==> OnSignal(s, initial, bars, i, BuySignal) == s)
  {
    hide Mul;
    hide WorkEntry;
    hide Affordable;
    hide StartEntry;
    hide Sound;
    var q := Affordable(s.cash, s.model, bars[i].close);
    if Flat(s) && q > 0 { StartEntryKeeps(s, initial, bars, i, q); }
  }

  /** A sell leaves a position exactly when none is being left; an entry that has not filled is given up. */
  lemma SellCloses(s: State, initial: real, bars: seq<Bar>, i: nat)
    requires At(s, initial, bars, i)
    ensures var r := OnSignal(s, initial, bars, i, SellSignal);
            if s.position > 0 && s.pendingExit == 0 then
              Extends(s.parents, r.parents) && |r.parents| == |s.parents| + 1 && Starts(r, |s.parents|, Sell, BySignal, i)
            else if s.pendingEntry > 0 && s.pendingExit == 0 then r == s.(pendingEntry := 0, entry := None)
            else r == s
  {
    if s.position > 0 && s.pendingExit == 0 {
      ArmedEntered(s, initial, bars, i);
      AbandonKeeps(s, initial, bars, i);
      StartExitKeeps(s.(pendingEntry := 0), initial, bars, i, BySignal);
      ExitStarts(s.(pendingEntry := 0), initial, bars, i, BySignal);
      hide At;
      hide StartExit;
      hide WorkExit;
      hide Extends;
    } else {
      NoEntryLeft(s, initial, bars, i);
      hide At;
    }
  }

  lemma NoEntryLeft(s: State, initial: real, bars: seq<Bar>, i: nat)
    requires At(s, initial, bars, i)
    ensures s.position >= 0 && (s.pendingExit != 0 ==> s.pendingEntry == 0)
    ensures s.pendingEntry > 0 && s.position == 0 ==> s.exit.None?
  {
  }

  lemma HoldChangesNothing(s: State, initial: real, bars: seq<Bar>, i: nat)
    requires At(s, initial, bars, i)
    ensures OnSignal(s, initial, bars, i, HoldSignal) == s
  {
  }

  /** So a signal starts at most one parent, and only one of its own kind. */
  lemma SignalStarts(s: State, initial: real, bars: seq<Bar>, i: nat, signal: Signal)
    requires At(s, initial, bars, i)
    ensures var r, n := OnSignal(s, initial, bars, i, signal), |s.parents|;
            && Extends(s.parents, r.parents) && |r.parents| <= n + 1
            && (|r.parents| == n + 1 ==>
                  || (signal.BuySignal? && Starts(r, n, Buy, Entry, i))
                  || (signal.SellSignal? && Starts(r, n, Sell, BySignal, i)))
  {
    BuyOpens(s, initial, bars, i);
    SellCloses(s, initial, bars, i);
    HoldChangesNothing(s, initial, bars, i);
    hide OnSignal;
    hide At;
    hide Largest;
  }

  // ----- one bar --------------------------------------------------------------

  /** What the parents behind the first `n` of a state say about bar `i`. */
  ghost predicate Accounted(r: State, n: nat, i: nat, signal: Signal, stopLoss: bool, takeProfit: bool) {
    && (Starts(r, n, Sell, StopLoss, i) <==> stopLoss)
    && (Starts(r, n, Sell, TakeProfit, i) <==> takeProfit)
    && forall k :: n <= k < |r.parents| ==>
         && r.parents[k].signalIndex == i
         && (r.parents[k].reason.Entry? ==> signal.BuySignal?)
         && (r.parents[k].reason.BySignal? ==> signal.SellSignal?)
         && (r.parents[k].reason.StopLoss? || r.parents[k].reason.TakeProfit? ==> k == n && r.parents[k].side == Sell)
         && !r.parents[k].reason.EndOfData?
  }

  /** A risk exit, if any, comes first and a signal's parent, if any, behind it. */
  lemma StartsInOrder(mid: State, checked: State, r: State, i: nat, signal: Signal, stopLoss: bool, takeProfit: bool)
    requires !(stopLoss && takeProfit)
    requires var n := |mid.parents|;
             if stopLoss || takeProfit then
               Extends(mid.parents, checked.parents) && |checked.parents| == n + 1
               && Starts(checked, n, Sell, if stopLoss then StopLoss else TakeProfit, i)
             else checked.parents == mid.parents
    requires var c := |checked.parents|;
             && Extends(checked.parents, r.parents) && |r.parents| <= c + 1
             && (|r.parents| == c + 1 ==>
                   || (signal.BuySignal? && Starts(r, c, Buy, Entry, i))
                   || (signal.SellSignal? && Starts(r, c, Sell, BySignal, i)))
    ensures Extends(mid.parents, r.parents) && Accounted(r, |mid.parents|, i, signal, stopLoss, takeProfit)
  {
    if stopLoss || takeProfit { assert SameOrigin(checked.parents[|mid.parents|], r.parents[|mid.parents|]); }
  }

  /**
   A bar starts a stop-loss exit exactly when the armed position traded down to its stop, and a take-profit
   exit exactly when it did not but traded up to its target; either comes before anything the signal starts.
   */
  lemma BarStarts(s: State, initial: real, config: Config, bars: seq<Bar>, i: nat, signal: Signal)
    requires At(s, initial, bars, i)
    ensures var mid, r := WorkOpen(s, initial, bars, i), OneBar(s, initial, config, bars, i, signal);
            var stop, target := Stopped(mid, config, bars[i]), Targeted(mid, config, bars[i]);
            && |mid.parents| == |s.parents| && Extends(s.parents, r.parents)
            && Accounted(r, |mid.parents|, i, signal, Armed(mid, i) && stop, Armed(mid, i) && !stop && target)
  {
    WorkKeepsOrigins(s, initial, bars, i);
    var mid := WorkOpen(s, initial, bars, i);
    ExitOpen(s, initial, bars, i);
    assert |mid.parents| == |s.parents| && Extends(s.parents, mid.parents);
    RiskStarts(mid, initial, config, bars, i);
    var checked := CheckRisk(mid, initial, config, bars, i);
    SignalStarts(checked, initial, bars, i, signal);
    hide At;
    hide WorkOpen;
    hide CheckRisk;
    hide OnSignal;
    hide Stopped;
    hide Targeted;
    hide Armed;
    hide Starts;
    hide Extends;
    hide Accounted;
    var r := OneBar(s, initial, config, bars, i, signal);
    var stop, target := Stopped(mid, config, bars[i]), Targeted(mid, config, bars[i]);
    StartsInOrder(mid, checked, r, i, signal, Armed(mid, i) && stop, Armed(mid, i) && !stop && target);
    ExtendsTrans(s.parents, mid.parents, r.parents);
  }

  lemma ExitOpen(s: State, initial: real, bars: seq<Bar>, i: nat)
    requires At(s, initial, bars, i)
    ensures s.pendingExit > 0 ==> s.exit.Some?
  {
  }

  // ----- whole runs -----------------------------------------------------------

  /** The state of a run in bar `i`, after its open parents were worked and before risk is checked. */
  ghost function Midway(config: Config, bars: seq<Bar>, m: Model, signals: seq<Signal>, i: nat): State
    requires Runnable(config, bars, m) && i < |bars| == |signals|
  {
    RunAt(config, bars, m, signals, i);
    WorkOpen(Run(config, bars, m, signals, i), config.initialCapital, bars, i)
  }

  lemma RunAt(config: Config, bars: seq<Bar>, m: Model, signals: seq<Signal>, i: nat)
    requires Runnable(config, bars, m) && i < |bars| == |signals|
    ensures var s := Run(config, bars, m, signals, i);
            && At(s, config.initialCapital, bars, i)
            && Run(config, bars, m, signals, i + 1) == OneBar(s, config.initialCapital, config, bars, i, signals[i])
  {
    hide Sound;
    hide OneBar;
    if i > 0 { SoundLater(Run(config, bars, m, signals, i), config.initialCapital, bars, i - 1); }
  }

  /** Every parent of a run is there for its reason: a risk exit on a bar that hit its level, the others on their signal. */
  lemma {:induction false} ParentsHaveReasons(config: Config, bars: seq<Bar>, m: Model, signals: seq<Signal>, n: nat, k: nat)
    requires Runnable(config, bars, m) && n <= |bars| == |signals| && k < |Run(config, bars, m, signals, n).parents|
    ensures var p := Run(config, bars, m, signals, n).parents[k]; var i := p.signalIndex;
            && 0 <= i < n
            && (p.reason.StopLoss? ==>
                  var mid := Midway(config, bars, m, signals, i);
                  p.side == Sell && k == |mid.parents| && Armed(mid, i) && Stopped(mid, config, bars[i]))
            && (p.reason.TakeProfit? ==>
                  var mid := Midway(config, bars, m, signals, i);
                  && p.side == Sell && k == |mid.parents| && Armed(mid, i)
                  && !Stopped(mid, config, bars[i]) && Targeted(mid, config, bars[i]))
            && (p.reason.Entry? ==> signals[i].BuySignal?) && (p.reason.BySignal? ==> signals[i].SellSignal?)
            && !p.reason.EndOfData?
  {
    hide Sound;
    hide OneBar;
    hide WorkOpen;
    hide Armed;
    hide Stopped;
    hide Targeted;
    if n > 0 {
      var i := n - 1;
      RunAt(config, bars, m, signals, i);
      var s := Run(config, bars, m, signals, i);
      BarStarts(s, config.initialCapital, config, bars, i, signals[i]);
      if k < |s.parents| { ParentsHaveReasons(config, bars, m, signals, i, k); }
      hide Run;
    }
  }

  /** And every bar that hits an armed position's level leaves such an exit in the run's records. */
  lemma {:induction false} HitsAreRecorded(config: Config, bars: seq<Bar>, m: Model, signals: seq<Signal>, i: nat, n: nat)
    requires Runnable(config, bars, m) && i < n <= |bars| == |signals| && Armed(Midway(config, bars, m, signals, i), i)
    ensures var mid, r := Midway(config, bars, m, signals, i), Run(config, bars, m, signals, n);
            && (Stopped(mid, config, bars[i]) ==> Starts(r, |mid.parents|, Sell, StopLoss, i))
            && (!Stopped(mid, config, bars[i]) && Targeted(mid, config, bars[i]) ==>
                  Starts(r, |mid.parents|, Sell, TakeProfit, i))
    decreases n
  {
    hide Sound;
    hide OneBar;
    hide WorkOpen;
    hide Armed;
    hide Stopped;
    hide Targeted;
    RunAt(config, bars, m, signals, n - 1);
    var s := Run(config, bars, m, signals, n - 1);
    BarStarts(s, config.initialCapital, config, bars, n - 1, signals[n - 1]);
    if i < n - 1 { HitsAreRecorded(config, bars, m, signals, i, n - 1); }
    hide Run;
  }

  // ----- what a trade records -------------------------------------------------

  /** A closed round trip in full: its bars, its average prices, what it made and why it ended. */
  lemma TradeTells(s: State, i: int)
    requires s.totalEntryQty > 0 && s.exit.Some? && s.exit.value < |s.parents|
    ensures var r, n := Closed(s, i), |s.trades|;
            && |r.trades| == n + 1 && (forall k :: 0 <= k < n ==> r.trades[k] == s.trades[k])
            && var t := r.trades[n];
               && t.quantity == s.totalEntryQty && t.entryBar == s.firstEntryBar && t.exitBar == i
               && Mul(t.entryPrice, t.quantity as real) == s.entryCost && Mul(t.exitPrice, t.quantity as real) == s.exitProceeds
               && t.pnl == s.exitProceeds - s.entryCost
               && (s.entryCost != 0.0 ==> Mul(t.returnPct, s.entryCost) == t.pnl) && (s.entryCost == 0.0 ==> t.returnPct == 0.0)
               && t.reason == s.parents[s.exit.value].reason
  {
    TimesBack(s.entryCost, s.totalEntryQty as real);
    TimesBack(s.exitProceeds, s.totalEntryQty as real);
    if s.entryCost != 0.0 { TimesBack(s.exitProceeds - s.entryCost, s.entryCost); }
    hide Mul;
  }

  lemma TimesBack(a: real, b: real)
    requires b != 0.0
    ensures Mul(a / b, b) == a
  {
  }

  /** The forced close sells the whole position at the last close less the worst case, on an exit of its own if none is open. */
  lemma ForcedCloseTells(s: State, bars: seq<Bar>, last: nat)
    requires last < |bars| && Coherent(s, last) && Recorded(s) && s.position > 0
    ensures var r, n := ForceClose(s, bars, last), |s.parents|;
            var k := if s.exit.None? then n else s.exit.value;
            && |r.parents| == (if s.exit.None? then n + 1 else n) && k < |r.parents|
            && (s.exit.None? ==> Starts(r, n, Sell, EndOfData, last))
            && r.parents[k].fills == (if s.exit.None? then [] else s.parents[k].fills)
               + [Fill(Sell, bars[last].close - Mul(bars[last].close, WorstCase(s.model)), s.position)]
            && |r.trades| == |s.trades| + 1 && r.trades[|s.trades|].exitBar == last
            && r.trades[|s.trades|].reason == (if s.exit.None? then EndOfData else s.parents[k].reason)
  {
    RecordedExit(s);
    LessShare(bars[last].close, WorstCase(s.model));
    hide Recorded;
    hide Spent;
    hide Filled;
    hide Mul;
    hide Notional;
    hide Repeat;
  }

  lemma LessShare(x: real, w: real)
    ensures Mul(x, 1.0 - w) == x - Mul(x, w)
  {
  }
}
