/** The engine itself: the bar loop and its actions, each doing what the state machine says. */
module Backtester {
  import opened Outcomes
  import opened RealAlgebra
  import opened ExecutionModels
  import opened BacktestSpec

  lemma BoughtOne(s: State, fills: seq<Fill>, k: nat, i: int)
    requires s.entry.Some? && s.entry.value < |s.parents| && k < |fills|
    ensures Bought(s, fills[..k + 1], i) == Bought(Bought(s, fills[..k], i), [fills[k]], i)
  {
    hide Notional;
    var a, f := fills[..k], fills[k];
    assert fills[..k + 1] == a + [f];
    SumsJoin(a, [f]);
    assert Repeat(i, k + 1) == Repeat(i, k) + Repeat(i, 1);
    var p := s.parents[s.entry.value];
    assert Recording(p, a + [f], i) == Recording(Recording(p, a, i), [f], i);
    assert Bought(s, a + [f], i).parents == Bought(Bought(s, a, i), [f], i).parents;
  }

  lemma SoldOne(s: State, fills: seq<Fill>, k: nat, i: int)
    requires s.exit.Some? && s.exit.value < |s.parents| && k < |fills|
    ensures Sold(s, fills[..k + 1], i) == Sold(Sold(s, fills[..k], i), [fills[k]], i)
  {
    hide Notional;
    var a, f := fills[..k], fills[k];
    assert fills[..k + 1] == a + [f];
    SumsJoin(a, [f]);
    assert Repeat(i, k + 1) == Repeat(i, k) + Repeat(i, 1);
    var p := s.parents[s.exit.value];
    assert Recording(p, a + [f], i) == Recording(Recording(p, a, i), [f], i);
    assert Sold(s, a + [f], i).parents == Sold(Sold(s, a, i), [f], i).parents;
  }

  lemma RecordingOne(p: Parent, f: Fill, i: int)
    ensures Recording(p, [f], i) == p.(fills := p.fills + [f], bars := p.bars + [i])
  {
    assert Repeat(i, 1) == [i];
  }

  lemma NoneBought(s: State, i: int)
    requires s.entry.Some? && s.entry.value < |s.parents|
    ensures Bought(s, [], i) == s
  {
    var p := s.parents[s.entry.value];
    assert Recording(p, [], i) == p;
  }

  lemma NoneSold(s: State, i: int)
    requires s.exit.Some? && s.exit.value < |s.parents|
    ensures Sold(s, [], i) == s
  {
    var p := s.parents[s.exit.value];
    assert Recording(p, [], i) == p;
  }

  /** Cash plus the position at the bar's close. */
  function Worth(s: State, bar: Bar): real { s.cash + Mul(s.position as real, bar.close) }

  class ExecutionAwareBacktester {
    const bars: seq<Bar>
    const config: Config
    var model: Model
    var trades: seq<Trade>
    var parents: seq<Parent>
    var cash: real
    var position: int
    var pendingEntry: int
    var pendingExit: int
    var entryCost: real
    var exitProceeds: real
    var totalEntryQty: int
    var firstEntryBar: int
    var entry: Option<nat>
    var exit: Option<nat>

    ghost function View(): State
      reads this
    {
      State(cash, position, pendingEntry, pendingExit, entryCost, exitProceeds, totalEntryQty, firstEntryBar,
            entry, exit, parents, trades, model)
    }

    ghost predicate Ready(i: nat)
      reads this
    {
      At(View(), config.initialCapital, bars, i)
    }

    /** A strategy's own stop and target override the configured ones. */
    constructor (bars: seq<Bar>, config: Config, model: Model, strategyStop: real, strategyTarget: real)
      requires Runnable(config, bars, model)
      ensures this.bars == bars && this.config.initialCapital == config.initialCapital
      ensures this.config.stopLossPct == (if strategyStop > 0.0 then strategyStop else config.stopLossPct)
      ensures this.config.takeProfitPct == (if strategyTarget > 0.0 then strategyTarget else config.takeProfitPct)
      ensures View() == Initial(this.config, model)
    {
      this.bars, this.model := bars, model;
      this.config := Config(config.initialCapital,
                            if strategyStop > 0.0 then strategyStop else config.stopLossPct,
                            if strategyTarget > 0.0 then strategyTarget else config.takeProfitPct);
      trades, parents := [], [];
      cash, position, pendingEntry, pendingExit := config.initialCapital, 0, 0, 0;
      entryCost, exitProceeds, totalEntryQty, firstEntryBar := 0.0, 0.0, 0, -1;
      entry, exit := None, None;
    }

    lemma SoundParts(s: State, i: nat)
      requires At(s, config.initialCapital, bars, i)
      ensures Honours(s.model, bars) && Coherent(s, i) && Recorded(s)
      ensures s.entry.Some? ==> s.entry.value < |s.parents|
      ensures s.exit.Some? ==> s.exit.value < |s.parents| && s.pendingExit > 0 && Tracks(s.model, s.pendingExit)
      ensures s.pendingEntry > 0 ==> s.entry.Some? && Tracks(s.model, s.pendingEntry)
    {
    }

    method WorkEntry(i: nat)
      requires Ready(i) && pendingEntry > 0
      modifies this
      ensures View() == BacktestSpec.WorkEntry(old(View()), config.initialCapital, bars, i)
    {
      hide Sound;
      hide Recorded;
      hide Coherent;
      hide Honours;
      hide Tracks;
      SoundParts(View(), i);
      TermsPositive(model, bars, i);
      var anchor := ReferencePrice(model, bars, i);
      var affordable := Affordable(cash, model, anchor);
      var request := Least(pendingEntry, affordable);
      if request <= 0 { return; }
      ExecuteKeepsContract(model, Buy, request, bars, i, pendingEntry);
      var (fills, m) := ExecutionModels.Execute(model, Buy, request, bars, i).value;
      model := m;
      RecordEntry(fills, i);
    }

    /** Books the entry's fills one by one. */
    method RecordEntry(fills: seq<Fill>, i: nat)
      requires entry.Some? && entry.value < |parents|
      modifies this
      ensures View() == Bought(old(View()), fills, i)
    {
      hide Spent;
      hide Filled;
      hide Notional;
      ghost var s := View();
      NoneBought(s, i);
      for k := 0 to |fills|
        invariant entry == s.entry && |parents| == |s.parents| && View() == Bought(s, fills[..k], i)
      {
        BoughtOne(s, fills, k, i);
        BookEntryFill(fills[k], i);
      }
      assert fills[..|fills|] == fills;
    }

    method BookEntryFill(f: Fill, i: nat)
      requires entry.Some? && entry.value < |parents|
      modifies this
      ensures View() == Bought(old(View()), [f], i)
    {
      hide Filled;
      hide Spent;
      hide Notional;
      hide Recording;
      hide Repeat;
      OneFillSpent(f);
      var cost := Notional(f);
      cash := cash - cost;
      entryCost := entryCost + cost;
      position := position + f.quantity;
      totalEntryQty := totalEntryQty + f.quantity;
      pendingEntry := pendingEntry - f.quantity;
      var p := parents[entry.value];
      RecordingOne(p, f, i);
      parents := parents[entry.value := p.(fills := p.fills + [f], bars := p.bars + [i])];
      if firstEntryBar < 0 { firstEntryBar := i; }
    }

    method WorkExit(i: nat)
      requires Ready(i) && exit.Some?
      modifies this
      ensures View() == BacktestSpec.WorkExit(old(View()), config.initialCapital, bars, i)
    {
      hide Sound;
      hide Recorded;
      hide Coherent;
      hide Honours;
      hide Tracks;
      ghost var s := View();
      SoundParts(s, i);
      ExecuteKeepsContract(model, Sell, pendingExit, bars, i, pendingExit);
      var (fills, m) := ExecutionModels.Execute(model, Sell, pendingExit, bars, i).value;
      SoldKeeps(s, config.initialCapital, bars, i, fills, m, Mul(ReferencePrice(model, bars, i), 1.0 + WorstCase(model)));
      model := m;
      RecordExit(fills, i);
      if position == 0 && pendingExit == 0 { CloseRoundTrip(i); }
    }

    /** Books the exit's fills one by one. */
    method RecordExit(fills: seq<Fill>, i: nat)
      requires exit.Some? && exit.value < |parents|
      modifies this
      ensures View() == Sold(old(View()), fills, i)
    {
      hide Spent;
      hide Filled;
      hide Notional;
      ghost var s := View();
      NoneSold(s, i);
      for k := 0 to |fills|
        invariant exit == s.exit && |parents| == |s.parents| && View() == Sold(s, fills[..k], i)
      {
        SoldOne(s, fills, k, i);
        BookExitFill(fills[k], i);
      }
      assert fills[..|fills|] == fills;
    }

    method BookExitFill(f: Fill, i: nat)
      requires exit.Some? && exit.value < |parents|
      modifies this
      ensures View() == Sold(old(View()), [f], i)
    {
      hide Filled;
      hide Spent;
      hide Notional;
      hide Recording;
      OneFillSpent(f);
      var proceeds := Notional(f);
      cash := cash + proceeds;
      exitProceeds := exitProceeds + proceeds;
      position := position - f.quantity;
      pendingExit := pendingExit - f.quantity;
      var p := parents[exit.value];
      RecordingOne(p, f, i);
      parents := parents[exit.value := p.(fills := p.fills + [f], bars := p.bars + [i])];
    }

    method CloseRoundTrip(i: nat)
      requires totalEntryQty > 0 && exit.Some? && exit.value < |parents|
      modifies this
      ensures View() == Closed(old(View()), i)
    {
      var avgEntry := entryCost / totalEntryQty as real;
      var avgExit := exitProceeds / totalEntryQty as real;
      var pnl := exitProceeds - entryCost;
      trades := trades + [Trade(firstEntryBar, i, avgEntry, avgExit, totalEntryQty, pnl,
                                if entryCost == 0.0 then 0.0 else pnl / entryCost, parents[exit.value].reason)];
      entry, exit := None, None;
      firstEntryBar := -1;
      entryCost, exitProceeds, totalEntryQty := 0.0, 0.0, 0;
    }

    method StartExit(i: nat, reason: Reason)
      requires i < |bars| && Honours(model, bars) && position > 0
      modifies this
      ensures View() == BacktestSpec.StartExit(old(View()), bars, i, reason)
    {
      hide Honours;
      hide OnParentOrder;
      hide Tracks;
      hide SameTerms;
      ParentIsTracked(model, Sell, position, i, bars);
      pendingEntry := 0;
      exit := Some(|parents|);
      parents := parents + [Parent(Sell, i, bars[i].close, reason, [], [])];
      pendingExit := position;
      model := OnParentOrder(model, Sell, position, i).value;
    }

    method CheckRiskExits(i: nat)
      requires Ready(i)
      modifies this
      ensures View() == CheckRisk(old(View()), config.initialCapital, config, bars, i)
    {
      hide Sound;
      hide BacktestSpec.WorkExit;
      if position <= 0 || pendingExit > 0 || firstEntryBar < 0 || i <= firstEntryBar { return; }
      ghost var s := View();
      SoundParts(s, i);
      var avgEntry := entryCost / totalEntryQty as real;
      var reason: Option<Reason> := None;
      if config.stopLossPct > 0.0 && bars[i].low <= Mul(avgEntry, 1.0 - config.stopLossPct) {
        reason := Some(StopLoss);
      } else if config.takeProfitPct > 0.0 && bars[i].high >= Mul(avgEntry, 1.0 + config.takeProfitPct) {
        reason := Some(TakeProfit);
      }
      if reason.Some? {
        StartExitKeeps(s, config.initialCapital, bars, i, reason.value);
        StartExit(i, reason.value);
        WorkExit(i);
      }
    }

    method OnSignal(signal: Signal, i: nat)
      requires Ready(i)
      modifies this
      ensures View() == BacktestSpec.OnSignal(old(View()), config.initialCapital, bars, i, signal)
    {
      hide Sound;
      hide Recorded;
      hide BacktestSpec.WorkExit;
      hide BacktestSpec.WorkEntry;
      ghost var s := View();
      SoundParts(s, i);
      if signal.BuySignal? && position == 0 && pendingEntry == 0 && pendingExit == 0 {
        TermsPositive(model, bars, i);
        MulPositive(bars[i].close, 1.0 + WorstCase(model));
        var target := Affordable(cash, model, bars[i].close);
        if target <= 0 { return; }
        StartEntryKeeps(s, config.initialCapital, bars, i, target);
        OpenEntry(target, i);
        WorkEntry(i);
      } else if signal.SellSignal? && pendingExit == 0 && (position > 0 || pendingEntry > 0) {
        AbandonKeeps(s, config.initialCapital, bars, i);
        pendingEntry := 0;
        if position > 0 {
          StartExitKeeps(View(), config.initialCapital, bars, i, BySignal);
          StartExit(i, BySignal);
          WorkExit(i);
        } else {
          entry := None;
        }
      }
    }

    method OpenEntry(target: int, i: nat)
      requires i < |bars| && Honours(model, bars) && target > 0
      modifies this
      ensures View() == StartEntry(old(View()), bars, i, target)
    {
      hide Honours;
      hide OnParentOrder;
      hide Tracks;
      hide SameTerms;
      ParentIsTracked(model, Buy, target, i, bars);
      entry := Some(|parents|);
      parents := parents + [Parent(Buy, i, bars[i].close, Entry, [], [])];
      entryCost, exitProceeds, totalEntryQty, firstEntryBar := 0.0, 0.0, 0, -1;
      pendingEntry := target;
      model := OnParentOrder(model, Buy, target, i).value;
    }

    method ForceClose(last: nat)
      requires last < |bars| && Coherent(View(), last) && Recorded(View())
      modifies this
      ensures View() == BacktestSpec.ForceClose(old(View()), bars, last)
    {
      hide Mul;
      hide Sold;
      hide Closed;
      hide Filled;
      hide Spent;
      ghost var s := View();
      pendingEntry := 0;
      if position <= 0 { return; }
      if exit.None? {
        exit := Some(|parents|);
        parents := parents + [Parent(Sell, last, bars[last].close, EndOfData, [], [])];
      }
      var px := Mul(bars[last].close, 1.0 - WorstCase(model));
      var fill := Fill(Sell, px, position);
      BookForcedFill(fill, last);
      CloseRoundTrip(last);
    }

    method BookForcedFill(fill: Fill, last: nat)
      requires exit.Some? && exit.value < |parents|
      modifies this
      ensures View() == Sold(old(View()), [fill], last).(position := 0, pendingExit := 0)
      ensures exit == old(exit) && |parents| == |old(parents)| && totalEntryQty == old(totalEntryQty)
    {
      OneFillSpent(fill);
      var p := parents[exit.value];
      RecordingOne(p, fill, last);
      parents := parents[exit.value := p.(fills := p.fills + [fill], bars := p.bars + [last])];
      cash := cash + Mul(fill.price, fill.quantity as real);
      exitProceeds := exitProceeds + Mul(fill.price, fill.quantity as real);
      position := 0;
      pendingExit := 0;
    }

    method OneBar(signal: Signal, i: nat)
      requires Ready(i)
      modifies this
      ensures View() == BacktestSpec.OneBar(old(View()), config.initialCapital, config, bars, i, signal)
    {
      hide Sound;
      if pendingExit > 0 {
        SoundParts(View(), i);
        WorkExit(i);
      } else if pendingEntry > 0 {
        WorkEntry(i);
      }
      CheckRiskExits(i);
      OnSignal(signal, i);
    }

    lemma RunStarts(m: Model, signals: seq<Signal>)
      requires Runnable(config, bars, m) && |signals| == |bars|
      ensures |bars| > 0 && Run(config, bars, m, signals, 0) == Initial(config, m)
    {
    }

    lemma RunReady(m: Model, signals: seq<Signal>, i: nat)
      requires Runnable(config, bars, m) && i < |signals| == |bars|
      ensures At(Run(config, bars, m, signals, i), config.initialCapital, bars, i)
      ensures Run(config, bars, m, signals, i + 1)
           == BacktestSpec.OneBar(Run(config, bars, m, signals, i), config.initialCapital, config, bars, i, signals[i])
    {
      hide Sound;
      hide BacktestSpec.OneBar;
      var s := Run(config, bars, m, signals, i);
      if i > 0 { SoundLater(s, config.initialCapital, bars, i - 1); }
    }

    lemma RunEnds(m: Model, signals: seq<Signal>)
      requires Runnable(config, bars, m) && |signals| == |bars|
      ensures |bars| > 0 && At(Run(config, bars, m, signals, |bars|), config.initialCapital, bars, |bars| - 1)
      ensures Coherent(Run(config, bars, m, signals, |bars|), |bars| - 1) && Recorded(Run(config, bars, m, signals, |bars|))
      ensures Solvent(Run(config, bars, m, signals, |bars|).model, bars) == Solvent(m, bars)
    {
      SoundParts(Run(config, bars, m, signals, |bars|), |bars| - 1);
    }

    method Finish(last: nat)
      requires Ready(last) && Coherent(View(), last) && Recorded(View())
      modifies this
      ensures View() == BacktestSpec.ForceClose(old(View()), bars, last)
      ensures cash == config.initialCapital + Profit(trades) && position == 0
      ensures Solvent(old(model), bars) ==> cash >= 0.0
    {
      FinalEquityIsProfit(View(), config.initialCapital, bars, last);
      ForceClose(last);
    }

    /** Runs every bar, then closes what is left; the last equity is the final cash. */
    method Execute(signals: seq<Signal>) returns (equity: seq<real>)
      requires Runnable(config, bars, model) && |signals| == |bars| && View() == Initial(config, model)
      modifies this
      ensures |equity| == |bars| > 0
      ensures View() == BacktestSpec.ForceClose(Run(config, bars, old(model), signals, |bars|), bars, |bars| - 1)
      ensures forall i :: 0 <= i < |bars| - 1 ==>
                var s := Run(config, bars, old(model), signals, i + 1);
                equity[i] == s.cash + Mul(s.position as real, bars[i].close)
      ensures equity[|bars| - 1] == cash == config.initialCapital + Profit(trades) && position == 0
      ensures Solvent(old(model), bars) ==> cash >= 0.0
    {
      hide At;
      hide Mul;
      hide BacktestSpec.OneBar;
      hide BacktestSpec.ForceClose;
      hide Honours;
      hide Run;
      hide Initial;
      hide Coherent;
      hide Recorded;
      hide Runnable;
      hide Profit;
      hide Solvent;
      equity := [];
      ghost var m := model;
      RunStarts(m, signals);
      for i := 0 to |bars|
        invariant |equity| == i && View() == Run(config, bars, m, signals, i)
        invariant forall k :: 0 <= k < i ==> equity[k] == Worth(Run(config, bars, m, signals, k + 1), bars[k])
      {
        RunReady(m, signals, i);
        OneBar(signals[i], i);
        equity := equity + [cash + Mul(position as real, bars[i].close)];
      }
      var last := |bars| - 1;
      RunEnds(m, signals);
      Finish(last);
      equity := equity[last := cash];
    }
  }
}
