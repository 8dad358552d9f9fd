/**
 Two-legged spread execution.  Whatever part of the emitted children fills, in any order, the
 legging imbalance stays between zero and the cap; the algorithm never stalls and any run that
 fills something every interval ends with both legs complete.
 */
module SpreadExecution {
  import opened RealAlgebra

  datatype Terms = Terms(leadParent: int, ratio: real, leggingLimit: int, leadChildMax: int)
  datatype Legs = Legs(lead: int, hedge: int)
  datatype Children = Children(leadQty: int, hedgeQty: int, atRiskCap: bool)

  predicate TermsOk(t: Terms) {
    t.leadParent > 0 && t.ratio > 0.0 && t.leggingLimit >= 1 && t.leggingLimit as real >= t.ratio && t.leadChildMax > 0
  }

  /** Half-up rounding. */
  function Round(x: real): int { (x + 0.5).Floor }

  function Hedged(t: Terms, lead: int): int { Round(Mul(lead as real, t.ratio)) }

  function Imbalance(t: Terms, s: Legs): int { Hedged(t, s.lead) - s.hedge }

  function Min(a: int, b: int): int { if a <= b then a else b }

  function ChildrenOf(t: Terms, s: Legs): Children
    requires t.ratio != 0.0
  {
    var imbalance := Imbalance(t, s);
    var hedgeQty := if imbalance > 0 then imbalance else 0;
    var leadQty :=
      if imbalance >= t.leggingLimit then 0
      else Min(Min(t.leadParent - s.lead, t.leadChildMax), ((t.leggingLimit - imbalance) as real / t.ratio).Floor);
    Children(leadQty, hedgeQty, imbalance >= t.leggingLimit)
  }

  predicate Done(t: Terms, s: Legs) { s.lead == t.leadParent && Imbalance(t, s) <= 0 }

  /** Nothing overfilled, the hedge never ahead, the imbalance never over the cap. */
  predicate Safe(t: Terms, s: Legs) {
    && 0 <= s.lead <= t.leadParent && 0 <= s.hedge <= Hedged(t, t.leadParent)
    && 0 <= Imbalance(t, s) <= t.leggingLimit
  }

  lemma RoundShift(x: real, y: real, k: int)
    requires x <= y + k as real
    ensures Round(x) <= Round(y) + k
  {
  }

  /** More lead never needs less hedge. */
  lemma HedgedRises(t: Terms, a: int, b: int)
    requires TermsOk(t) && a <= b
    ensures Hedged(t, a) <= Hedged(t, b)
  {
    MulNonNegative((b - a) as real, t.ratio);
    MulSub(t.ratio, b as real, a as real);
    assert (b - a) as real == b as real - a as real;
    RoundShift(Mul(a as real, t.ratio), Mul(b as real, t.ratio), 0);
  }

  /** A lead child's hedge fits in the headroom, rounding included. */
  lemma HeadroomCovers(t: Terms, lead: int, q: int, room: int)
    requires TermsOk(t) && q <= (room as real / t.ratio).Floor
    ensures Hedged(t, lead + q) <= Hedged(t, lead) + room
  {
    var r := t.ratio;
    MulNonNegative(room as real / r - q as real, r);
    MulSub(r, room as real / r, q as real);
    assert Mul(room as real / r, r) == room as real;
    MulAdd(r, lead as real, q as real);
    assert (lead + q) as real == lead as real + q as real;
    RoundShift(Mul((lead + q) as real, r), Mul(lead as real, r), room);
  }

  /** Any part of the emitted children keeps the state safe; in particular no emitted fill is refused. */
  lemma {:induction false} FillsAreSafe(t: Terms, s: Legs, a: int, b: int)
    requires TermsOk(t) && Safe(t, s)
    requires 0 <= a <= ChildrenOf(t, s).leadQty && 0 <= b <= ChildrenOf(t, s).hedgeQty
    ensures Safe(t, Legs(s.lead + a, s.hedge + b))
  {
    HedgedRises(t, s.lead, s.lead + a);
    HedgedRises(t, s.lead + a, t.leadParent);
    if Imbalance(t, s) < t.leggingLimit {
      HeadroomCovers(t, s.lead, a, t.leggingLimit - Imbalance(t, s));
    }
  }

  /** Children are never negative, and a state that is not done always emits one. */
  lemma {:induction false} NeverStalls(t: Terms, s: Legs)
    requires TermsOk(t) && Safe(t, s)
    ensures var c := ChildrenOf(t, s);
            && c.leadQty >= 0 && c.hedgeQty >= 0
            && (Done(t, s) <==> c.leadQty == 0 == c.hedgeQty)
            && (c.atRiskCap <==> Imbalance(t, s) == t.leggingLimit)
            && (c.atRiskCap ==> c.leadQty == 0 && c.hedgeQty == t.leggingLimit)
  {
    var room := t.leggingLimit - Imbalance(t, s);
    if room > 0 {
      QuotientNonNegative(room as real, t.ratio);
      if Imbalance(t, s) == 0 { AtLeastOneLead(t.leggingLimit as real, t.ratio); }
    }
  }

  lemma AtLeastOneLead(limit: real, ratio: real)
    requires ratio > 0.0 && limit >= ratio
    ensures (limit / ratio).Floor >= 1
  {
    DivSelf(ratio);
    DivAdd(limit - ratio, ratio, ratio);
    QuotientNonNegative(limit - ratio, ratio);
  }

  /** The hedge target is the lead times the ratio, to the nearest unit, halves up. */
  lemma HedgedIsNearest(t: Terms, lead: int)
    ensures -0.5 < Hedged(t, lead) as real - Mul(lead as real, t.ratio) <= 0.5
  {
  }

  /** The hedge child is all of the imbalance; the lead child is as large as parent, child limit and remaining headroom allow. */
  lemma ChildrenAreLargest(t: Terms, s: Legs)
    requires TermsOk(t) && Safe(t, s)
    ensures var c, due := ChildrenOf(t, s), Hedged(t, s.lead) - s.hedge;
            && c.hedgeQty == due
            && (due >= t.leggingLimit ==> c.leadQty == 0)
            && (due < t.leggingLimit ==>
                  var room := (t.leggingLimit - due) as real;
                  && c.leadQty <= t.leadParent - s.lead && c.leadQty <= t.leadChildMax && Mul(c.leadQty as real, t.ratio) <= room
                  && (c.leadQty == t.leadParent - s.lead || c.leadQty == t.leadChildMax
                      || Mul((c.leadQty + 1) as real, t.ratio) > room))
  {
    var due := Hedged(t, s.lead) - s.hedge;
    if due < t.leggingLimit {
      var room := (t.leggingLimit - due) as real;
      FloorFits(room, t.ratio);
      var q, c := (room / t.ratio).Floor, ChildrenOf(t, s).leadQty;
      MulNonNegative((q - c) as real, t.ratio);
      MulSub(t.ratio, q as real, c as real);
      assert (q - c) as real == q as real - c as real;
      hide Mul;
    }
  }

  lemma FloorFits(room: real, ratio: real)
    requires ratio > 0.0
    ensures var q := (room / ratio).Floor; Mul(q as real, ratio) <= room < Mul((q + 1) as real, ratio)
  {
    var x := room / ratio;
    assert x * ratio == room;
    MulNonNegative(x - x.Floor as real, ratio);
    MulSub(ratio, x, x.Floor as real);
    MulPositive((x.Floor + 1) as real - x, ratio);
    MulSub(ratio, (x.Floor + 1) as real, x);
  }

  // ----- whole runs -----------------------------------------------------------

  /** What filled in one interval. */
  datatype Interval = Interval(lead: int, hedge: int)

  predicate Within(t: Terms, s: Legs, f: Interval)
    requires t.ratio != 0.0
  {
    0 <= f.lead <= ChildrenOf(t, s).leadQty && 0 <= f.hedge <= ChildrenOf(t, s).hedgeQty
  }

  function After(s: Legs, f: Interval): Legs { Legs(s.lead + f.lead, s.hedge + f.hedge) }

  function Run(fills: seq<Interval>, n: nat): Legs
    requires n <= |fills|
  {
    if n == 0 then Legs(0, 0) else After(Run(fills, n - 1), fills[n - 1])
  }

  /** Every interval fills some part of what was emitted for it. */
  predicate Plausible(t: Terms, fills: seq<Interval>)
    requires t.ratio != 0.0
  {
    forall k :: 0 <= k < |fills| ==> Within(t, Run(fills, k), fills[k])
  }

  lemma StartIsSafe(t: Terms)
    requires TermsOk(t)
    ensures Safe(t, Legs(0, 0))
  {
    HedgedRises(t, 0, t.leadParent);
    MulUnits(t.ratio);
  }

  /** The cap holds throughout every run. */
  lemma {:induction false} CapHolds(t: Terms, fills: seq<Interval>, n: nat)
    requires TermsOk(t) && Plausible(t, fills) && n <= |fills|
    ensures Safe(t, Run(fills, n))
  {
    hide Mul;
    hide Safe;
    hide ChildrenOf;
    if n == 0 {
      StartIsSafe(t);
    } else {
      CapHolds(t, fills, n - 1);
      FillsAreSafe(t, Run(fills, n - 1), fills[n - 1].lead, fills[n - 1].hedge);
    }
  }

  lemma {:induction false} Progress(fills: seq<Interval>, n: nat)
    requires n <= |fills| && forall k :: 0 <= k < |fills| ==> fills[k].lead + fills[k].hedge >= 1
    ensures Run(fills, n).lead + Run(fills, n).hedge >= n
  {
    if n != 0 { Progress(fills, n - 1); }
  }

  /** Every interval of a run fills something until the algorithm is done. */
  predicate Filling(t: Terms, fills: seq<Interval>) {
    forall k :: 0 <= k < |fills| ==> Done(t, Run(fills, k)) || fills[k].lead + fills[k].hedge >= 1
  }

  lemma {:induction false} DoneOrAdvances(t: Terms, fills: seq<Interval>, n: nat)
    requires TermsOk(t) && Plausible(t, fills) && Filling(t, fills) && n <= |fills|
    ensures Done(t, Run(fills, n)) || Run(fills, n).lead + Run(fills, n).hedge >= n
  {
    hide Mul;
    hide Safe;
    hide ChildrenOf;
    hide Done;
    if n != 0 {
      DoneOrAdvances(t, fills, n - 1);
      CapHolds(t, fills, n - 1);
      NeverStalls(t, Run(fills, n - 1));
      if Done(t, Run(fills, n - 1)) { assert Run(fills, n) == Run(fills, n - 1); }
    }
  }

  /**
   Any run that fills something until it is done is done after as many intervals as there are
   units, and stays so; one that fills something in every interval is no longer than that.
   */
  lemma {:induction false} RunsEnd(t: Terms, fills: seq<Interval>)
    requires TermsOk(t) && Plausible(t, fills) && Filling(t, fills)
    ensures |fills| >= t.leadParent + Hedged(t, t.leadParent) ==> Done(t, Run(fills, |fills|))
    ensures (forall k :: 0 <= k < |fills| ==> fills[k].lead + fills[k].hedge >= 1) ==>
              |fills| <= t.leadParent + Hedged(t, t.leadParent)
  {
    CapHolds(t, fills, |fills|);
    DoneOrAdvances(t, fills, |fills|);
    if forall k :: 0 <= k < |fills| ==> fills[k].lead + fills[k].hedge >= 1 { Progress(fills, |fills|); }
  }

  /** Every child fills in full. */
  function FullRun(t: Terms, n: nat): Legs
    requires t.ratio != 0.0
  {
    if n == 0 then Legs(0, 0)
    else
      var s := FullRun(t, n - 1);
      After(s, Interval(ChildrenOf(t, s).leadQty, ChildrenOf(t, s).hedgeQty))
  }

  lemma {:induction false} FullRunAdvances(t: Terms, n: nat)
    requires TermsOk(t)
    ensures Safe(t, FullRun(t, n))
    ensures Done(t, FullRun(t, n)) || FullRun(t, n).lead + FullRun(t, n).hedge >= n
  {
    hide Mul;
    hide Safe;
    hide ChildrenOf;
    hide Done;
    hide Imbalance;
    if n == 0 {
      StartIsSafe(t);
    } else {
      var s := FullRun(t, n - 1);
      FullRunAdvances(t, n - 1);
      NeverStalls(t, s);
      FillsAreSafe(t, s, ChildrenOf(t, s).leadQty, ChildrenOf(t, s).hedgeQty);
      if Done(t, s) { assert FullRun(t, n) == s; }
    }
  }

  /** Full fills complete both legs, within as many intervals as there are units to fill. */
  lemma FullFillsFinish(t: Terms)
    requires TermsOk(t)
    ensures Hedged(t, t.leadParent) >= 0
    ensures Done(t, FullRun(t, t.leadParent + Hedged(t, t.leadParent) + 1))
  {
    StartIsSafe(t);
    FullRunAdvances(t, t.leadParent + Hedged(t, t.leadParent) + 1);
  }

  // ----- the algorithm --------------------------------------------------------

  class SpreadExecutionAlgo {
    const terms: Terms
    var leadExecuted: int
    var hedgeExecuted: int

    ghost function View(): Legs
      reads this
    {
      Legs(leadExecuted, hedgeExecuted)
    }

    constructor (terms: Terms)
      requires TermsOk(terms)
      ensures this.terms == terms && View() == Legs(0, 0) && Safe(terms, View())
    {
      this.terms := terms;
      leadExecuted, hedgeExecuted := 0, 0;
      StartIsSafe(terms);
    }

    function ImbalanceHedgeUnits(): int
      reads this
    {
      Round(Mul(leadExecuted as real, terms.ratio)) - hedgeExecuted
    }

    method Decide() returns (c: Children)
      requires TermsOk(terms)
      ensures c == ChildrenOf(terms, View())
    {
      var imbalance := ImbalanceHedgeUnits();
      var hedgeQty := if imbalance > 0 then imbalance else 0;
      var leadRemaining := terms.leadParent - leadExecuted;
      var atCap := imbalance >= terms.leggingLimit;
      var leadQty := 0;
      if !atCap {
        var headroom := ((terms.leggingLimit - imbalance) as real / terms.ratio).Floor;
        leadQty := Min(Min(leadRemaining, terms.leadChildMax), headroom);
      }
      return Children(leadQty, hedgeQty, atCap);
    }

    /** `false` for an overfill of the parent, with nothing changed. */
    method OnLeadFill(qty: int) returns (ok: bool)
      modifies this`leadExecuted
      ensures ok <==> qty >= 0 && old(leadExecuted) + qty <= terms.leadParent
      ensures leadExecuted == old(leadExecuted) + if ok then qty else 0
    {
      if qty < 0 || leadExecuted + qty > terms.leadParent { return false; }
      leadExecuted := leadExecuted + qty;
      return true;
    }

    /** `false` beyond the whole spread's hedge target, with nothing changed. */
    method OnHedgeFill(qty: int) returns (ok: bool)
      modifies this`hedgeExecuted
      ensures ok <==> qty >= 0 && old(hedgeExecuted) + qty <= Hedged(terms, terms.leadParent)
      ensures hedgeExecuted == old(hedgeExecuted) + if ok then qty else 0
    {
      var target := Round(Mul(terms.leadParent as real, terms.ratio));
      if qty < 0 || hedgeExecuted + qty > target { return false; }
      hedgeExecuted := hedgeExecuted + qty;
      return true;
    }
  }
}
