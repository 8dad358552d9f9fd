/**
 Drawdown three ways: the single-pass episode scanner, the running-peak maximum and the drawdown
 curve all give the largest fall from any earlier point to any later one.
 */
module Drawdown {
  import opened Outcomes
  import opened RealAlgebra

  /** How far `x` lies below a peak, as a fraction of it. */
  function Drop(x: real, peak: real): real
    requires peak != 0.0
  {
    1.0 - x / peak
  }

  /** Fall from point `i` to point `j`, as a fraction. */
  function Fall(e: seq<real>, i: nat, j: nat): real
    requires i <= j < |e| && e[i] > 0.0
  {
    Drop(e[j], e[i])
  }

  ghost predicate Positive(e: seq<real>) { |e| > 0 && forall i :: 0 <= i < |e| ==> e[i] > 0.0 }

  /** The definition over all pairs: some pair falls by `d`, or `d` is 0, and none falls by more. */
  ghost predicate IsMaxDrawdown(e: seq<real>, d: real)
    requires Positive(e)
  {
    && (exists i, j :: 0 <= i <= j < |e| && d == Fall(e, i, j))
    && forall i, j :: 0 <= i <= j < |e| ==> Fall(e, i, j) <= d
  }

  /** Highest of the first `n + 1` points. */
  function Peak(e: seq<real>, n: nat): (p: real)
    requires n < |e|
    ensures (forall i :: 0 <= i <= n ==> e[i] <= p) && exists i :: 0 <= i <= n && e[i] == p
  {
    if n == 0 then e[0] else if e[n] > Peak(e, n - 1) then e[n] else Peak(e, n - 1)
  }

  lemma FallOrder(a: real, b: real, p: real)
    requires p > 0.0 && a <= b
    ensures a / p <= b / p
  {
  }

  lemma DropOrder(a: real, b: real, peak: real)
    requires peak > 0.0 && a <= b
    ensures Drop(b, peak) <= Drop(a, peak)
  {
    FallOrder(a, b, peak);
  }

  lemma FallPeak(x: real, a: real, p: real)
    requires 0.0 < a <= p && x > 0.0
    ensures 1.0 - x / a <= 1.0 - x / p
  {
    assert x / p <= x / a by { Reciprocal(x, a, p); }
  }

  lemma Reciprocal(x: real, a: real, p: real)
    requires 0.0 < a <= p && x > 0.0
    ensures x / p <= x / a
  {
    var q := x / a;
    assert q * a == x;
    MulNonNegative(q, p - a);
    assert q * p >= x;
    FallOrder(x, q * p, p);
    assert q * p / p == q;
  }

  /** The fall from the running peak, and the largest of them over the first `n + 1` points. */
  function Depth(e: seq<real>, j: nat): real
    requires j < |e| && Peak(e, j) > 0.0
  {
    Drop(e[j], Peak(e, j))
  }

  function MaxDepth(e: seq<real>, n: nat): real
    requires n < |e| && forall i :: 0 <= i < |e| ==> e[i] > 0.0
  {
    if n == 0 then 0.0 else if Depth(e, n) > MaxDepth(e, n - 1) then Depth(e, n) else MaxDepth(e, n - 1)
  }

  lemma DepthIsWorst(e: seq<real>, j: nat)
    requires Positive(e) && j < |e|
    ensures forall i :: 0 <= i <= j ==> Fall(e, i, j) <= Depth(e, j)
    ensures exists i :: 0 <= i <= j && Fall(e, i, j) == Depth(e, j)
  {
    forall i | 0 <= i <= j ensures Fall(e, i, j) <= Depth(e, j) {
      FallPeak(e[j], e[i], Peak(e, j));
    }
    var i :| 0 <= i <= j && e[i] == Peak(e, j);
    assert Fall(e, i, j) == Depth(e, j);
  }

  /** The running-peak maximum is the maximum over all pairs. */
  lemma {:induction false} MaxDepthIsMaxDrawdown(e: seq<real>, n: nat)
    requires Positive(e) && n < |e|
    ensures forall i, j :: 0 <= i <= j <= n ==> Fall(e, i, j) <= MaxDepth(e, n)
    ensures exists i, j :: 0 <= i <= j <= n && Fall(e, i, j) == MaxDepth(e, n)
  {
    hide Fall;
    hide Depth;
    hide Peak;
    if n == 0 {
      NoFall(e, 0);
    } else {
      MaxDepthIsMaxDrawdown(e, n - 1);
      DepthIsWorst(e, n);
      if Depth(e, n) > MaxDepth(e, n - 1) {
        var i :| 0 <= i <= n && Fall(e, i, n) == Depth(e, n);
      } else {
        var i, j :| 0 <= i <= j <= n - 1 && Fall(e, i, j) == MaxDepth(e, n - 1);
      }
    }
  }

  lemma NoFall(e: seq<real>, i: nat)
    requires i < |e| && e[i] > 0.0
    ensures Fall(e, i, i) == 0.0
  {
    DivSelf(e[i]);
  }

  /** All three computations agree because there is only one maximum. */
  lemma MaxDrawdownIsUnique(e: seq<real>, c: real, d: real)
    requires Positive(e) && IsMaxDrawdown(e, c) && IsMaxDrawdown(e, d)
    ensures c == d
  {
    hide Fall;
  }

  lemma MaxDepthMeets(e: seq<real>)
    requires Positive(e)
    ensures IsMaxDrawdown(e, MaxDepth(e, |e| - 1)) && MaxDepth(e, |e| - 1) >= 0.0
  {
    hide Fall;
    hide MaxDepth;
    MaxDepthIsMaxDrawdown(e, |e| - 1);
    NoFall(e, 0);
  }

  // ----- the risk module and the report ---------------------------------------

  /** The fall from the running peak over the peak, 0 where the peak is not positive. */
  method MaxDrawdown(e: seq<real>) returns (d: real)
    ensures e == [] ==> d == 0.0
    ensures Positive(e) ==> IsMaxDrawdown(e, d)
  {
    if |e| == 0 { return 0.0; }
    hide MaxDepth;
    var peak := e[0];
    d := if peak > 0.0 then (peak - e[0]) / peak else 0.0;
    ghost var positive := Positive(e);
    if positive { DepthFromPeak(e, 0, peak); }
    for i := 1 to |e|
      invariant peak == Peak(e, i - 1) && (positive ==> d == MaxDepth(e, i - 1))
    {
      peak := if e[i] > peak then e[i] else peak;
      var dd := if peak > 0.0 then (peak - e[i]) / peak else 0.0;
      if positive { DepthFromPeak(e, i, peak); }
      d := if dd > d then dd else d;
    }
    if positive { MaxDepthMeets(e); }
  }

  lemma DepthFromPeak(e: seq<real>, i: nat, peak: real)
    requires Positive(e) && i < |e| && peak == Peak(e, i)
    ensures (peak - e[i]) / peak == Depth(e, i) && e[i] / peak - 1.0 == -Depth(e, i)
    ensures MaxDepth(e, i) == if i == 0 then Depth(e, i)
                              else if Depth(e, i) > MaxDepth(e, i - 1) then Depth(e, i) else MaxDepth(e, i - 1)
  {
    DivSelf(peak);
    DivAdd(peak - e[i], e[i], peak);
  }

  /** The drawdown curve; its lowest point is minus the maximum drawdown. */
  method DrawdownCurve(e: seq<real>) returns (dd: seq<real>)
    requires |e| > 0
    ensures |dd| == |e|
    ensures Positive(e) ==> forall i :: 0 <= i < |e| ==> dd[i] == -Depth(e, i)
  {
    dd := seq(|e|, _ => 0.0);
    var peak := e[0];
    ghost var positive := Positive(e);
    for i := 0 to |e|
      invariant |dd| == |e| && peak == Peak(e, if i == 0 then 0 else i - 1)
      invariant positive ==> forall k :: 0 <= k < i ==> dd[k] == -Depth(e, k)
    {
      peak := if e[i] > peak then e[i] else peak;
      if positive { DepthFromPeak(e, i, peak); }
      dd := dd[i := if peak > 0.0 then e[i] / peak - 1.0 else 0.0];
    }
  }

  lemma {:induction false} CurveBottoms(e: seq<real>, dd: seq<real>, n: nat)
    requires Positive(e) && n < |e| == |dd| && forall i :: 0 <= i < |e| ==> dd[i] == -Depth(e, i)
    ensures forall i :: 0 <= i <= n ==> dd[i] >= -MaxDepth(e, n)
    ensures exists i :: 0 <= i <= n && dd[i] == -MaxDepth(e, n)
  {
    hide Depth;
    if n == 0 {
      DepthFromPeak(e, 0, Peak(e, 0));
    } else {
      CurveBottoms(e, dd, n - 1);
    }
  }

  // ----- the episode scanner --------------------------------------------------

  /** `recoveryIndex` is -1 while the drawdown is open at the end of the curve. */
  datatype Episode = Episode(peakIndex: int, troughIndex: int, recoveryIndex: int, depth: real)
  datatype Analysis = Analysis(maxDepth: real, maxDuration: int, timeUnderWater: real, episodes: seq<Episode>)

  /** From a running peak down to its lowest point and back to the first point that reaches the peak again. */
  ghost predicate EpisodeOk(e: seq<real>, d: Episode, end: nat) {
    && 0 <= d.peakIndex < d.troughIndex < end <= |e|
    && e[d.peakIndex] > 0.0 && e[d.peakIndex] == Peak(e, end - 1)
    && (forall k :: d.peakIndex < k < end ==> e[d.troughIndex] <= e[k] < e[d.peakIndex])
    && (d.recoveryIndex == end ==> end < |e| && e[end] >= e[d.peakIndex])
    && d.depth == Fall(e, d.peakIndex, d.troughIndex)
  }

  ghost predicate Chronicle(e: seq<real>, episodes: seq<Episode>, upTo: nat) {
    && (forall k :: 0 <= k < |episodes| ==>
          0 <= episodes[k].recoveryIndex <= upTo && EpisodeOk(e, episodes[k], episodes[k].recoveryIndex))
    && (forall k :: 0 < k < |episodes| ==> episodes[k - 1].recoveryIndex <= episodes[k].peakIndex)
  }

  function Greater(a: real, b: real): real { if a > b then a else b }

  function Deepest(episodes: seq<Episode>): real {
    if episodes == [] then 0.0 else Greater(Deepest(episodes[..|episodes| - 1]), episodes[|episodes| - 1].depth)
  }

  function Duration(d: Episode, n: nat): int {
    (if d.recoveryIndex >= 0 then d.recoveryIndex else n - 1) - d.peakIndex
  }

  function Longest(episodes: seq<Episode>, n: nat): int {
    if episodes == [] then 0
    else
      var before, d := Longest(episodes[..|episodes| - 1], n), Duration(episodes[|episodes| - 1], n);
      if d > before then d else before
  }

  /** Points below the running peak. */
  function UnderWater(e: seq<real>, n: nat): nat
    requires n <= |e|
  {
    if n == 0 then 0 else UnderWater(e, n - 1) + if e[n - 1] < Peak(e, n - 1) then 1 else 0
  }

  /** A point is under water when an earlier one was higher. */
  predicate Below(e: seq<real>, k: nat)
    requires k < |e|
  {
    exists i :: 0 <= i < k && e[i] > e[k]
  }

  /** Time under water counts exactly those points. */
  lemma {:induction false} UnderWaterCounts(e: seq<real>, n: nat)
    requires n <= |e|
    ensures UnderWater(e, n) == |set k: nat | k < n && Below(e, k)|
  {
    var s := set k: nat | k < n && Below(e, k);
    if n == 0 {
      assert s == {};
    } else {
      UnderWaterCounts(e, n - 1);
      var before := set k: nat | k < n - 1 && Below(e, k);
      assert s == before + if Below(e, n - 1) then {n - 1} else {};
    }
  }

  /** A fall, in units of the higher point, is the distance between the two. */
  lemma FallIsDistance(e: seq<real>, i: nat, j: nat)
    requires i <= j < |e| && e[i] > 0.0
    ensures Mul(Fall(e, i, j), e[i]) == e[i] - e[j]
  {
    MulSub(e[i], 1.0, e[j] / e[i]);
    MulUnits(e[i]);
    assert Mul(e[j] / e[i], e[i]) == e[j];
  }

  /** The longest episode: from its peak to the point that recovered it, or to the end of the curve if none did. */
  lemma {:induction false} LongestIs(episodes: seq<Episode>, n: nat)
    ensures var l := Longest(episodes, n);
            && l >= 0
            && (forall k :: 0 <= k < |episodes| ==>
                  (if episodes[k].recoveryIndex < 0 then n - 1 else episodes[k].recoveryIndex) - episodes[k].peakIndex <= l)
            && (l == 0 || exists k ::
                  0 <= k < |episodes|
                  && l == (if episodes[k].recoveryIndex < 0 then n - 1 else episodes[k].recoveryIndex) - episodes[k].peakIndex)
  {
    if episodes != [] { LongestIs(episodes[..|episodes| - 1], n); }
  }

  /** The deepest episode, 0 without any. */
  lemma {:induction false} DeepestIs(episodes: seq<Episode>)
    ensures var d := Deepest(episodes);
            && d >= 0.0 && (forall k :: 0 <= k < |episodes| ==> episodes[k].depth <= d)
            && (d == 0.0 || exists k :: 0 <= k < |episodes| && d == episodes[k].depth)
  {
    if episodes != [] { DeepestIs(episodes[..|episodes| - 1]); }
  }

  lemma DeepestPush(episodes: seq<Episode>, d: Episode)
    ensures Deepest(episodes + [d]) == Greater(Deepest(episodes), d.depth)
  {
    assert (episodes + [d])[..|episodes|] == episodes;
  }

  /** Where the scan stands after the first `n` points. */
  datatype Scan = Scan(episodes: seq<Episode>, peak: real, peakIdx: int, underWater: int, isOpen: bool, trough: real, troughIdx: int)

  ghost predicate Scanned(e: seq<real>, s: Scan, n: nat) {
    && 0 < n <= |e| && 0 <= s.peakIdx < n && s.peak == e[s.peakIdx] == Peak(e, n - 1)
    && (s.isOpen <==> s.peakIdx < n - 1)
    && (s.isOpen ==> s.peakIdx < s.troughIdx < n && s.trough == e[s.troughIdx])
    && (forall k :: s.peakIdx < k < n ==> s.trough <= e[k] < s.peak)
    && s.underWater == UnderWater(e, n)
    && Chronicle(e, s.episodes, s.peakIdx)
  }

  /** The deepest fall so far, counting the open episode. */
  function Worst(s: Scan): real
    requires s.peak != 0.0
  {
    if s.isOpen then Greater(Deepest(s.episodes), Drop(s.trough, s.peak)) else Deepest(s.episodes)
  }

  function Closing(s: Scan, recovery: int): seq<Episode>
    requires s.peak != 0.0
  {
    if s.isOpen then s.episodes + [Episode(s.peakIdx, s.troughIdx, recovery, Drop(s.trough, s.peak))] else s.episodes
  }

  /** One point of the scan. */
  function Next(s: Scan, x: real, i: int): Scan
    requires s.peak != 0.0
  {
    if x >= s.peak then Scan(Closing(s, i), x, i, s.underWater, false, s.trough, s.troughIdx)
    else if !s.isOpen || x < s.trough then s.(underWater := s.underWater + 1, isOpen := true, trough := x, troughIdx := i)
    else s.(underWater := s.underWater + 1)
  }

  lemma NextScanned(e: seq<real>, s: Scan, n: nat)
    requires Positive(e) && Scanned(e, s, n) && n < |e|
    ensures Scanned(e, Next(s, e[n], n), n + 1)
  {
    if e[n] >= s.peak { ClosingChronicle(e, s, n); }
  }

  lemma ClosingChronicle(e: seq<real>, s: Scan, n: nat)
    requires Positive(e) && Scanned(e, s, n) && n < |e| && e[n] >= s.peak
    ensures Chronicle(e, Closing(s, n), n)
  {
    hide EpisodeOk;
    hide Peak;
    if s.isOpen { OpenEpisode(e, s, n, n); }
    ChronicleLater(e, s.episodes, s.peakIdx, n);
  }

  lemma ChronicleLater(e: seq<real>, episodes: seq<Episode>, a: nat, b: nat)
    requires Chronicle(e, episodes, a) && a <= b
    ensures Chronicle(e, episodes, b)
    ensures episodes != [] ==> episodes[|episodes| - 1].recoveryIndex <= a
  {
    hide EpisodeOk;
  }

  /** The open episode is one, whether it recovers at `n` or the curve ends there. */
  lemma OpenEpisode(e: seq<real>, s: Scan, n: nat, recovery: int)
    requires Positive(e) && Scanned(e, s, n) && s.isOpen
    requires recovery == n ==> n < |e| && e[n] >= s.peak
    ensures EpisodeOk(e, Episode(s.peakIdx, s.troughIdx, recovery, Drop(s.trough, s.peak)), n)
  {
    hide Chronicle;
  }

  /** The scan's worst episode is the deepest fall from the running peak. */
  lemma NextWorst(e: seq<real>, s: Scan, n: nat)
    requires Positive(e) && Scanned(e, s, n) && n < |e| && Worst(s) == MaxDepth(e, n - 1) >= 0.0
    ensures Worst(Next(s, e[n], n)) == MaxDepth(e, n) >= 0.0
  {
    hide Drop;
    hide Chronicle;
    hide UnderWater;
    hide Deepest;
    var x := e[n];
    NextPeak(e, s, n);
    if x >= s.peak {
      NoFall(e, n);
      if s.isOpen { DeepestPush(s.episodes, Episode(s.peakIdx, s.troughIdx, n, Drop(s.trough, s.peak))); }
    } else if s.isOpen {
      if x < s.trough { DropOrder(x, s.trough, s.peak); } else { DropOrder(s.trough, x, s.peak); }
    }
  }

  /** The running peak and the depth at the next point. */
  lemma NextPeak(e: seq<real>, s: Scan, n: nat)
    requires Positive(e) && Scanned(e, s, n) && n < |e|
    ensures s.peak > 0.0 && Depth(e, n) == Drop(e[n], if e[n] >= s.peak then e[n] else s.peak)
  {
    hide Drop;
    hide Chronicle;
    hide UnderWater;
  }

  /** `Err` below two points or on one that is not positive. */
  method Analyze(e: seq<real>) returns (r: Result<Analysis, string>)
    ensures r.Ok? <==> |e| >= 2 && Positive(e)
    ensures r.Ok? ==>
              var a, n := r.value, |e|;
              && IsMaxDrawdown(e, a.maxDepth)
              && a.timeUnderWater == UnderWater(e, n) as real / n as real
              && a.maxDepth == Deepest(a.episodes) && a.maxDuration == Longest(a.episodes, n)
              && (forall k :: 0 <= k < |a.episodes| ==>
                    var d := a.episodes[k];
                    if d.recoveryIndex >= 0 then EpisodeOk(e, d, d.recoveryIndex)
                    else k == |a.episodes| - 1 && EpisodeOk(e, d, n))
              && (forall k :: 0 < k < |a.episodes| ==> a.episodes[k - 1].recoveryIndex <= a.episodes[k].peakIndex)
  {
    hide EpisodeOk;
    hide Peak;
    hide MaxDepth;
    hide Fall;
    hide Scanned;
    hide Next;
    hide Worst;
    var n := |e|;
    if n < 2 { return Err("need >= 2 equity points"); }
    for i := 0 to n
      invariant forall k :: 0 <= k < i ==> e[k] > 0.0
    {
      if !(e[i] > 0.0) { return Err("equity must be finite and > 0"); }
    }
    var s := ScanCurve(e);
    MaxDepthMeets(e);
    var episodes := CloseLast(e, s);
    var maxDepth, maxDuration := Summarize(episodes, n);
    return Ok(Analysis(maxDepth, maxDuration, s.underWater as real / n as real, episodes));
  }

  /** The single pass. */
  method ScanCurve(e: seq<real>) returns (s: Scan)
    requires |e| >= 2 && Positive(e)
    ensures Scanned(e, s, |e|) && s.peak != 0.0 && Worst(s) == MaxDepth(e, |e| - 1)
  {
    hide Peak;
    hide MaxDepth;
    hide Scanned;
    hide Worst;
    var episodes: seq<Episode>, peak, peakIdx := [], e[0], 0;
    var underWater, isOpen, trough, troughIdx := 0, false, 0.0, -1;
    ghost var view := Scan(episodes, peak, peakIdx, underWater, isOpen, trough, troughIdx);
    ScanStart(e);
    for i := 1 to |e|
      invariant view == Scan(episodes, peak, peakIdx, underWater, isOpen, trough, troughIdx) && peak > 0.0
      invariant Scanned(e, view, i) && Worst(view) == MaxDepth(e, i - 1) >= 0.0
    {
      NextScanned(e, view, i);
      NextWorst(e, view, i);
      view := Next(view, e[i], i);
      if e[i] >= peak {
        if isOpen {
          episodes := episodes + [Episode(peakIdx, troughIdx, i, Drop(trough, peak))];
          isOpen := false;
        }
        peak, peakIdx := e[i], i;
      } else {
        underWater := underWater + 1;
        if !isOpen {
          isOpen, trough, troughIdx := true, e[i], i;
        } else if e[i] < trough {
          trough, troughIdx := e[i], i;
        }
      }
    }
    s := Scan(episodes, peak, peakIdx, underWater, isOpen, trough, troughIdx);
  }

  lemma ScanStart(e: seq<real>)
    requires |e| >= 2 && Positive(e)
    ensures var s := Scan([], e[0], 0, 0, false, 0.0, -1);
            Scanned(e, s, 1) && Worst(s) == MaxDepth(e, 0) == 0.0
  {
    assert UnderWater(e, 1) == 0;
  }

  /** An episode still open at the end joins the list with recovery index -1. */
  method CloseLast(e: seq<real>, s: Scan) returns (episodes: seq<Episode>)
    requires Positive(e) && Scanned(e, s, |e|) && s.peak != 0.0
    ensures Deepest(episodes) == Worst(s)
    ensures s.underWater == UnderWater(e, |e|)
    ensures forall k :: 0 <= k < |episodes| ==>
              var d := episodes[k];
              if d.recoveryIndex >= 0 then EpisodeOk(e, d, d.recoveryIndex)
              else k == |episodes| - 1 && EpisodeOk(e, d, |e|)
    ensures forall k :: 0 < k < |episodes| ==> episodes[k - 1].recoveryIndex <= episodes[k].peakIndex
  {
    hide EpisodeOk;
    hide Peak;
    episodes := s.episodes;
    ChronicleLater(e, s.episodes, s.peakIdx, s.peakIdx);
    if s.isOpen {
      var last := Episode(s.peakIdx, s.troughIdx, -1, Drop(s.trough, s.peak));
      OpenEpisode(e, s, |e|, -1);
      DeepestPush(episodes, last);
      episodes := episodes + [last];
    }
  }

  method Summarize(episodes: seq<Episode>, n: nat) returns (maxDepth: real, maxDuration: int)
    ensures maxDepth == Deepest(episodes) && maxDuration == Longest(episodes, n)
  {
    maxDepth, maxDuration := 0.0, 0;
    for k := 0 to |episodes|
      invariant maxDepth == Deepest(episodes[..k]) && maxDuration == Longest(episodes[..k], n)
    {
      assert episodes[..k + 1][..k] == episodes[..k];
      maxDepth := if episodes[k].depth > maxDepth then episodes[k].depth else maxDepth;
      var duration := Duration(episodes[k], n);
      maxDuration := if duration > maxDuration then duration else maxDuration;
    }
    assert episodes[..|episodes|] == episodes;
  }
}
