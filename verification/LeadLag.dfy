/**
 Streaming lead-lag estimation.  The ring of leader returns keeps every lag aligned: the moments
 at lag k are those of the pairs (leader k samples ago, follower now), and obey the bound.
 */
module LeadLag {
  import opened Outcomes
  import opened RealAlgebra
  import opened CorrelationMoments

  /** The leader's returns a lag looks at, paired with the follower's returns from `lag` on. */
  function Leads(leader: seq<real>, lag: nat): (x: seq<real>)
    ensures |x| == if |leader| <= lag then 0 else |leader| - lag
  {
    if |leader| <= lag then [] else leader[..|leader| - lag]
  }

  function Follows(follower: seq<real>, lag: nat): (y: seq<real>)
    ensures |y| == if |follower| <= lag then 0 else |follower| - lag
  {
    if |follower| <= lag then [] else follower[lag..]
  }

  /** Moments at one lag, by definition. */
  function AtLag(a: real, leader: seq<real>, follower: seq<real>, lag: nat): Moments
    requires |leader| == |follower|
  {
    After(a, Leads(leader, lag), Follows(follower, lag), |Leads(leader, lag)|)
  }

  lemma {:induction false} AfterPrefix(a: real, x: seq<real>, y: seq<real>, u: seq<real>, v: seq<real>, n: nat)
    requires n <= |x| <= |u| && n <= |y| <= |v| && x == u[..|x|] && y == v[..|y|]
    ensures After(a, x, y, n) == After(a, u, v, n)
  {
    hide Update;
    if n != 0 {
      AfterPrefix(a, x, y, u, v, n - 1);
      assert x[n - 1] == u[n - 1] && y[n - 1] == v[n - 1];
    }
  }

  /** One more sample extends every lag that has history by one pair. */
  lemma LagGrows(a: real, leader: seq<real>, follower: seq<real>, l: real, f: real, lag: nat)
    requires |leader| == |follower|
    ensures AtLag(a, leader + [l], follower + [f], lag)
         == if |leader| < lag then AtLag(a, leader, follower, lag)
            else Update(AtLag(a, leader, follower, lag), a, (leader + [l])[|leader| - lag], f)
  {
    hide Update;
    var n := |leader|;
    if n >= lag {
      var x, y := Leads(leader, lag), Follows(follower, lag);
      var u, v := Leads(leader + [l], lag), Follows(follower + [f], lag);
      assert u == (leader + [l])[..n + 1 - lag] && |u| == n + 1 - lag;
      assert x == leader[..n - lag] == u[..n - lag];
      assert v == follower[lag..] + [f] && y == follower[lag..] == v[..n - lag];
      AfterPrefix(a, x, y, u, v, n - lag);
    }
  }

  // ----- the ring -------------------------------------------------------------

  /** Slot of the leader's return from `k` samples ago. */
  function Slot(head: nat, size: nat, k: nat): (i: nat)
    requires head < size && k < size
    ensures i < size
  {
    if head < k then head - k + size else head - k
  }

  /** The slots behind the head hold the newest returns, newest first. */
  ghost predicate Aligned(ring: seq<real>, head: nat, filled: nat, leader: seq<real>) {
    && head < |ring| && filled == (if |leader| < |ring| then |leader| else |ring|)
    && forall k :: 0 <= k < filled ==> ring[Slot(head, |ring|, k)] == leader[|leader| - 1 - k]
  }

  function Next(head: nat, size: nat): (h: nat)
    requires head < size
    ensures h < size
  {
    if head + 1 == size then 0 else head + 1
  }

  lemma AlignedPush(ring: seq<real>, head: nat, filled: nat, leader: seq<real>, l: real)
    requires Aligned(ring, head, filled, leader)
    ensures Aligned(ring[Next(head, |ring|) := l], Next(head, |ring|), if filled < |ring| then filled + 1 else filled, leader + [l])
  {
    var size, h := |ring|, Next(head, |ring|);
    var longer := leader + [l];
    forall k | 0 <= k < size && k <= filled
      ensures ring[h := l][Slot(h, size, k)] == longer[|longer| - 1 - k]
    {
      if k > 0 {
        assert Slot(h, size, k) == Slot(head, size, k - 1) != h;
        assert longer[|longer| - 1 - k] == leader[|leader| - 1 - (k - 1)];
      }
    }
  }

  // ----- the estimator --------------------------------------------------------

  class LeadLagEstimator {
    const maxLag: nat
    const alpha: real
    const leaderRing: array<real>
    const moments: array<Moments>
    var head: nat
    var ringFill: nat
    var samples: nat
    /** All valid samples; not kept by the source. */
    ghost var leader: seq<real>
    ghost var follower: seq<real>

    ghost predicate Valid()
      reads this, leaderRing, moments
    {
      && maxLag >= 1 && 0.0 < alpha <= 1.0
      && leaderRing.Length == moments.Length == maxLag + 1
      && samples == |leader| == |follower|
      && Aligned(leaderRing[..], head, ringFill, leader)
      && forall k :: 0 <= k <= maxLag ==> moments[k] == AtLag(alpha, leader, follower, k)
    }

    constructor (maxLag: nat, alpha: real)
      requires maxLag >= 1 && 0.0 < alpha <= 1.0
      ensures Valid() && this.maxLag == maxLag && this.alpha == alpha && leader == [] == follower
    {
      this.maxLag, this.alpha := maxLag, alpha;
      leaderRing := new real[maxLag + 1](_ => 0.0);
      moments := new Moments[maxLag + 1](_ => ZERO);
      head, ringFill, samples, leader, follower := 0, 0, 0, [], [];
    }

    /** A missing return drops the sample: nothing moves. */
    method OnSample(leaderReturn: Option<real>, followerReturn: Option<real>)
      requires Valid()
      modifies this, leaderRing, moments
      ensures Valid()
      ensures var valid := leaderReturn.Some? && followerReturn.Some?;
              && leader == old(leader) + (if valid then [leaderReturn.value] else [])
              && follower == old(follower) + (if valid then [followerReturn.value] else [])
    {
      if leaderReturn.None? || followerReturn.None? { return; }
      var l, f := leaderReturn.value, followerReturn.value;
      Remember(l);
      samples := samples + 1;
      var lags := if ringFill - 1 <= maxLag then ringFill - 1 else maxLag;
      UpdateLags(lags, f);
      follower := follower + [f];
    }

    /** The newest leader return enters the ring. */
    method Remember(l: real)
      requires 0 < leaderRing.Length && Aligned(leaderRing[..], head, ringFill, leader) && leaderRing.Length == maxLag + 1
      modifies this`head, this`ringFill, this`leader, leaderRing
      ensures leader == old(leader) + [l] && Aligned(leaderRing[..], head, ringFill, leader) && ringFill > 0
    {
      ghost var ring := leaderRing[..];
      AlignedPush(ring, head, ringFill, leader, l);
      head := Next(head, leaderRing.Length);
      leaderRing[head] := l;
      assert leaderRing[..] == ring[head := l];
      if ringFill <= maxLag { ringFill := ringFill + 1; }
      leader := leader + [l];
    }

    /** Every lag with history takes one more pair. */
    method UpdateLags(lags: nat, f: real)
      requires leaderRing.Length == moments.Length == maxLag + 1 && |leader| == |follower| + 1
      requires Aligned(leaderRing[..], head, ringFill, leader) && ringFill > 0 && lags == ringFill - 1
      requires forall k :: 0 <= k <= maxLag ==> moments[k] == AtLag(alpha, leader[..|follower|], follower, k)
      modifies moments
      ensures forall k :: 0 <= k <= maxLag ==> moments[k] == AtLag(alpha, leader, follower + [f], k)
    {
      hide Update;
      hide AtLag;
      ghost var before := leader[..|follower|];
      assert leader == before + [leader[|follower|]];
      for k := 0 to lags + 1
        invariant forall j :: 0 <= j < k ==> moments[j] == AtLag(alpha, leader, follower + [f], j)
        invariant forall j :: k <= j <= maxLag ==> moments[j] == AtLag(alpha, before, follower, j)
      {
        LagGrows(alpha, before, follower, leader[|follower|], f, k);
        var lead := leaderRing[Slot(head, leaderRing.Length, k)];
        assert lead == leaderRing[..][Slot(head, leaderRing.Length, k)] == leader[|leader| - 1 - k];
        moments[k] := Update(moments[k], alpha, lead, f);
      }
      forall k | lags < k <= maxLag ensures AtLag(alpha, leader, follower + [f], k) == AtLag(alpha, before, follower, k) {
        LagGrows(alpha, before, follower, leader[|follower|], f, k);
      }
    }

    /** In every reachable state each lag's moments weigh its aligned pairs by their age. */
    lemma LagsAreDecayed(k: nat)
      requires Valid() && k <= maxLag
      ensures var x, y := Leads(leader, k), Follows(follower, k);
              && |x| == |y| && moments[k] == Closed(alpha, x, y, |x|)
              && |x| == (if samples <= k then 0 else samples - k)
              && forall i :: 0 <= i < |x| ==> x[i] == leader[i] && y[i] == follower[i + k]
    {
      MomentsAreDecayed(alpha, Leads(leader, k), Follows(follower, k), |Leads(leader, k)|);
    }

    /** In every reachable state each lag's moments obey the bound. */
    lemma LagsAreBounded(k: nat)
      requires Valid() && k <= maxLag
      ensures Bounded(moments[k])
    {
      SeriesIsBounded(alpha, Leads(leader, k), Follows(follower, k), |Leads(leader, k)|);
    }
  }
}
