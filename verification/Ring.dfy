/** A fixed ring that keeps the last values of an unbounded history. */
module Ring {
  import opened RealSums

  function Last(h: seq<real>, window: nat): (l: seq<real>)
    ensures |l| == if |h| <= window then |h| else window
  {
    if |h| <= window then h else h[|h| - window..]
  }

  /** The ring's content, oldest first. */
  function Logical(ring: seq<real>, head: nat, filled: nat): seq<real>
    requires head <= |ring| && filled <= |ring|
  {
    if filled < |ring| then ring[..filled] else ring[head..] + ring[..head]
  }

  /** The ring holds exactly the last values of the history. */
  predicate Mirrors(ring: seq<real>, head: nat, filled: nat, history: seq<real>) {
    && |ring| > 0 && head < |ring| && filled <= |ring|
    && (filled < |ring| ==> head == filled)
    && Logical(ring, head, filled) == Last(history, |ring|)
  }

  lemma MirrorsBound(ring: seq<real>, head: nat, filled: nat, history: seq<real>)
    requires Mirrors(ring, head, filled, history)
    ensures head < |ring| && filled <= |ring|
  {
  }

  lemma NextSlot(head: nat, w: nat)
    requires head < w
    ensures (head + 1) % w == if head + 1 == w then 0 else head + 1
  {
  }

  lemma PushGrowing(ring: seq<real>, head: nat, x: real, head': nat)
    requires head < |ring| && head' == if head + 1 == |ring| then 0 else head + 1
    ensures Logical(ring[head := x], head', head + 1) == ring[..head] + [x]
  {
  }

  lemma PushFull(ring: seq<real>, head: nat, x: real, head': nat)
    requires head < |ring| && head' == if head + 1 == |ring| then 0 else head + 1
    ensures Logical(ring[head := x], head', |ring|) == (ring[head..] + ring[..head])[1..] + [x]
  {
  }

  lemma LastPush(h: seq<real>, x: real, window: nat)
    requires window > 0
    ensures Last(h + [x], window) == if |h| < window then Last(h, window) + [x] else Last(h, window)[1..] + [x]
  {
  }

  lemma MirrorsPush(ring: seq<real>, head: nat, filled: nat, history: seq<real>, x: real)
    requires Mirrors(ring, head, filled, history)
    ensures 0 <= (head + 1) % |ring| < |ring|
    ensures Mirrors(ring[head := x], (head + 1) % |ring|, if filled < |ring| then filled + 1 else filled, history + [x])
  {
    hide Last;
    hide Logical;
    var w := |ring|;
    NextSlot(head, w);
    LastPush(history, x, w);
    LogicalSize(ring, head, filled);
    if filled < w {
      PushGrowing(ring, head, x, (head + 1) % w);
      LogicalGrowing(ring, head, filled);
    } else {
      PushFull(ring, head, x, (head + 1) % w);
      LogicalFull(ring, head);
    }
  }

  /** The same with the head wrapped by comparison. */
  lemma MirrorsNext(ring: seq<real>, head: nat, filled: nat, history: seq<real>, x: real)
    requires Mirrors(ring, head, filled, history)
    ensures head < |ring|
    ensures Mirrors(ring[head := x], if head + 1 == |ring| then 0 else head + 1, if filled < |ring| then filled + 1 else filled,
                    history + [x])
  {
    MirrorsPush(ring, head, filled, history, x);
    NextSlot(head, |ring|);
  }

  lemma LogicalSize(ring: seq<real>, head: nat, filled: nat)
    requires head <= |ring| && filled <= |ring|
    ensures |Logical(ring, head, filled)| == filled
  {
  }

  lemma LogicalGrowing(ring: seq<real>, head: nat, filled: nat)
    requires head <= |ring| && filled < |ring|
    ensures Logical(ring, head, filled) == ring[..filled]
  {
  }

  lemma LogicalFull(ring: seq<real>, head: nat)
    requires head <= |ring|
    ensures Logical(ring, head, |ring|) == ring[head..] + ring[..head]
  {
  }

  /** Rotation does not change a sum, so the filled part of the ring can be added up in storage order. */
  lemma RingTotal(ring: seq<real>, head: nat, filled: nat, history: seq<real>)
    requires Mirrors(ring, head, filled, history)
    ensures filled == |Last(history, |ring|)| && Total(ring[..filled], filled) == Total(Last(history, |ring|), filled)
  {
    if filled == |ring| {
      TotalJoin(ring[head..], ring[..head], head);
      TotalJoin(ring[..head], ring[head..], |ring| - head);
      assert ring[..head] + ring[head..] == ring == ring[..filled];
    }
  }
}
