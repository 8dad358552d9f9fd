/**
 The consolidated best bid and offer.  A quote that neither was nor becomes part of the inside
 skips the rescan; the cached inside is nevertheless, after every event, what a full scan finds.
 The source's venue bitmask is the set of its bits here.
 */
module Nbbo {
  import opened SetFacts
  import opened IntegerSums

  const NO_BID: int := -0x8000_0000
  const NO_ASK: int := 0x7FFF_FFFF

  /** One side's inside: price, displayed size there, venues quoting it. */
  datatype Inside = Inside(px: int, size: int, venues: set<nat>)

  function Absent(bid: bool): int { if bid then NO_BID else NO_ASK }

  predicate Better(bid: bool, a: int, b: int) { if bid then a > b else a < b }

  /** Displayed size at a price. */
  function SizeAt(ticks: seq<int>, sizes: seq<int>, n: nat, px: int): int
    requires n <= |ticks| && n <= |sizes|
  {
    if n == 0 then 0 else SizeAt(ticks, sizes, n - 1, px) + if ticks[n - 1] == px then sizes[n - 1] else 0
  }

  /** What the inside of a side is: the best price anyone shows, with all size and venues there. */
  ghost predicate IsInside(bid: bool, ticks: seq<int>, sizes: seq<int>, n: nat, r: Inside)
    requires n <= |ticks| && n <= |sizes|
  {
    && (forall v :: 0 <= v < n ==> !Better(bid, ticks[v], r.px))
    && !Better(bid, Absent(bid), r.px)
    && (r.px == Absent(bid) ==> r.size == 0 && r.venues == {})
    && (r.px != Absent(bid) ==>
          && r.venues != {}
          && r.size == SizeAt(ticks, sizes, n, r.px)
          && forall v: nat :: v in r.venues <==> v < n && ticks[v] == r.px)
  }

  /** The scanning loop. */
  function Scan(bid: bool, ticks: seq<int>, sizes: seq<int>, n: nat): Inside
    requires n <= |ticks| && n <= |sizes|
  {
    if n == 0 then Inside(Absent(bid), 0, {})
    else
      var r, t := Scan(bid, ticks, sizes, n - 1), ticks[n - 1];
      if t == Absent(bid) then r
      else if Better(bid, t, r.px) then Inside(t, sizes[n - 1], {n - 1})
      else if t == r.px then Inside(t, r.size + sizes[n - 1], r.venues + {n - 1})
      else r
  }

  lemma {:induction false} NothingAt(ticks: seq<int>, sizes: seq<int>, n: nat, px: int)
    requires n <= |ticks| && n <= |sizes| && forall v :: 0 <= v < n ==> ticks[v] != px
    ensures SizeAt(ticks, sizes, n, px) == 0
  {
    if n != 0 { NothingAt(ticks, sizes, n - 1, px); }
  }

  /** The scan finds the inside. */
  lemma {:induction false} ScanFinds(bid: bool, ticks: seq<int>, sizes: seq<int>, n: nat)
    requires n <= |ticks| && n <= |sizes|
    ensures IsInside(bid, ticks, sizes, n, Scan(bid, ticks, sizes, n))
  {
    if n != 0 {
      ScanFinds(bid, ticks, sizes, n - 1);
      var r, t := Scan(bid, ticks, sizes, n - 1), ticks[n - 1];
      if t != Absent(bid) && Better(bid, t, r.px) {
        NothingAt(ticks, sizes, n - 1, t);
      } else if t != Absent(bid) && t == r.px {
        assert n - 1 in r.venues + {n - 1};
      }
    }
  }

  /** In plain prices: the best bid is the highest shown and the best ask the lowest, each with all venues and all size there. */
  lemma InsideMeans(ticks: seq<int>, sizes: seq<int>, n: nat)
    requires n <= |ticks| && n <= |sizes| && forall v :: 0 <= v < n ==> NO_BID <= ticks[v] <= NO_ASK
    ensures var b := Scan(true, ticks, sizes, n);
            && (forall v :: 0 <= v < n ==> ticks[v] <= b.px)
            && (b.px == NO_BID || exists v :: 0 <= v < n && ticks[v] == b.px)
            && (b.px != NO_BID ==> b.venues == (set v: nat | v < n && ticks[v] == b.px) && b.size == Sum(Shown(ticks, sizes, n, b.px), n))
    ensures var a := Scan(false, ticks, sizes, n);
            && (forall v :: 0 <= v < n ==> ticks[v] >= a.px)
            && (a.px == NO_ASK || exists v :: 0 <= v < n && ticks[v] == a.px)
            && (a.px != NO_ASK ==> a.venues == (set v: nat | v < n && ticks[v] == a.px) && a.size == Sum(Shown(ticks, sizes, n, a.px), n))
  {
    ScanFinds(true, ticks, sizes, n);
    ScanFinds(false, ticks, sizes, n);
    if Scan(true, ticks, sizes, n).px != NO_BID { InsideShown(true, ticks, sizes, n, Scan(true, ticks, sizes, n)); }
    if Scan(false, ticks, sizes, n).px != NO_ASK { InsideShown(false, ticks, sizes, n, Scan(false, ticks, sizes, n)); }
    hide Scan;
  }

  /** Each venue's size if it shows the price. */
  function Shown(ticks: seq<int>, sizes: seq<int>, n: nat, px: int): (s: seq<int>)
    requires n <= |ticks| && n <= |sizes|
    ensures |s| == n && forall v :: 0 <= v < n ==> s[v] == if ticks[v] == px then sizes[v] else 0
  {
    seq(n, v requires 0 <= v < n => if ticks[v] == px then sizes[v] else 0)
  }

  lemma InsideShown(bid: bool, ticks: seq<int>, sizes: seq<int>, n: nat, r: Inside)
    requires n <= |ticks| && n <= |sizes| && IsInside(bid, ticks, sizes, n, r) && r.px != Absent(bid)
    ensures r.size == Sum(Shown(ticks, sizes, n, r.px), n)
    ensures r.venues == (set v: nat | v < n && ticks[v] == r.px)
    ensures exists v :: 0 <= v < n && ticks[v] == r.px
  {
    SizeIsSum(ticks, sizes, n, n, r.px);
    var v :| v in r.venues;
    assert ticks[v] == r.px;
  }

  lemma {:induction false} SizeIsSum(ticks: seq<int>, sizes: seq<int>, n: nat, k: nat, px: int)
    requires k <= n <= |ticks| && n <= |sizes|
    ensures SizeAt(ticks, sizes, k, px) == Sum(Shown(ticks, sizes, n, px), k)
  {
    if k != 0 { SizeIsSum(ticks, sizes, n, k - 1, px); }
  }

  /** There is only one inside. */
  lemma InsideIsUnique(bid: bool, ticks: seq<int>, sizes: seq<int>, n: nat, r: Inside, q: Inside)
    requires n <= |ticks| && n <= |sizes|
    requires IsInside(bid, ticks, sizes, n, r) && IsInside(bid, ticks, sizes, n, q)
    ensures r == q
  {
    HasElement(r.venues);
    HasElement(q.venues);
    assert r.px == q.px;
    assert r.venues == q.venues;
  }

  lemma {:induction false} SizeAtUpdate(ticks: seq<int>, sizes: seq<int>, n: nat, px: int, v: nat, tick: int, size: int)
    requires n <= |ticks| == |sizes| && v < |ticks| && ticks[v] != px && tick != px
    ensures SizeAt(ticks[v := tick], sizes[v := size], n, px) == SizeAt(ticks, sizes, n, px)
  {
    if n != 0 { SizeAtUpdate(ticks, sizes, n - 1, px, v, tick, size); }
  }

  /** A venue off the inside that stays strictly off it leaves the inside alone. */
  lemma OffInside(bid: bool, ticks: seq<int>, sizes: seq<int>, n: nat, v: nat, tick: int, size: int)
    requires n == |ticks| == |sizes| && v < n
    requires var r := Scan(bid, ticks, sizes, n);
             v !in r.venues && (tick == Absent(bid) || Better(bid, r.px, tick))
    ensures Scan(bid, ticks[v := tick], sizes[v := size], n) == Scan(bid, ticks, sizes, n)
  {
    var r := Scan(bid, ticks, sizes, n);
    ScanFinds(bid, ticks, sizes, n);
    ScanFinds(bid, ticks[v := tick], sizes[v := size], n);
    if r.px != Absent(bid) { SizeAtUpdate(ticks, sizes, n, r.px, v, tick, size); }
    InsideIsUnique(bid, ticks[v := tick], sizes[v := size], n, r, Scan(bid, ticks[v := tick], sizes[v := size], n));
  }

  /** Price or size at the inside differs. */
  predicate Moved(a: Inside, b: Inside) { a.px != b.px || a.size != b.size }

  class Nbbo {
    const venues: nat
    const bidTick: array<int>
    const bidSize: array<int>
    const askTick: array<int>
    const askSize: array<int>
    var nbb: int
    var nbbSize: int
    var nbbVenues: set<nat>
    var nbo: int
    var nboSize: int
    var nboVenues: set<nat>
    var updateCount: nat
    var changeCount: nat

    ghost predicate Arrays() {
      && 1 <= venues <= 64
      && venues == bidTick.Length == bidSize.Length == askTick.Length == askSize.Length
      && bidTick != bidSize && bidTick != askTick && bidTick != askSize
      && bidSize != askTick && bidSize != askSize && askTick != askSize
    }

    /** The inside a full scan of the venue arrays finds. */
    ghost function Best(bid: bool): Inside
      requires Arrays()
      reads bidTick, bidSize, askTick, askSize
    {
      if bid then Scan(true, bidTick[..], bidSize[..], venues) else Scan(false, askTick[..], askSize[..], venues)
    }

    ghost function Cached(bid: bool): Inside
      reads this
    {
      if bid then Inside(nbb, nbbSize, nbbVenues) else Inside(nbo, nboSize, nboVenues)
    }

    ghost predicate Valid()
      reads this, bidTick, bidSize, askTick, askSize
    {
      Arrays() && Cached(true) == Best(true) && Cached(false) == Best(false)
    }

    constructor (venueCount: nat)
      requires 1 <= venueCount <= 64
      ensures Valid() && venues == venueCount && updateCount == 0 == changeCount
      ensures forall bid :: Best(bid) == Inside(Absent(bid), 0, {})
    {
      venues := venueCount;
      bidTick := new int[venueCount](_ => NO_BID);
      bidSize := new int[venueCount](_ => 0);
      askTick := new int[venueCount](_ => NO_ASK);
      askSize := new int[venueCount](_ => 0);
      nbb, nbbSize, nbbVenues := NO_BID, 0, {};
      nbo, nboSize, nboVenues := NO_ASK, 0, {};
      updateCount, changeCount := 0, 0;
      new;
      ScanFinds(true, bidTick[..], bidSize[..], venues);
      ScanFinds(false, askTick[..], askSize[..], venues);
      InsideIsUnique(true, bidTick[..], bidSize[..], venues, Best(true), Inside(NO_BID, 0, {}));
      InsideIsUnique(false, askTick[..], askSize[..], venues, Best(false), Inside(NO_ASK, 0, {}));
    }

    /** Scans all venues, refreshes the cache, and reports whether the inside moved. */
    method Recompute() returns (changed: bool)
      requires Arrays()
      modifies this
      ensures Valid() && updateCount == old(updateCount)
      ensures changed == (Moved(old(Cached(true)), Best(true)) || Moved(old(Cached(false)), Best(false)))
      ensures changeCount == old(changeCount) + if changed then 1 else 0
    {
      var bb, bbSize, bo, boSize := NO_BID, 0, NO_ASK, 0;
      var bbVenues: set<nat>, boVenues: set<nat> := {}, {};
      for v := 0 to venues
        invariant Inside(bb, bbSize, bbVenues) == Scan(true, bidTick[..], bidSize[..], v)
        invariant Inside(bo, boSize, boVenues) == Scan(false, askTick[..], askSize[..], v)
      {
        var b := bidTick[v];
        if b != NO_BID {
          if b > bb {
            bb, bbSize, bbVenues := b, bidSize[v], {v};
          } else if b == bb {
            bbSize, bbVenues := bbSize + bidSize[v], bbVenues + {v};
          }
        }
        var a := askTick[v];
        if a != NO_ASK {
          if a < bo {
            bo, boSize, boVenues := a, askSize[v], {v};
          } else if a == bo {
            boSize, boVenues := boSize + askSize[v], boVenues + {v};
          }
        }
      }
      changed := bb != nbb || bbSize != nbbSize || bo != nbo || boSize != nboSize;
      nbb, nbbSize, nbbVenues := bb, bbSize, bbVenues;
      nbo, nboSize, nboVenues := bo, boSize, boVenues;
      if changed { changeCount := changeCount + 1; }
    }

    method StoreQuote(venue: nat, bid: int, bidSz: int, ask: int, askSz: int)
      requires Arrays() && venue < venues
      modifies bidTick, bidSize, askTick, askSize
      ensures bidTick[..] == old(bidTick[..])[venue := bid] && bidSize[..] == old(bidSize[..])[venue := bidSz]
      ensures askTick[..] == old(askTick[..])[venue := ask] && askSize[..] == old(askSize[..])[venue := askSz]
    {
      bidTick[venue] := bid;
      bidSize[venue] := bidSz;
      askTick[venue] := ask;
      askSize[venue] := askSz;
    }

    /** One venue's new top of book: true exactly when price or size at the inside changed. */
    method OnVenueQuote(venue: nat, bid: int, bidSz: int, ask: int, askSz: int) returns (changed: bool)
      requires Valid() && venue < venues
      modifies this, bidTick, bidSize, askTick, askSize
      ensures Valid() && updateCount == old(updateCount) + 1
      ensures bidTick[..] == old(bidTick[..])[venue := if bidSz > 0 then bid else NO_BID]
      ensures bidSize[..] == old(bidSize[..])[venue := if bidSz > 0 then bidSz else 0]
      ensures askTick[..] == old(askTick[..])[venue := if askSz > 0 then ask else NO_ASK]
      ensures askSize[..] == old(askSize[..])[venue := if askSz > 0 then askSz else 0]
      ensures changed <==> || Best(true).px != old(Best(true).px) || Best(true).size != old(Best(true).size)
                           || Best(false).px != old(Best(false).px) || Best(false).size != old(Best(false).size)
      ensures changeCount == old(changeCount) + if changed then 1 else 0
    {
      hide Scan;
      var newBid := if bidSz > 0 then bid else NO_BID;
      var newAsk := if askSz > 0 then ask else NO_ASK;
      ghost var bt, bs, at, as_ := bidTick[..], bidSize[..], askTick[..], askSize[..];
      StoreQuote(venue, newBid, if bidSz > 0 then bidSz else 0, newAsk, if askSz > 0 then askSz else 0);
      updateCount := updateCount + 1;
      if venue !in nbbVenues && venue !in nboVenues
        && (newBid == NO_BID || newBid < nbb) && (newAsk == NO_ASK || newAsk > nbo)
      {
        OffInside(true, bt, bs, venues, venue, newBid, if bidSz > 0 then bidSz else 0);
        OffInside(false, at, as_, venues, venue, newAsk, if askSz > 0 then askSz else 0);
        return false;
      }
      changed := Recompute();
    }

    /** Feed loss: the venue shows nothing any more. */
    method OnVenueDown(venue: nat) returns (changed: bool)
      requires Valid() && venue < venues
      modifies this, bidTick, bidSize, askTick, askSize
      ensures Valid() && venue !in nbbVenues && venue !in nboVenues
      ensures changed <==> || Best(true).px != old(Best(true).px) || Best(true).size != old(Best(true).size)
                           || Best(false).px != old(Best(false).px) || Best(false).size != old(Best(false).size)
    {
      changed := OnVenueQuote(venue, NO_BID, 0, NO_ASK, 0);
      ScanFinds(true, bidTick[..], bidSize[..], venues);
      ScanFinds(false, askTick[..], askSize[..], venues);
    }
  }
}
