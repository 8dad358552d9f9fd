/**
 The hot-path smart order router.  `Route` repeatedly gives what it can to the best unused
 venue by all-in price; the result is the one allocation that fills venues strictly in
 (all-in price, venue index) order, and no other way to place the same quantity is cheaper.
 */
module HftSor {
  import opened RealAlgebra
  import opened RealSums
  import opened Greedy
  import opened IntegerSums

  const NO_BID: int := -0x8000_0000
  const NO_ASK: int := 0x7FFF_FFFF

  function Reals(x: seq<int>): (r: seq<real>)
    ensures |r| == |x| && forall i :: 0 <= i < |x| ==> r[i] == x[i] as real
  {
    seq(|x|, i requires 0 <= i < |x| => x[i] as real)
  }

  lemma {:induction false} SumOfReals(x: seq<int>, n: nat)
    requires n <= |x|
    ensures Total(Reals(x), n) == Sum(x, n) as real
  {
    if n != 0 { SumOfReals(x, n - 1); }
  }

  // ----- what a side offers ---------------------------------------------------

  /** A venue is routable when it shows size, has a price, and the price is within the limit. */
  function Cap(buy: bool, px: int, sz: int, limit: int): int {
    if sz <= 0 || px == (if buy then NO_ASK else NO_BID) || (if buy then px > limit else px < limit) then 0 else sz
  }

  function Caps(buy: bool, px: seq<int>, sz: seq<int>, limit: int): (c: seq<int>)
    requires |px| == |sz|
    ensures |c| == |px| && forall v :: 0 <= v < |px| ==> c[v] == Cap(buy, px[v], sz[v], limit) && c[v] >= 0
  {
    seq(|px|, v requires 0 <= v < |px| => Cap(buy, px[v], sz[v], limit))
  }

  /** Quote plus fee for a buyer, quote less fee for a seller. */
  function AllIn(buy: bool, px: seq<int>, fee: seq<real>): (a: seq<real>)
    requires |px| == |fee|
    ensures |a| == |px|
    ensures forall v :: 0 <= v < |px| ==> a[v] == if buy then px[v] as real + fee[v] else px[v] as real - fee[v]
  {
    seq(|px|, v requires 0 <= v < |px| => if buy then px[v] as real + fee[v] else px[v] as real - fee[v])
  }

  /** Venue `u` is served before venue `v`. */
  predicate Before(key: seq<real>, u: nat, v: nat)
    requires u < |key| && v < |key|
  {
    key[u] < key[v] || (key[u] == key[v] && u < v)
  }

  predicate Fits(x: seq<int>, caps: seq<int>) {
    |x| == |caps| && forall v :: 0 <= v < |x| ==> 0 <= x[v] <= caps[v]
  }

  /** A venue gets something only once every venue before it is full. */
  predicate InOrder(key: seq<real>, caps: seq<int>, x: seq<int>) {
    && |key| == |caps| == |x|
    && forall u, v :: 0 <= u < |x| && 0 <= v < |x| && x[v] > 0 && Before(key, u, v) ==> x[u] == caps[u]
  }

  // ----- the allocation is unique and cheapest --------------------------------

  /** The venue served last among those below `n` that got something. */
  lemma {:induction false} LastServed(key: seq<real>, x: seq<int>, n: nat) returns (last: int)
    requires n <= |x| == |key|
    ensures -1 <= last < n && (last == -1 ==> forall v :: 0 <= v < n ==> x[v] <= 0)
    ensures last != -1 ==> x[last] > 0 && forall v :: 0 <= v < n && x[v] > 0 ==> v == last || Before(key, v, last)
  {
    if n == 0 {
      last := -1;
    } else {
      last := LastServed(key, x, n - 1);
      if x[n - 1] > 0 && (last == -1 || Before(key, last, n - 1)) { last := n - 1; }
    }
  }

  /** Filling in order is filling up to a threshold price, so nothing of the same size is cheaper. */
  lemma {:induction false} InOrderIsCheapest(key: seq<real>, caps: seq<int>, x: seq<int>, y: seq<real>)
    requires Fits(x, caps) && InOrder(key, caps, x)
    requires Within(y, Reals(caps)) && Total(y, |y|) == Sum(x, |x|) as real
    ensures Dot(key, Reals(x), |x|) <= Dot(key, y, |y|)
  {
    var last := LastServed(key, x, |x|);
    SumOfReals(x, |x|);
    if last == -1 {
      SumZero(x, |x|);
      ZeroSums(key, Reals(x), |x|);
      NothingPlaced(y, |y|);
      ZeroSums(key, y, |y|);
    } else {
      ThresholdIsCheapest(key, Reals(caps), Reals(x), y, key[last]);
    }
  }

  lemma {:induction false} NothingPlaced(y: seq<real>, n: nat)
    requires n <= |y| && Total(y, n) <= 0.0 && forall i :: 0 <= i < n ==> y[i] >= 0.0
    ensures forall i :: 0 <= i < n ==> y[i] == 0.0
  {
    if n != 0 {
      TotalFloor(y, n - 1);
      NothingPlaced(y, n - 1);
    }
  }

  /** Size and order pin the allocation down completely: any two such allocations are the same. */
  lemma {:induction false} InOrderIsUnique(key: seq<real>, caps: seq<int>, x: seq<int>, y: seq<int>)
    requires Fits(x, caps) && InOrder(key, caps, x) && Fits(y, caps) && InOrder(key, caps, y)
    requires Sum(x, |x|) == Sum(y, |y|)
    ensures x == y
  {
    if v :| 0 <= v < |x| && x[v] < y[v] {
      OneSided(key, caps, x, y, v);
    } else if v :| 0 <= v < |x| && y[v] < x[v] {
      OneSided(key, caps, y, x, v);
    }
  }

  lemma {:induction false} OneSided(key: seq<real>, caps: seq<int>, x: seq<int>, y: seq<int>, v: nat)
    requires Fits(x, caps) && InOrder(key, caps, x) && Fits(y, caps) && InOrder(key, caps, y)
    requires v < |x| && x[v] < y[v]
    ensures Sum(x, |x|) < Sum(y, |y|)
  {
    forall u | 0 <= u < |x| ensures x[u] <= y[u] {
      assert u == v || Before(key, u, v) || Before(key, v, u);
    }
    SumUpdate(x, v, y[v], |x|);
    SumBelow(x[v := y[v]], y, |x|);
  }

  // ----- what it means in money -----------------------------------------------

  /** Whether a buyer or seller with this limit can use the quote: it is there, shows size, and is no worse than the limit. */
  lemma UsableQuote(buy: bool, px: int, sz: int, limit: int)
    ensures Cap(true, px, sz, limit) == if sz > 0 && px != NO_ASK && px <= limit then sz else 0
    ensures Cap(false, px, sz, limit) == if sz > 0 && px != NO_BID && px >= limit then sz else 0
  {
  }

  /** Quote value of an allocation, and its fees. */
  lemma {:induction false} AllInValue(buy: bool, px: seq<int>, fee: seq<real>, y: seq<real>, n: nat)
    requires |px| == |fee| && n <= |px| && n <= |y|
    ensures Dot(Keys(buy, AllIn(buy, px, fee)), y, n)
         == if buy then Dot(Reals(px), y, n) + Dot(fee, y, n) else Dot(fee, y, n) - Dot(Reals(px), y, n)
  {
    hide Mul;
    if n != 0 {
      AllInValue(buy, px, fee, y, n - 1);
      var p, f, q := px[n - 1] as real, fee[n - 1], y[n - 1];
      MulAdd(q, p, f);
      MulSub(q, f, p);
    }
  }

  /** Routed in order, a buy pays least and a sell brings most after fees, among all allocations of its size. */
  lemma RouteIsBest(buy: bool, px: seq<int>, fee: seq<real>, caps: seq<int>, x: seq<int>, y: seq<real>)
    requires |px| == |fee| == |caps| && Fits(x, caps) && InOrder(Keys(buy, AllIn(buy, px, fee)), caps, x)
    requires Within(y, Reals(caps)) && Total(y, |y|) == Sum(x, |x|) as real
    ensures var n, r := |x|, Reals(x);
            && (buy ==> Dot(Reals(px), r, n) + Dot(fee, r, n) <= Dot(Reals(px), y, n) + Dot(fee, y, n))
            && (!buy ==> Dot(Reals(px), r, n) - Dot(fee, r, n) >= Dot(Reals(px), y, n) - Dot(fee, y, n))
  {
    InOrderIsCheapest(Keys(buy, AllIn(buy, px, fee)), caps, x, y);
    AllInValue(buy, px, fee, Reals(x), |x|);
    AllInValue(buy, px, fee, y, |x|);
    hide Dot;
  }

  // ----- the routing loop -----------------------------------------------------

  /** The router's loop: venues are full or empty while anything remains, and served in order. */
  predicate Progress(key: seq<real>, caps: seq<int>, x: seq<int>, quantity: int, remaining: int) {
    && Fits(x, caps) && InOrder(key, caps, x) && Sum(x, |x|) == quantity - remaining
    && (remaining > 0 ==> forall v :: 0 <= v < |x| ==> x[v] == 0 || x[v] == caps[v])
  }

  lemma StartOrder(key: seq<real>, caps: seq<int>, x: seq<int>, quantity: int)
    requires |key| == |caps| == |x| && forall v :: 0 <= v < |x| ==> x[v] == 0 <= caps[v]
    ensures Progress(key, caps, x, quantity, quantity)
  {
    SumZero(x, |x|);
  }

  lemma ProgressBound(key: seq<real>, caps: seq<int>, x: seq<int>, quantity: int, remaining: int)
    requires Progress(key, caps, x, quantity, remaining)
    ensures Fits(x, caps) && InOrder(key, caps, x)
    ensures 0 <= Sum(x, |x|) == quantity - remaining <= Sum(caps, |caps|)
  {
    SumBelow(x, caps, |x|);
    SumBelow(Zeros(|x|), x, |x|);
    SumZero(Zeros(|x|), |x|);
  }

  function Zeros(n: nat): (z: seq<int>)
    ensures |z| == n && forall i :: 0 <= i < n ==> z[i] == 0
  {
    seq(n, _ => 0)
  }

  lemma AllFull(key: seq<real>, caps: seq<int>, x: seq<int>, quantity: int, remaining: int)
    requires Progress(key, caps, x, quantity, remaining) && remaining > 0
    requires forall v :: 0 <= v < |x| && x[v] == 0 ==> caps[v] == 0
    ensures Sum(caps, |caps|) == quantity - remaining
  {
    assert x == caps;
  }

  lemma GiveOne(key: seq<real>, caps: seq<int>, x: seq<int>, quantity: int, remaining: int, best: nat, take: int)
    requires Progress(key, caps, x, quantity, remaining) && remaining > 0
    requires best < |x| && x[best] == 0 && caps[best] > 0
    requires take == if remaining <= caps[best] then remaining else caps[best]
    requires forall v :: 0 <= v < |x| && x[v] == 0 && caps[v] > 0 ==> v == best || Before(key, best, v)
    ensures Progress(key, caps, x[best := take], quantity, remaining - take)
  {
    SumUpdate(x, best, take, |x|);
  }

  // ----- the router -----------------------------------------------------------

  class HftSor {
    const venues: nat
    const bidTick: array<int>
    const bidSize: array<int>
    const askTick: array<int>
    const askSize: array<int>
    const feeTicks: array<real>
    var routeCount: nat

    ghost predicate Valid()
      reads this, bidSize, askSize
    {
      && venues == bidTick.Length == bidSize.Length == askTick.Length == askSize.Length == feeTicks.Length
      && bidTick != bidSize && bidTick != askTick && bidTick != askSize
      && bidSize != askTick && bidSize != askSize && askTick != askSize
      && (forall v :: 0 <= v < venues ==> bidSize[v] >= 0 && askSize[v] >= 0)
    }

    ghost predicate Foreign(a: array<int>) {
      a != bidTick && a != bidSize && a != askTick && a != askSize
    }

    constructor (venueCount: nat)
      requires venueCount >= 1
      ensures Valid() && venues == venueCount && routeCount == 0
      ensures forall v :: 0 <= v < venues ==> bidSize[v] == 0 && askSize[v] == 0 && feeTicks[v] == 0.0
    {
      venues, routeCount := venueCount, 0;
      bidTick := new int[venueCount](_ => NO_BID);
      bidSize := new int[venueCount](_ => 0);
      askTick := new int[venueCount](_ => NO_ASK);
      askSize := new int[venueCount](_ => 0);
      feeTicks := new real[venueCount](_ => 0.0);
    }

    function Ticks(buy: bool): array<int> { if buy then askTick else bidTick }

    function Sizes(buy: bool): array<int> { if buy then askSize else bidSize }

    /** How much each venue can give to one order. */
    ghost function Offered(buy: bool, limit: int): (c: seq<int>)
      requires Valid()
      reads this, bidSize, askSize, Ticks(buy)
      ensures |c| == venues
    {
      Caps(buy, Ticks(buy)[..], Sizes(buy)[..], limit)
    }

    ghost function Prices(buy: bool): (p: seq<real>)
      requires Valid()
      reads this, bidSize, askSize, Ticks(buy), feeTicks
      ensures |p| == venues
    {
      AllIn(buy, Ticks(buy)[..], feeTicks[..])
    }

    /** A buyer lifts asks, a seller hits bids. */
    lemma BuyersLiftAsks(limit: int)
      requires Valid()
      ensures Prices(true) == AllIn(true, askTick[..], feeTicks[..]) && Prices(false) == AllIn(false, bidTick[..], feeTicks[..])
      ensures Offered(true, limit) == Caps(true, askTick[..], askSize[..], limit)
      ensures Offered(false, limit) == Caps(false, bidTick[..], bidSize[..], limit)
    {
    }

    method Fee(venue: nat, takerFeeTicks: real)
      requires Valid() && venue < venues
      modifies feeTicks
      ensures Valid() && feeTicks[..] == old(feeTicks[..])[venue := takerFeeTicks]
    {
      feeTicks[venue] := takerFeeTicks;
    }

    method VenueQuote(venue: nat, bid: int, bidSz: int, ask: int, askSz: int)
      requires Valid() && venue < venues
      modifies bidTick, bidSize, askTick, askSize
      ensures Valid()
      ensures bidTick[..] == old(bidTick[..])[venue := if bidSz > 0 then bid else NO_BID]
      ensures bidSize[..] == old(bidSize[..])[venue := if bidSz > 0 then bidSz else 0]
      ensures askTick[..] == old(askTick[..])[venue := if askSz > 0 then ask else NO_ASK]
      ensures askSize[..] == old(askSize[..])[venue := if askSz > 0 then askSz else 0]
    {
      bidTick[venue] := if bidSz > 0 then bid else NO_BID;
      bidSize[venue] := if bidSz > 0 then bidSz else 0;
      askTick[venue] := if askSz > 0 then ask else NO_ASK;
      askSize[venue] := if askSz > 0 then askSz else 0;
    }

    /** A venue that is down offers nothing to any order; every other venue offers what it did. */
    method VenueDown(venue: nat)
      requires Valid() && venue < venues
      modifies bidTick, bidSize, askTick, askSize
      ensures Valid()
      ensures forall buy, limit :: Offered(buy, limit) == old(Offered(buy, limit))[venue := 0]
    {
      VenueQuote(venue, NO_BID, 0, NO_ASK, 0);
    }

    /** The first unused routable venue of best all-in price, or -1. */
    method Select(buy: bool, limitTick: int, outQty: array<int>) returns (best: int)
      requires Valid() && outQty.Length >= venues
      ensures var key, caps := Keys(buy, Prices(buy)), Offered(buy, limitTick);
              && -1 <= best < venues
              && (best == -1 ==> forall v :: 0 <= v < venues && outQty[v] == 0 ==> caps[v] == 0)
              && (best != -1 ==>
                    && outQty[best] == 0 && caps[best] > 0 && caps[best] == Sizes(buy)[best]
                    && forall v :: 0 <= v < venues && outQty[v] == 0 && caps[v] > 0 ==> v == best || Before(key, best, v))
    {
      ghost var key, caps := Keys(buy, Prices(buy)), Offered(buy, limitTick);
      best := -1;
      var bestAllIn := 0.0;
      for v := 0 to venues
        invariant -1 <= best < v
        invariant best == -1 ==> forall u :: 0 <= u < v && outQty[u] == 0 ==> caps[u] == 0
        invariant best != -1 ==>
                    && outQty[best] == 0 && caps[best] > 0 && caps[best] == Sizes(buy)[best]
                    && key[best] == Key(buy, bestAllIn)
                    && forall u :: 0 <= u < v && outQty[u] == 0 && caps[u] > 0 ==> u == best || Before(key, best, u)
      {
        if outQty[v] != 0 { continue; }
        var px := if buy then askTick[v] else bidTick[v];
        var sz := if buy then askSize[v] else bidSize[v];
        if sz <= 0 || px == (if buy then NO_ASK else NO_BID) || (if buy then px > limitTick else px < limitTick) {
          continue;
        }
        var allIn := if buy then px as real + feeTicks[v] else px as real - feeTicks[v];
        if best == -1 || (if buy then allIn < bestAllIn else allIn > bestAllIn) {
          best, bestAllIn := v, allIn;
        }
      }
    }

    method Clear(outQty: array<int>)
      requires Valid() && outQty.Length >= venues && Foreign(outQty)
      modifies outQty
      ensures outQty[venues..] == old(outQty[venues..])
      ensures forall v :: 0 <= v < venues ==> outQty[v] == 0
    {
      for v := 0 to venues
        invariant forall u :: 0 <= u < v ==> outQty[u] == 0
        invariant outQty[venues..] == old(outQty[venues..])
      {
        outQty[v] := 0;
      }
    }

    /**
     Routes `quantity` and returns how much found displayed liquidity: all of it, or all that is
     offered.  Children fit the venues and fill them in order; entries past the venues are untouched.
     */
    method Route(buy: bool, quantity: int, limitTick: int, outQty: array<int>) returns (routed: int)
      requires Valid() && outQty.Length >= venues && Foreign(outQty)
      modifies this`routeCount, outQty
      ensures Valid() && routeCount == old(routeCount) + 1
      ensures outQty[venues..] == old(outQty[venues..])
      ensures Fits(outQty[..venues], Offered(buy, limitTick))
      ensures InOrder(Keys(buy, Prices(buy)), Offered(buy, limitTick), outQty[..venues])
      ensures routed == Sum(outQty[..venues], venues)
      ensures var shown := Sum(Offered(buy, limitTick), venues);
              routed == if quantity <= 0 then 0 else if quantity < shown then quantity else shown
    {
      hide InOrder;
      hide Before;
      hide Progress;
      hide AllIn;
      hide Keys;
      Clear(outQty);
      routeCount := routeCount + 1;
      ghost var key, caps := Keys(buy, Prices(buy)), Offered(buy, limitTick);
      var remaining := quantity;
      StartOrder(key, caps, outQty[..venues], quantity);
      while remaining > 0
        invariant Valid() && key == Keys(buy, Prices(buy)) && caps == Offered(buy, limitTick)
        invariant outQty[venues..] == old(outQty[venues..])
        invariant routeCount == old(routeCount) + 1
        invariant if quantity > 0 then remaining >= 0 else remaining == quantity
        invariant Progress(key, caps, outQty[..venues], quantity, remaining)
      {
        var best := Select(buy, limitTick, outQty);
        if best == -1 {
          AllFull(key, caps, outQty[..venues], quantity, remaining);
          break;
        }
        var take := if remaining <= Sizes(buy)[best] then remaining else Sizes(buy)[best];
        ghost var x := outQty[..venues];
        GiveOne(key, caps, x, quantity, remaining, best, take);
        outQty[best] := take;
        assert outQty[..venues] == x[best := take];
        remaining := remaining - take;
      }
      ProgressBound(key, caps, outQty[..venues], quantity, remaining);
      return quantity - remaining;
    }
  }
}
