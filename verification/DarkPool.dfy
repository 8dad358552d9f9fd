/**
 The midpoint dark pool.  A dry run decides whether an order's minimum execution quantity can be
 met, then the same slices are executed.  `Slices` says what time priority and the resting
 orders' own minimums give each of them; everything else is proved about it.
 */
module DarkPool {
  import opened Outcomes
  import opened ExtendedReals
  import opened IntegerSums

  datatype Side = Buy | Sell
  datatype Fill = Fill(buyOrderId: nat, sellOrderId: nat, price: real, quantity: int)
  datatype Resting = Resting(id: nat, qty: int, minQty: int)

  function Min(a: int, b: int): int { if a <= b then a else b }

  /** Queues hold positive quantities in the time order of their ids. */
  ghost predicate InTime(q: seq<Resting>, next: nat) {
    && (forall i :: 0 <= i < |q| ==> q[i].qty > 0 && q[i].minQty >= 0 && q[i].id < next)
    && (forall i, j :: 0 <= i < j < |q| ==> q[i].id < q[j].id)
  }

  function Qty(q: seq<Resting>): int {
    if q == [] then 0 else Qty(q[..|q| - 1]) + q[|q| - 1].qty
  }

  /** What an order takes from each of the first `n` resting orders, in time order. */
  function Slices(q: seq<Resting>, quantity: int, n: nat): (x: seq<int>)
    requires n <= |q|
    ensures |x| == n
  {
    if n == 0 then []
    else
      var before := Slices(q, quantity, n - 1);
      var offer := Min(quantity - Sum(before, n - 1), q[n - 1].qty);
      before + [if offer < q[n - 1].minQty then 0 else offer]
  }

  lemma {:induction false} SumPrefix(x: seq<int>, y: seq<int>, n: nat)
    requires n <= |x|
    ensures Sum(x + y, n) == Sum(x, n)
  {
    if n != 0 { SumPrefix(x, y, n - 1); }
  }

  lemma SlicesGrow(q: seq<Resting>, quantity: int, n: nat)
    requires 0 < n <= |q|
    ensures Slices(q, quantity, n)[..n - 1] == Slices(q, quantity, n - 1)
    ensures Sum(Slices(q, quantity, n), n) == Sum(Slices(q, quantity, n - 1), n - 1) + Slices(q, quantity, n)[n - 1]
  {
    var before := Slices(q, quantity, n - 1);
    SumPrefix(before, [Slices(q, quantity, n)[n - 1]], n - 1);
  }

  /** Slices never exceed the order or a resting quantity, and meet each resting order's minimum. */
  lemma {:induction false} SlicesFit(q: seq<Resting>, quantity: int, n: nat, next: nat)
    requires n <= |q| && InTime(q, next) && quantity >= 0
    ensures var x := Slices(q, quantity, n);
            && 0 <= Sum(x, n) <= quantity
            && forall i :: 0 <= i < n ==> 0 <= x[i] <= q[i].qty && (x[i] > 0 ==> x[i] >= q[i].minQty)
  {
    if n != 0 {
      SlicesFit(q, quantity, n - 1, next);
      SlicesGrow(q, quantity, n);
    }
  }

  /** A resting order is passed over only when its minimum cannot be met, and once anything is left over
      everything that could trade has traded in full. */
  lemma {:induction false} SlicesExhaust(q: seq<Resting>, quantity: int, n: nat, next: nat)
    requires n <= |q| && InTime(q, next) && quantity >= 0
    ensures var x := Slices(q, quantity, n);
            var left := quantity - Sum(x, n);
            left > 0 ==> forall i :: 0 <= i < n ==> x[i] == q[i].qty || (x[i] == 0 && Min(left, q[i].qty) < q[i].minQty)
  {
    if n != 0 {
      SlicesExhaust(q, quantity, n - 1, next);
      SlicesFit(q, quantity, n - 1, next);
      SlicesGrow(q, quantity, n);
      var x, y := Slices(q, quantity, n - 1), Slices(q, quantity, n);
      var offer := Min(quantity - Sum(x, n - 1), q[n - 1].qty);
      assert y[n - 1] == if offer < q[n - 1].minQty then 0 else offer;
      hide Slices;
      hide Sum;
      forall i | 0 <= i < n && quantity - Sum(y, n) > 0
        ensures y[i] == q[i].qty || (y[i] == 0 && Min(quantity - Sum(y, n), q[i].qty) < q[i].minQty)
      {
        if i < n - 1 { assert y[i] == y[..n - 1][i] == x[i]; }
      }
    }
  }

  lemma {:induction false} SlicesPrefix(q: seq<Resting>, quantity: int, n: nat, m: nat)
    requires n <= m <= |q|
    ensures Slices(q, quantity, m)[..n] == Slices(q, quantity, n)
  {
    if n < m { SlicesPrefix(q, quantity, n, m - 1); }
  }

  /** Each slice from the ones before it. */
  lemma SliceAt(q: seq<Resting>, quantity: int, i: nat)
    requires i < |q|
    ensures var x := Slices(q, quantity, |q|);
            var offer := Min(quantity - Sum(x, i), q[i].qty);
            x[i] == if offer < q[i].minQty then 0 else offer
  {
    var x, before := Slices(q, quantity, |q|), Slices(q, quantity, i);
    SlicesPrefix(q, quantity, i, |q|);
    SlicesPrefix(q, quantity, i + 1, |q|);
    SumPrefix(before, x[i..], i);
    assert x == before + x[i..] && x[i] == x[..i + 1][i];
  }

  /** Once the order is used up the remaining slices are empty. */
  lemma {:induction false} NothingAfter(q: seq<Resting>, quantity: int, i: nat, m: nat, next: nat)
    requires i <= m <= |q| && InTime(q, next) && Sum(Slices(q, quantity, |q|), i) == quantity
    ensures var x := Slices(q, quantity, |q|);
            Sum(x, m) == quantity && forall k :: i <= k < m ==> x[k] == 0
  {
    if i < m {
      NothingAfter(q, quantity, i, m - 1, next);
      SliceAt(q, quantity, m - 1);
    }
  }

  // ----- the queue afterwards -------------------------------------------------

  /** Residual quantities, empty orders gone. */
  function Kept(q: seq<Resting>, x: seq<int>, n: nat): (k: seq<Resting>)
    requires n <= |q| && n <= |x|
  {
    if n == 0 then []
    else
      var r := q[n - 1].(qty := q[n - 1].qty - x[n - 1]);
      if r.qty == 0 then Kept(q, x, n - 1) else Kept(q, x, n - 1) + [r]
  }

  lemma {:induction false} KeptConserves(q: seq<Resting>, x: seq<int>, n: nat)
    requires n <= |q| && n <= |x|
    ensures Qty(Kept(q, x, n)) == Qty(q[..n]) - Sum(x, n)
  {
    if n != 0 {
      KeptConserves(q, x, n - 1);
      assert q[..n][..n - 1] == q[..n - 1];
      var k := Kept(q, x, n);
      if q[n - 1].qty != x[n - 1] { assert k[..|k| - 1] == Kept(q, x, n - 1); }
    }
  }

  lemma {:induction false} KeptInTime(q: seq<Resting>, x: seq<int>, n: nat, next: nat)
    requires n <= |q| && n <= |x| && InTime(q, next)
    requires forall i :: 0 <= i < n ==> 0 <= x[i] <= q[i].qty
    ensures InTime(Kept(q, x, n), if n < |q| then q[n].id else next)
  {
    if n != 0 { KeptInTime(q, x, n - 1, next); }
  }

  /** Whatever is left of the order can trade with nothing that stays in the queue. */
  lemma {:induction false} KeptUncrossable(q: seq<Resting>, x: seq<int>, left: int, n: nat)
    requires n <= |q| && n <= |x|
    requires forall i :: 0 <= i < n ==> x[i] == q[i].qty || (x[i] == 0 && Min(left, q[i].qty) < q[i].minQty)
    ensures forall i :: 0 <= i < |Kept(q, x, n)| ==> Min(left, Kept(q, x, n)[i].qty) < Kept(q, x, n)[i].minQty
  {
    if n != 0 { KeptUncrossable(q, x, left, n - 1); }
  }

  // ----- the fills ------------------------------------------------------------

  function Trade(side: Side, id: nat, r: Resting, price: real, quantity: int): Fill {
    if side.Buy? then Fill(id, r.id, price, quantity) else Fill(r.id, id, price, quantity)
  }

  function Fills(side: Side, id: nat, price: real, q: seq<Resting>, x: seq<int>, n: nat): (f: seq<Fill>)
    requires n <= |q| && n <= |x|
  {
    if n == 0 then []
    else
      Fills(side, id, price, q, x, n - 1)
      + if x[n - 1] == 0 then [] else [Trade(side, id, q[n - 1], price, x[n - 1])]
  }

  function FillTotal(f: seq<Fill>): int {
    if f == [] then 0 else FillTotal(f[..|f| - 1]) + f[|f| - 1].quantity
  }

  lemma {:induction false} FillsTotal(side: Side, id: nat, price: real, q: seq<Resting>, x: seq<int>, n: nat)
    requires n <= |q| && n <= |x|
    ensures FillTotal(Fills(side, id, price, q, x, n)) == Sum(x, n)
  {
    if n != 0 {
      FillsTotal(side, id, price, q, x, n - 1);
      var f, before := Fills(side, id, price, q, x, n), Fills(side, id, price, q, x, n - 1);
      if x[n - 1] == 0 {
        assert f == before;
      } else {
        assert f == before + [Trade(side, id, q[n - 1], price, x[n - 1])] && f[..|f| - 1] == before;
      }
    }
  }

  lemma {:induction false} FillsSettle(side: Side, id: nat, price: real, q: seq<Resting>, x: seq<int>, i: nat, n: nat)
    requires i <= n <= |q| && n <= |x| && forall k :: i <= k < n ==> x[k] == 0
    ensures Fills(side, id, price, q, x, n) == Fills(side, id, price, q, x, i)
  {
    if i < n { FillsSettle(side, id, price, q, x, i, n - 1); }
  }

  /** The contra orders of fills, in the order they were hit. */
  function Contra(side: Side, f: Fill): nat { if side.Buy? then f.sellOrderId else f.buyOrderId }

  /** Fills hit contra orders in time order, all below `bound`, all at one price. */
  ghost predicate HitInTime(side: Side, f: seq<Fill>, bound: nat, price: real) {
    && (forall i :: 0 <= i < |f| ==> Contra(side, f[i]) < bound && f[i].price == price)
    && (forall i, j :: 0 <= i < j < |f| ==> Contra(side, f[i]) < Contra(side, f[j]))
  }

  lemma HitNext(side: Side, f: seq<Fill>, t: Fill, bound: nat, price: real)
    requires HitInTime(side, f, Contra(side, t), price) && Contra(side, t) < bound && t.price == price
    ensures HitInTime(side, f + [t], bound, price) && HitInTime(side, f, bound, price)
  {
  }

  lemma {:induction false} FillsInTime(side: Side, id: nat, price: real, q: seq<Resting>, x: seq<int>, n: nat, next: nat)
    requires n <= |q| && n <= |x| && InTime(q, next)
    ensures HitInTime(side, Fills(side, id, price, q, x, n), if n < |q| then q[n].id else next, price)
  {
    if n != 0 {
      FillsInTime(side, id, price, q, x, n - 1, next);
      HitNext(side, Fills(side, id, price, q, x, n - 1), Trade(side, id, q[n - 1], price, x[n - 1]),
              if n < |q| then q[n].id else next, price);
    }
  }

  // ----- one order ------------------------------------------------------------

  function Nothing(n: nat): (x: seq<int>)
    ensures |x| == n && forall i :: 0 <= i < n ==> x[i] == 0
  {
    seq(n, _ => 0)
  }

  /** The slices that actually execute: all of them, or none when the order's own minimum is out of reach. */
  function Executed(mid: Option<real>, q: seq<Resting>, quantity: int, minQty: int): (x: seq<int>)
    ensures |x| == |q|
  {
    var x := Slices(q, quantity, |q|);
    if mid.Some? && Sum(x, |q|) >= minQty then x else Nothing(|q|)
  }

  /** Immediate fills total nothing or at least the minimum, never more than the order. */
  lemma {:induction false} ExecutedMeetsMinimum(mid: Option<real>, q: seq<Resting>, quantity: int, minQty: int, next: nat)
    requires InTime(q, next) && quantity > 0 && minQty >= 0
    ensures var x := Executed(mid, q, quantity, minQty);
            && (Sum(x, |q|) == 0 || minQty <= Sum(x, |q|)) && 0 <= Sum(x, |q|) <= quantity
            && (forall i :: 0 <= i < |q| ==> 0 <= x[i] <= q[i].qty && (x[i] > 0 ==> x[i] >= q[i].minQty))
            && InTime(Kept(q, x, |q|), next) && Qty(Kept(q, x, |q|)) == Qty(q) - Sum(x, |q|)
  {
    var x := Executed(mid, q, quantity, minQty);
    SlicesFit(q, quantity, |q|, next);
    SumZero(Nothing(|q|), |q|);
    KeptInTime(q, x, |q|, next);
    KeptConserves(q, x, |q|);
    assert q[..|q|] == q;
  }

  /** When an order that crossed still rests, nothing on the other side could have filled more of it. */
  lemma {:induction false} NothingMissed(mid: Option<real>, q: seq<Resting>, quantity: int, minQty: int, next: nat)
    requires InTime(q, next) && quantity > 0 && minQty >= 0 && mid.Some?
    ensures var x := Executed(mid, q, quantity, minQty);
            var left, kept := quantity - Sum(x, |q|), Kept(q, x, |q|);
            left > 0 && x == Slices(q, quantity, |q|) ==>
              forall i :: 0 <= i < |kept| ==> Min(left, kept[i].qty) < kept[i].minQty
  {
    var x := Slices(q, quantity, |q|);
    SlicesExhaust(q, quantity, |q|, next);
    if quantity - Sum(x, |q|) > 0 { KeptUncrossable(q, x, quantity - Sum(x, |q|), |q|); }
  }

  /** Slices stay within what rests. */
  lemma {:induction false} SumWithin(q: seq<Resting>, quantity: int, i: nat, next: nat)
    requires i <= |q| && InTime(q, next) && quantity >= 0
    ensures Sum(Slices(q, quantity, |q|), i) <= Qty(q[..i])
  {
    if i != 0 {
      SumWithin(q, quantity, i - 1, next);
      SlicesFit(q, quantity, |q|, next);
      assert q[..i][..i - 1] == q[..i - 1];
    }
  }

  lemma {:induction false} QtyGrows(q: seq<Resting>, i: nat, n: nat, next: nat)
    requires i < n <= |q| && InTime(q, next)
    ensures 0 <= Qty(q[..i]) && Qty(q[..i]) + q[i].qty <= Qty(q[..n])
    decreases n
  {
    assert q[..n][..n - 1] == q[..n - 1];
    if i < n - 1 {
      QtyGrows(q, i, n - 1, next);
    } else if i != 0 {
      QtyGrows(q, 0, i, next);
    }
  }

  /** An order as large as the whole queue fills every resting order that can trade at all. */
  lemma TakesAll(q: seq<Resting>, quantity: int, i: nat, next: nat)
    requires InTime(q, next) && i < |q| && quantity >= Qty(q)
    ensures Slices(q, quantity, |q|)[i] == if q[i].qty < q[i].minQty then 0 else q[i].qty
  {
    QtyGrows(q, i, |q|, next);
    assert q[..|q|] == q;
    SumWithin(q, quantity, i, next);
    SliceAt(q, quantity, i);
  }

  /** A partial fill below its own minimum strands the rest: no order, of whatever size, can hit it again. */
  lemma ResidueIsStranded(q: seq<Resting>, i: nat, next: nat)
    requires InTime(q, next) && i < |q|
    ensures (exists quantity :: quantity > 0 && Slices(q, quantity, |q|)[i] > 0) <==> q[i].qty >= q[i].minQty
  {
    if q[i].qty >= q[i].minQty {
      QtyGrows(q, i, |q|, next);
      assert q[..|q|] == q;
      TakesAll(q, Qty(q), i, next);
    } else {
      forall quantity | quantity > 0 ensures Slices(q, quantity, |q|)[i] == 0 { SliceAt(q, quantity, i); }
    }
  }

  lemma {:induction false} NoSlices(side: Side, id: nat, price: real, q: seq<Resting>, next: nat)
    requires InTime(q, next)
    ensures Fills(side, id, price, q, Nothing(|q|), |q|) == [] && Sum(Nothing(|q|), |q|) == 0
    ensures Kept(q, Nothing(|q|), |q|) == q
  {
    SumZero(Nothing(|q|), |q|);
    FillsSettle(side, id, price, q, Nothing(|q|), 0, |q|);
    KeptWhole(q, Nothing(|q|), |q|, next);
    assert q[..|q|] == q;
  }

  lemma {:induction false} KeptWhole(q: seq<Resting>, x: seq<int>, n: nat, next: nat)
    requires n <= |q| && n <= |x| && InTime(q, next) && forall i :: 0 <= i < n ==> x[i] == 0
    ensures Kept(q, x, n) == q[..n]
  {
    if n != 0 { KeptWhole(q, x, n - 1, next); }
  }

  lemma StillInTime(q: seq<Resting>, next: nat)
    requires InTime(q, next)
    ensures InTime(q, next + 1)
  {
  }

  /** The newest order rests last. */
  lemma RestLast(q: seq<Resting>, r: Resting)
    requires InTime(q, r.id) && r.qty > 0 && r.minQty >= 0
    ensures InTime(q + [r], r.id + 1) && Qty(q + [r]) == Qty(q) + r.qty
  {
    assert (q + [r])[..|q|] == q;
  }

  /** An order crosses exactly when there is a mid and its slices reach its minimum; it does then take from the first
      resting order whatever both allow, unless that is under the resting order's own minimum. */
  lemma FirstInLine(mid: Option<real>, q: seq<Resting>, quantity: int, minQty: int, next: nat)
    requires InTime(q, next) && quantity > 0 && minQty >= 0 && |q| > 0
    ensures var x, first := Executed(mid, q, quantity, minQty), Min(quantity, q[0].qty);
            && (mid == None ==> forall i :: 0 <= i < |q| ==> x[i] == 0)
            && (mid != None && first >= q[0].minQty && first >= minQty ==> x[0] == first)
            && (first < q[0].minQty ==> x[0] == 0)
  {
    var x := Slices(q, quantity, |q|);
    SliceAt(q, quantity, 0);
    SlicesFit(q, quantity, |q|, next);
    SumFloor(x, 1, |q|);
    assert Sum(x, 1) == Sum(x, 0) + x[0];
  }

  lemma {:induction false} SumFloor(x: seq<int>, n: nat, m: nat)
    requires n <= m <= |x| && forall i :: 0 <= i < |x| ==> x[i] >= 0
    ensures Sum(x, n) <= Sum(x, m)
  {
    if n < m { SumFloor(x, n, m - 1); }
  }

  /** Later ones take what the earlier ones left. */
  lemma NextInLine(mid: Option<real>, q: seq<Resting>, quantity: int, minQty: int, i: nat)
    requires i < |q| && mid != None && Sum(Slices(q, quantity, |q|), |q|) >= minQty
    ensures var x := Executed(mid, q, quantity, minQty);
            var left := quantity - Sum(x, i);
            x[i] == if left < q[i].minQty || q[i].qty < q[i].minQty then 0 else if left < q[i].qty then left else q[i].qty
  {
    SliceAt(q, quantity, i);
  }

  /** Every fill names the incoming order on its own side and a resting order on the other, at the mid. */
  lemma {:induction false} FillsName(side: Side, id: nat, price: real, q: seq<Resting>, x: seq<int>, n: nat)
    requires n <= |q| && n <= |x|
    ensures forall f :: f in Fills(side, id, price, q, x, n) ==>
              && f.price == price
              && (side == Buy ==> f.buyOrderId == id && exists i :: 0 <= i < n && f.sellOrderId == q[i].id && f.quantity == x[i])
              && (side == Sell ==> f.sellOrderId == id && exists i :: 0 <= i < n && f.buyOrderId == q[i].id && f.quantity == x[i])
  {
    if n != 0 { FillsName(side, id, price, q, x, n - 1); }
  }

  // ----- the pool -------------------------------------------------------------

  datatype Pool = Pool(buys: seq<Resting>, sells: seq<Resting>, mid: Option<real>, nextId: nat)

  datatype Event = Quote(bid: Number, ask: Number) | Order(side: Side, quantity: int, minQty: int)

  const EMPTY := Pool([], [], None, 1)

  function Other(side: Side): Side { if side.Buy? then Sell else Buy }

  function BookOf(p: Pool, side: Side): seq<Resting> { if side.Buy? then p.buys else p.sells }

  function WithBook(p: Pool, side: Side, book: seq<Resting>): Pool {
    if side.Buy? then p.(buys := book) else p.(sells := book)
  }

  /** The midpoint of a usable reference; a locked, crossed, non-positive or non-finite one suspends crossing. */
  function Reference(bid: Number, ask: Number): (mid: Option<real>)
    ensures mid.Some? <==> Usable(bid) && Usable(ask) && bid.value < ask.value
    ensures mid.Some? ==> bid.value < mid.value < ask.value && mid.value - bid.value == ask.value - mid.value
  {
    if Less(ZERO, bid) && Less(ZERO, ask) && ask != PlusInfinity && Less(bid, ask)
    then Some((bid.value + ask.value) / 2.0) else None
  }

  /** What is left of an order rests at the back of its own queue. */
  function Settled(p: Pool, side: Side, contra: seq<Resting>, rest: int, minQty: int): Pool {
    WithBook(WithBook(p, Other(side), contra), side,
             BookOf(p, side) + if rest > 0 then [Resting(p.nextId, rest, minQty)] else [])
      .(nextId := p.nextId + 1)
  }

  /** An accepted order executes what its minimum allows. */
  function Submitted(p: Pool, side: Side, quantity: int, minQty: int): Pool {
    var contra := BookOf(p, Other(side));
    var x := Executed(p.mid, contra, quantity, minQty);
    Settled(p, side, Kept(contra, x, |contra|), quantity - Sum(x, |contra|), minQty)
  }

  function After(p: Pool, e: Event): Pool {
    match e
    case Quote(bid, ask) => p.(mid := Reference(bid, ask))
    case Order(side, quantity, minQty) => if quantity <= 0 || minQty < 0 then p else Submitted(p, side, quantity, minQty)
  }

  function Run(p: Pool, events: seq<Event>): Pool
    decreases |events|
  {
    if events == [] then p else Run(After(p, events[0]), events[1..])
  }

  ghost predicate Sound(p: Pool) { InTime(p.buys, p.nextId) && InTime(p.sells, p.nextId) }

  /** A buy meets the resting sells and joins the buys, a sell the other way round. */
  lemma SidesMeet(p: Pool, quantity: int, minQty: int)
    requires quantity > 0 && minQty >= 0
    ensures var x, r := Executed(p.mid, p.sells, quantity, minQty), After(p, Order(Buy, quantity, minQty));
            var rest := quantity - Sum(x, |p.sells|);
            && r.sells == Kept(p.sells, x, |p.sells|) && r.mid == p.mid && r.nextId == p.nextId + 1
            && r.buys == p.buys + (if rest > 0 then [Resting(p.nextId, rest, minQty)] else [])
    ensures var x, r := Executed(p.mid, p.buys, quantity, minQty), After(p, Order(Sell, quantity, minQty));
            var rest := quantity - Sum(x, |p.buys|);
            && r.buys == Kept(p.buys, x, |p.buys|) && r.mid == p.mid && r.nextId == p.nextId + 1
            && r.sells == p.sells + (if rest > 0 then [Resting(p.nextId, rest, minQty)] else [])
  {
    hide Executed;
    hide Kept;
    hide Sum;
  }

  // ----- stranded orders ------------------------------------------------------

  lemma AfterSound(p: Pool, e: Event)
    requires Sound(p)
    ensures Sound(After(p, e))
  {
    hide InTime;
    hide Settled;
    if e.Order? && e.quantity > 0 && e.minQty >= 0 {
      var contra := BookOf(p, Other(e.side));
      ExecutedMeetsMinimum(p.mid, contra, e.quantity, e.minQty, p.nextId);
      var x := Executed(p.mid, contra, e.quantity, e.minQty);
      SettledSound(p, e.side, Kept(contra, x, |contra|), e.quantity - Sum(x, |contra|), e.minQty);
    }
  }

  lemma SettledSound(p: Pool, side: Side, contra: seq<Resting>, rest: int, minQty: int)
    requires Sound(p) && InTime(contra, p.nextId) && rest >= 0 && minQty >= 0
    ensures Sound(Settled(p, side, contra, rest, minQty))
  {
    hide InTime;
    StillInTime(contra, p.nextId);
    StillInTime(BookOf(p, side), p.nextId);
    if rest > 0 {
      RestLast(BookOf(p, side), Resting(p.nextId, rest, minQty));
    } else {
      assert BookOf(p, side) + [] == BookOf(p, side);
    }
  }

  lemma {:induction false} KeptUntouched(q: seq<Resting>, x: seq<int>, n: nat, i: nat)
    requires i < n <= |q| && n <= |x| && x[i] == 0 && q[i].qty > 0
    ensures q[i] in Kept(q, x, n)
  {
    if i < n - 1 { KeptUntouched(q, x, n - 1, i); }
  }

  lemma AfterKeepsStranded(p: Pool, e: Event, side: Side, r: Resting)
    requires Sound(p) && r in BookOf(p, side) && r.qty < r.minQty
    ensures r in BookOf(After(p, e), side)
  {
    if e.Order? && e.side != side && e.quantity > 0 {
      var q := BookOf(p, side);
      var i :| 0 <= i < |q| && q[i] == r;
      SliceAt(q, e.quantity, i);
      KeptUntouched(q, Executed(p.mid, q, e.quantity, e.minQty), |q|, i);
    }
  }

  /** Whatever happens in the pool, an order below its own minimum rests there with the quantity it has. */
  lemma {:induction false} StrandedForever(p: Pool, events: seq<Event>, side: Side, r: Resting)
    requires Sound(p) && r in BookOf(p, side) && r.qty < r.minQty
    ensures r in BookOf(Run(p, events), side)
    decreases |events|
  {
    if events != [] {
      AfterSound(p, events[0]);
      AfterKeepsStranded(p, events[0], side, r);
      StrandedForever(After(p, events[0]), events[1..], side, r);
    }
  }

  lemma {:induction false} KeptIds(q: seq<Resting>, x: seq<int>, n: nat, k: nat, next: nat)
    requires n <= |q| && n <= |x| && InTime(q, next) && k < |q| && (k < n ==> x[k] == q[k].qty)
    ensures forall j :: 0 <= j < |Kept(q, x, n)| ==> Kept(q, x, n)[j].id != q[k].id
  {
    if n != 0 { KeptIds(q, x, n - 1, k, next); }
  }

  /** The events that flush a queue: a two-sided quote, then an order for all of it. */
  function Flush(p: Pool, side: Side): seq<Event> {
    [Quote(Finite(1.0), Finite(2.0)), Order(Other(side), Qty(BookOf(p, side)), 0)]
  }

  lemma TakenOut(q: seq<Resting>, i: nat, next: nat)
    requires InTime(q, next) && i < |q| && q[i].qty >= q[i].minQty
    ensures Qty(q) > 0 && q[i] !in Kept(q, Executed(Some(1.5), q, Qty(q), 0), |q|)
  {
    QtyGrows(q, i, |q|, next);
    assert q[..|q|] == q;
    TakesAll(q, Qty(q), i, next);
    SlicesFit(q, Qty(q), |q|, next);
    hide Qty;
    hide Slices;
    KeptIds(q, Executed(Some(1.5), q, Qty(q), 0), |q|, i, next);
  }

  lemma FlushTakes(p: Pool, side: Side, i: nat)
    requires Sound(p) && i < |BookOf(p, side)|
    requires var r := BookOf(p, side)[i]; r.qty >= r.minQty
    ensures BookOf(p, side)[i] !in BookOf(Run(p, Flush(p, side)), side)
  {
    hide Executed;
    hide Kept;
    hide Qty;
    TakenOut(BookOf(p, side), i, p.nextId);
    var events := Flush(p, side);
    var quoted := After(p, events[0]);
    assert quoted == p.(mid := Some(1.5));
    RunTwo(p, events[0], events[1]);
  }

  lemma RunTwo(p: Pool, first: Event, second: Event)
    ensures Run(p, [first, second]) == After(After(p, first), second)
  {
    hide After;
    assert [first, second][1..] == [second] && [second][1..] == [];
    assert Run(After(p, first), [second]) == Run(After(After(p, first), second), []);
  }

  /** The exact condition: a resting order can still trade, in some future, if and only if it holds at least its minimum. */
  lemma TradesAgainExactly(p: Pool, side: Side, r: Resting)
    requires Sound(p) && r in BookOf(p, side)
    ensures (exists events :: r !in BookOf(Run(p, events), side)) <==> r.qty >= r.minQty
  {
    if r.qty >= r.minQty {
      var q := BookOf(p, side);
      var i :| 0 <= i < |q| && q[i] == r;
      FlushTakes(p, side, i);
    } else {
      forall events ensures r in BookOf(Run(p, events), side) { StrandedForever(p, events, side, r); }
    }
  }

  /** Such orders occur: 100 to sell in clips of at least 60, hit for 60, leaves 40 that nothing can hit. */
  lemma StrandingReachable()
    ensures var events := [Quote(Finite(10.0), Finite(12.0)), Order(Sell, 100, 60), Order(Buy, 60, 0)];
            Run(EMPTY, events) == Pool([], [Resting(1, 40, 60)], Some(11.0), 3)
  {
    var quoted, resting := EMPTY.(mid := Some(11.0)), Resting(1, 100, 60);
    var offered := quoted.(sells := [resting], nextId := 2);
    assert After(EMPTY, Quote(Finite(10.0), Finite(12.0))) == quoted;
    assert After(quoted, Order(Sell, 100, 60)) == offered;
    StrandingHit(offered, resting);
    hide After;
    var events := [Quote(Finite(10.0), Finite(12.0)), Order(Sell, 100, 60), Order(Buy, 60, 0)];
    assert events[1..] == [Order(Sell, 100, 60), Order(Buy, 60, 0)];
    RunTwo(quoted, Order(Sell, 100, 60), Order(Buy, 60, 0));
  }

  lemma StrandingHit(offered: Pool, resting: Resting)
    requires resting == Resting(1, 100, 60) && offered == Pool([], [resting], Some(11.0), 2)
    ensures After(offered, Order(Buy, 60, 0)) == Pool([], [Resting(1, 40, 60)], Some(11.0), 3)
  {
    assert Slices([resting], 60, 1) == [60] by { assert Slices([resting], 60, 0) == []; }
    assert Kept([resting], [60], 1) == [Resting(1, 40, 60)] by { assert Kept([resting], [60], 0) == []; }
    assert Sum([60], 1) == 60;
  }

  class DarkPoolSimulator {
    var buys: seq<Resting>
    var sells: seq<Resting>
    var mid: Option<real>
    var nextId: nat
    /** Quantities submitted per side and matched so far; not kept by the source. */
    ghost var bought: int
    ghost var sold: int
    ghost var matched: int

    /** Time order, and conservation: all that was submitted on a side is matched or still rests there. */
    ghost predicate Valid()
      reads this
    {
      && InTime(buys, nextId) && InTime(sells, nextId) && nextId >= 1
      && bought == matched + Qty(buys) && sold == matched + Qty(sells)
    }

    function Book(side: Side): seq<Resting>
      reads this
    {
      if side.Buy? then buys else sells
    }

    ghost function View(): Pool
      reads this
    {
      Pool(buys, sells, mid, nextId)
    }

    constructor ()
      ensures Valid() && View() == EMPTY
    {
      buys, sells, mid, nextId := [], [], None, 1;
      bought, sold, matched := 0, 0, 0;
    }

    /** A locked, crossed, non-positive or non-finite reference suspends crossing. */
    method OnQuote(bid: Number, ask: Number)
      requires Valid()
      modifies this`mid
      ensures Valid() && View() == After(old(View()), Quote(bid, ask))
    {
      mid := if Less(ZERO, bid) && Less(ZERO, ask) && ask != PlusInfinity && Less(bid, ask)
             then Some((bid.value + ask.value) / 2.0) else None;
    }

    /** How much would execute, without executing. */
    method DryRun(q: seq<Resting>, quantity: int) returns (crossable: int)
      requires InTime(q, nextId) && quantity > 0
      ensures crossable == Sum(Slices(q, quantity, |q|), |q|)
    {
      hide InTime;
      crossable := 0;
      var dryRemaining := quantity;
      ghost var x := Slices(q, quantity, |q|);
      for i := 0 to |q|
        invariant crossable == Sum(x, i) && dryRemaining == quantity - crossable
      {
        if dryRemaining == 0 {
          NothingAfter(q, quantity, i, |q|, nextId);
          break;
        }
        SliceAt(q, quantity, i);
        var fillQty := Min(dryRemaining, q[i].qty);
        if fillQty < q[i].minQty { continue; }
        crossable, dryRemaining := crossable + fillQty, dryRemaining - fillQty;
      }
    }

    /** Executes the slices against a queue. */
    method Cross(side: Side, id: nat, price: real, q: seq<Resting>, quantity: int)
      returns (fills: seq<Fill>, kept: seq<Resting>, remaining: int)
      requires InTime(q, nextId) && quantity > 0
      ensures var x := Slices(q, quantity, |q|);
              && fills == Fills(side, id, price, q, x, |q|) && kept == Kept(q, x, |q|)
              && remaining == quantity - Sum(x, |q|)
    {
      hide Slices;
      fills, remaining := [], quantity;
      var queue := q;
      ghost var x := Slices(q, quantity, |q|);
      SlicesFit(q, quantity, |q|, nextId);
      for i := 0 to |q|
        invariant |queue| == |q| && remaining == quantity - Sum(x, i)
        invariant fills == Fills(side, id, price, q, x, i)
        invariant forall k :: 0 <= k < i ==> queue[k] == q[k].(qty := q[k].qty - x[k])
        invariant forall k :: i <= k < |q| ==> queue[k] == q[k]
      {
        if remaining == 0 {
          NothingAfter(q, quantity, i, |q|, nextId);
          FillsSettle(side, id, price, q, x, i, |q|);
          break;
        }
        SliceAt(q, quantity, i);
        var fillQty := Min(remaining, queue[i].qty);
        if fillQty < queue[i].minQty { continue; }
        queue := queue[i := queue[i].(qty := queue[i].qty - fillQty)];
        remaining := remaining - fillQty;
        fills := fills + [Trade(side, id, q[i], price, fillQty)];
      }
      kept := DropEmpty(queue, q, x);
    }

    method DropEmpty(queue: seq<Resting>, ghost q: seq<Resting>, ghost x: seq<int>) returns (kept: seq<Resting>)
      requires |queue| == |q| == |x| && forall k :: 0 <= k < |q| ==> queue[k] == q[k].(qty := q[k].qty - x[k])
      ensures kept == Kept(q, x, |q|)
    {
      kept := [];
      for i := 0 to |queue|
        invariant kept == Kept(q, x, i)
      {
        if queue[i].qty != 0 { kept := kept + [queue[i]]; }
      }
    }

    /**
     Submits an order; `None` when it is refused, with nothing changed.  Otherwise it executes
     what the dry run allows, and its remainder rests at the back of its own queue.
     */
    method Submit(side: Side, quantity: int, minExecutionQty: int) returns (r: Option<seq<Fill>>)
      requires Valid()
      modifies this
      ensures Valid() && View() == After(old(View()), Order(side, quantity, minExecutionQty))
      ensures r.None? <==> quantity <= 0 || minExecutionQty < 0
      ensures r.Some? ==>
                var contra := old(Book(Other(side)));
                var x := Executed(mid, contra, quantity, minExecutionQty);
                && r.value == Fills(side, old(nextId), if mid.Some? then mid.value else 0.0, contra, x, |contra|)
                && bought == old(bought) + (if side.Buy? then quantity else 0)
                && sold == old(sold) + (if side.Sell? then quantity else 0)
                && matched == old(matched) + FillTotal(r.value)
                && (FillTotal(r.value) == 0 || FillTotal(r.value) >= minExecutionQty)
    {
      hide InTime;
      hide Kept;
      hide Fills;
      hide Qty;
      hide Executed;
      hide FillTotal;
      if quantity <= 0 || minExecutionQty < 0 { return None; }
      var orderId := nextId;
      var fills, queue, remaining := Match(side, quantity, minExecutionQty);
      nextId := nextId + 1;
      matched := matched + FillTotal(fills);
      Settle(side, queue, remaining, orderId, minExecutionQty);
      if side.Buy? { bought := bought + quantity; } else { sold := sold + quantity; }
      return Some(fills);
    }

    /** The crossing part of a submission; it changes nothing yet. */
    method Match(side: Side, quantity: int, minQty: int) returns (fills: seq<Fill>, queue: seq<Resting>, remaining: int)
      requires Valid() && quantity > 0 && minQty >= 0
      ensures var contra := Book(Other(side));
              var x := Executed(mid, contra, quantity, minQty);
              && fills == Fills(side, nextId, if mid.Some? then mid.value else 0.0, contra, x, |contra|)
              && queue == Kept(contra, x, |contra|) && remaining == quantity - Sum(x, |contra|) >= 0
              && FillTotal(fills) == Sum(x, |contra|)
              && (FillTotal(fills) == 0 || FillTotal(fills) >= minQty)
              && InTime(queue, nextId) && Qty(queue) == Qty(contra) - FillTotal(fills)
    {
      hide Slices;
      hide Kept;
      hide Fills;
      hide InTime;
      ghost var contra := Book(Other(side));
      ghost var x := Executed(mid, contra, quantity, minQty);
      ghost var price := if mid.Some? then mid.value else 0.0;
      ExecutedMeetsMinimum(mid, contra, quantity, minQty, nextId);
      NoSlices(side, nextId, price, contra, nextId);
      FillsTotal(side, nextId, price, contra, x, |contra|);
      fills, remaining, queue := [], quantity, Book(Other(side));
      if mid.Some? {
        var crossable := DryRun(queue, quantity);
        if crossable >= minQty {
          fills, queue, remaining := Cross(side, nextId, mid.value, queue, quantity);
        }
      }
    }

    method Settle(side: Side, contra: seq<Resting>, remaining: int, orderId: nat, minQty: int)
      requires nextId == orderId + 1 && 0 <= remaining && minQty >= 0
      requires InTime(buys, orderId) && InTime(sells, orderId) && InTime(contra, orderId)
      modifies this`buys, this`sells
      ensures Book(Other(side)) == contra
      ensures Book(side) == old(Book(side)) + if remaining > 0 then [Resting(orderId, remaining, minQty)] else []
      ensures InTime(buys, nextId) && InTime(sells, nextId)
      ensures Qty(Book(side)) == old(Qty(Book(side))) + remaining
    {
      hide InTime;
      hide Qty;
      if side.Buy? { sells := contra; } else { buys := contra; }
      StillInTime(buys, orderId);
      StillInTime(sells, orderId);
      if remaining > 0 {
        var r := Resting(orderId, remaining, minQty);
        RestLast(Book(side), r);
        if side.Buy? { buys := buys + [r]; } else { sells := sells + [r]; }
      }
    }

    /** Total hidden quantity resting on a side. */
    method RestingQty(side: Side) returns (total: int)
      requires Valid()
      ensures total == (if side.Buy? then bought else sold) - matched && total >= 0
    {
      var book := Book(side);
      total := 0;
      for i := 0 to |book|
        invariant total == Qty(book[..i]) && total >= 0
      {
        assert book[..i + 1][..i] == book[..i];
        total := total + book[i].qty;
      }
      assert book[..|book|] == book;
    }
  }
}
