/**
 What each feed event leaves behind, said about the resting orders and the tracked references alone:
 how many shares every order still has, where it stands, and who is still tracked.
 */
module L3Laws {
  import opened L3Spec

  // ----- observations ---------------------------------------------------------

  /** Open shares of a reference; 0 when it does not rest. */
  function OpenOf(orders: seq<Order>, ref: int): int {
    var i := IndexOf(orders, ref);
    if i < |orders| then orders[i].qty else 0
  }

  predicate Tracked(rows: seq<Row>, ref: int) { RowIndex(rows, ref) < |rows| }

  /** Configuration and arrival numbering of a book. */
  predicate SameFrame(a: Book, b: Book) { a.cfg == b.cfg && a.nextArrival == b.nextArrival }

  /** The resting orders with one gone. */
  ghost predicate Gone(before: seq<Order>, after: seq<Order>, i: nat)
    requires i < |before|
  {
    && |after| == |before| - 1
    && (forall k :: 0 <= k < i ==> after[k] == before[k])
    && (forall k :: i <= k < |after| ==> after[k] == before[k + 1])
  }

  /** The resting orders with one's quantity changed: level, arrival and place are kept. */
  ghost predicate Left(before: seq<Order>, after: seq<Order>, i: nat, qty: int)
    requires i < |before|
  {
    && |after| == |before|
    && (forall k :: 0 <= k < |before| && k != i ==> after[k] == before[k])
    && after[i] == Order(before[i].ref, before[i].level, qty, before[i].arrival)
  }

  /** A reference loses its row, every other one keeps it. */
  ghost predicate RowGone(before: seq<Row>, after: seq<Row>, ref: int) {
    forall r :: Tracked(after, r) <==> Tracked(before, r) && r != ref
  }

  ghost predicate RowsStay(before: seq<Row>, after: seq<Row>) { forall r :: Tracked(after, r) <==> Tracked(before, r) }

  /** `shares` off the order of `ref`: nothing for an unknown one, the rest of it otherwise, and an emptied order goes. */
  ghost predicate TookOff(b: Book, after: Book, ref: int, shares: int) {
    var i := IndexOf(b.orders, ref);
    if i == |b.orders| then after == b
    else
      && SameFrame(b, after)
      && (shares < b.orders[i].qty ==> Left(b.orders, after.orders, i, b.orders[i].qty - shares) && RowsStay(b.rows, after.rows))
      && (shares >= b.orders[i].qty ==> Gone(b.orders, after.orders, i) && RowGone(b.rows, after.rows, ref))
  }

  // ----- rows -----------------------------------------------------------------

  ghost predicate Distinct(rows: seq<Row>) { forall j, k :: 0 <= j < k < |rows| ==> rows[j].ref != rows[k].ref }

  lemma {:induction false} TrackedIn(rows: seq<Row>, ref: int)
    ensures Tracked(rows, ref) <==> exists k :: 0 <= k < |rows| && rows[k].ref == ref
  {
    if k :| 0 <= k < |rows| && rows[k].ref == ref { assert RowIndex(rows, ref) <= k; }
  }

  lemma SameRefs(a: seq<Row>, b: seq<Row>)
    requires |a| == |b| && forall k :: 0 <= k < |a| ==> a[k].ref == b[k].ref
    ensures RowsStay(a, b)
  {
    forall r ensures Tracked(b, r) <==> Tracked(a, r) {
      TrackedIn(a, r);
      TrackedIn(b, r);
    }
  }

  lemma Dropped(rows: seq<Row>, ref: int)
    requires Distinct(rows)
    ensures RowGone(rows, DropRow(rows, ref), ref)
  {
    var i, after := RowIndex(rows, ref), DropRow(rows, ref);
    forall r ensures Tracked(after, r) <==> Tracked(rows, r) && r != ref {
      TrackedIn(rows, r);
      TrackedIn(after, r);
      if i < |rows| {
        assert forall k :: 0 <= k < i ==> after[k] == rows[k];
        assert forall k :: i <= k < |after| ==> after[k] == rows[k + 1];
        assert forall k :: i < k < |rows| ==> rows[k] == after[k - 1];
      }
    }
  }

  lemma RowGoneAfter(a: seq<Row>, b: seq<Row>, c: seq<Row>, ref: int)
    requires RowsStay(a, b) && RowGone(b, c, ref)
    ensures RowGone(a, c, ref)
  {
  }

  // ----- the laws -------------------------------------------------------------

  lemma ShrunkIs(orders: seq<Order>, i: nat, shares: int)
    requires i < |orders|
    ensures var after := Shrunk(orders, i, Min(shares, orders[i].qty));
            && (shares < orders[i].qty ==> Left(orders, after, i, orders[i].qty - shares))
            && (shares >= orders[i].qty ==> Gone(orders, after, i))
  {
    hide IndexOf;
    if shares >= orders[i].qty { assert Shrunk(orders, i, orders[i].qty) == orders[..i] + orders[i + 1..]; }
  }

  /** A reduction as the steps define it takes off what it says. */
  lemma ReduceTakesOff(b: Book, i: nat, shares: int, byArrival: bool)
    requires Consistent(b) && i < |b.orders| && i == IndexOf(b.orders, b.orders[i].ref)
    ensures TookOff(b, Reduce(b, i, Min(shares, b.orders[i].qty), byArrival), b.orders[i].ref, shares)
  {
    var o := b.orders[i];
    var cut := Min(shares, o.qty);
    var rows := CreditAhead(b.rows, o, cut, byArrival);
    assert Distinct(b.rows);
    hide Consistent;
    hide IndexOf;
    hide RowIndex;
    ShrunkIs(b.orders, i, shares);
    SameRefs(b.rows, rows);
    Dropped(rows, o.ref);
    hide Shrunk;
    hide CreditAhead;
    hide Left;
    hide Gone;
    hide DropRow;
    hide Tracked;
    if shares >= o.qty {
      RowGoneAfter(b.rows, rows, DropRow(rows, o.ref), o.ref);
      hide RowGone;
      hide RowsStay;
    } else {
      hide RowGone;
      hide RowsStay;
    }
  }

  lemma NothingTaken(b: Book, ref: int, shares: int)
    requires IndexOf(b.orders, ref) == |b.orders|
    ensures TookOff(b, b, ref, shares)
  {
  }

  /** A cancel takes its shares off one order, in place; what empties goes; nothing else moves. */
  lemma CancelLaw(b: Book, ref: int, shares: int)
    requires Consistent(b)
    ensures TookOff(b, Step(b, Cancel(ref, shares)), ref, shares)
  {
    hide Reduce;
    hide Consistent;
    hide IndexOf;
    hide TookOff;
    hide Insert;
    hide TrackRow;
    hide DropRow;
    var i := IndexOf(b.orders, ref);
    if i < |b.orders| { ReduceTakesOff(b, i, shares, true); } else { NothingTaken(b, ref, shares); }
  }

  /** So does an execution. */
  lemma ExecuteLaw(b: Book, ref: int, shares: int)
    requires Consistent(b)
    ensures TookOff(b, Step(b, Execute(ref, shares)), ref, shares)
  {
    hide Reduce;
    hide Consistent;
    hide IndexOf;
    hide TookOff;
    hide Insert;
    hide TrackRow;
    hide DropRow;
    var i := IndexOf(b.orders, ref);
    if i < |b.orders| { ReduceTakesOff(b, i, shares, false); } else { NothingTaken(b, ref, shares); }
  }

  /** A delete removes the order whatever its quantity. */
  lemma DeleteLaw(b: Book, ref: int)
    requires Consistent(b)
    ensures var after, i := Step(b, Delete(ref)), IndexOf(b.orders, ref);
            if i == |b.orders| then after == b
            else SameFrame(b, after) && Gone(b.orders, after.orders, i) && RowGone(b.rows, after.rows, ref)
  {
    hide Reduce;
    hide Consistent;
    hide IndexOf;
    hide Gone;
    hide Left;
    hide RowGone;
    hide RowsStay;
    hide Insert;
    hide TrackRow;
    hide DropRow;
    var i := IndexOf(b.orders, ref);
    if i < |b.orders| { ReduceTakesOff(b, i, b.orders[i].qty, true); }
  }

  /** What an insert needs: a price on the ladder, shares, a positive reference that does not rest, and room. */
  predicate Welcome(b: Book, ref: int, shares: int, price: int) {
    && b.cfg.minTick <= price < b.cfg.minTick + b.cfg.ladder && shares > 0 && ref > 0
    && OpenOf(b.orders, ref) == 0 && |b.orders| < b.cfg.maxOrders
  }

  /** An add joins the back with the next arrival number, or changes nothing. */
  lemma AddLaw(b: Book, ref: int, side: Side, shares: int, price: int)
    requires Consistent(b)
    ensures var after, n := Step(b, Add(ref, side, shares, price)), |b.orders|;
            if !Welcome(b, ref, shares, price) then after == b
            else
              && after.cfg == b.cfg && after.nextArrival == b.nextArrival + 1 && after.rows == b.rows
              && |after.orders| == n + 1 && (forall k :: 0 <= k < n ==> after.orders[k] == b.orders[k])
              && after.orders[n] == Order(ref, Level(side, price - b.cfg.minTick), shares, b.nextArrival)
  {
  }

  /** Whether the new order of a replace can rest once the old one is gone. */
  predicate Replaceable(b: Book, origRef: int, newRef: int, shares: int, price: int) {
    && b.cfg.minTick <= price < b.cfg.minTick + b.cfg.ladder && shares > 0 && newRef > 0
    && (newRef == origRef || OpenOf(b.orders, newRef) == 0)
  }

  /**
   A replace of a resting order removes it for good and sends the new reference to the back, on the old
   side, with the given shares and price; a new order that is not acceptable just leaves the old one removed.
   */
  ghost predicate Replaced(b: Book, after: Book, i: nat, origRef: int, newRef: int, shares: int, price: int)
    requires i < |b.orders|
  {
    var accepted, n := Replaceable(b, origRef, newRef, shares, price), |b.orders|;
    && after.cfg == b.cfg && RowGone(b.rows, after.rows, origRef)
    && after.nextArrival == b.nextArrival + (if accepted then 1 else 0)
    && |after.orders| == n - 1 + (if accepted then 1 else 0)
    && Gone(b.orders, after.orders[..n - 1], i)
    && (accepted ==>
          after.orders[n - 1] == Order(newRef, Level(b.orders[i].level.side, price - b.cfg.minTick), shares, b.nextArrival))
  }

  lemma ReplaceLaw(b: Book, origRef: int, newRef: int, shares: int, price: int)
    requires Consistent(b)
    ensures var after, i := Step(b, Replace(origRef, newRef, shares, price)), IndexOf(b.orders, origRef);
            if i == |b.orders| then after == b else Replaced(b, after, i, origRef, newRef, shares, price)
  {
    var i, n := IndexOf(b.orders, origRef), |b.orders|;
    if i < n {
      ReduceTakesOff(b, i, b.orders[i].qty, true);
      ReduceConsistent(b, i, b.orders[i].qty, true);
      hide Reduce;
      hide Insert;
      hide Consistent;
      hide RowGone;
      hide Gone;
      hide OpenOf;
      var mid := Reduce(b, i, b.orders[i].qty, true);
      Replacing(b, mid, i, origRef, newRef, shares, price);
    }
  }

  /** The new order meets the book without the old one. */
  lemma Replacing(b: Book, mid: Book, i: nat, origRef: int, newRef: int, shares: int, price: int)
    requires Consistent(b) && Consistent(mid) && SameFrame(b, mid) && i < |b.orders| && b.orders[i].ref == origRef
    requires Gone(b.orders, mid.orders, i) && RowGone(b.rows, mid.rows, origRef)
    ensures Replaced(b, Insert(mid, newRef, b.orders[i].level.side, shares, price), i, origRef, newRef, shares, price)
  {
    OpenWithout(b.orders, mid.orders, i, newRef);
    AddLaw(mid, newRef, b.orders[i].level.side, shares, price);
    RoomAfter(b, mid, i);
    var after, n := Insert(mid, newRef, b.orders[i].level.side, shares, price), |b.orders|;
    hide OpenOf;
    hide Consistent;
    hide RowGone;
    assert after.orders[..n - 1] == mid.orders;
  }

  lemma RoomAfter(b: Book, mid: Book, i: nat)
    requires Consistent(b) && SameFrame(b, mid) && i < |b.orders| && Gone(b.orders, mid.orders, i)
    ensures |mid.orders| < mid.cfg.maxOrders
  {
  }

  /** A trade print, like an untracked reference's untrack, leaves the book alone. */
  lemma TradeLaw(b: Book, price: int)
    ensures Step(b, Trade(price)) == b
  {
  }

  /** Tracking needs a resting order and a free row; it adds that row and no other. */
  lemma TrackLaw(b: Book, ref: int)
    requires Consistent(b)
    ensures var after := Step(b, Track(ref));
            && after.orders == b.orders && SameFrame(b, after)
            && (Tracked(after.rows, ref) <==> Tracked(b.rows, ref) || (OpenOf(b.orders, ref) > 0 && |b.rows| < MAX_TRACKED))
            && (forall r :: r != ref ==> (Tracked(after.rows, r) <==> Tracked(b.rows, r)))
            && (forall k :: 0 <= k < |b.rows| ==> k < |after.rows| && after.rows[k] == b.rows[k])
  {
    var after := Step(b, Track(ref));
    var n := |b.rows|;
    assert forall k :: 0 <= k < n ==> after.rows[k] == b.rows[k];
    assert |after.rows| > n ==> |after.rows| == n + 1 && after.rows[n].ref == ref;
    hide Consistent;
    hide Step;
    forall r ensures Tracked(after.rows, r) <==> (Tracked(b.rows, r) || (r == ref && |after.rows| > n)) {
      TrackedIn(b.rows, r);
      TrackedIn(after.rows, r);
    }
  }

  /** The same as a step: what the row starts with. */
  lemma TrackStep(b: Book, ref: int)
    requires Consistent(b)
    ensures var i := IndexOf(b.orders, ref);
            Step(b, Track(ref)) ==
            if Tracked(b.rows, ref) || OpenOf(b.orders, ref) == 0 || |b.rows| == MAX_TRACKED || i == |b.orders| then b
            else b.(rows := b.rows + [Row(ref, b.orders[i].level, b.orders[i].arrival, QueuedBefore(b.orders, i))])
    ensures OpenOf(b.orders, ref) == 0 <==> IndexOf(b.orders, ref) == |b.orders|
  {
  }

  lemma UntrackLaw(b: Book, ref: int)
    requires Consistent(b)
    ensures var after := Step(b, Untrack(ref));
            after.orders == b.orders && SameFrame(b, after) && RowGone(b.rows, after.rows, ref)
  {
    Dropped(b.rows, ref);
  }

  // ----- open quantities ------------------------------------------------------

  lemma {:induction false} OpenAt(orders: seq<Order>, k: nat)
    requires Ordered(orders) && k < |orders|
    ensures IndexOf(orders, orders[k].ref) == k && OpenOf(orders, orders[k].ref) == orders[k].qty
  {
    IndexUnique(orders, k);
  }

  lemma OpenNonNegative(b: Book, ref: int)
    requires Consistent(b)
    ensures OpenOf(b.orders, ref) >= 0 && (OpenOf(b.orders, ref) > 0 <==> Live(b.orders, ref))
  {
  }

  lemma OpenWithout(before: seq<Order>, after: seq<Order>, i: nat, ref: int)
    requires Ordered(before) && AllPositive(before) && i < |before| && Gone(before, after, i)
    ensures OpenOf(after, ref) == if ref == before[i].ref then 0 else OpenOf(before, ref)
  {
    var j, k := IndexOf(before, ref), IndexOf(after, ref);
    assert Ordered(after) by { hide IndexOf; }
    assert j < i ==> after[j].ref == ref;
    assert i < j < |before| ==> after[j - 1].ref == ref;
    if k < |after| { OpenAt(before, if k < i then k else k + 1); }
  }

  lemma OpenLeft(before: seq<Order>, after: seq<Order>, i: nat, qty: int, ref: int)
    requires Ordered(before) && i < |before| && Left(before, after, i, qty)
    ensures OpenOf(after, ref) == if ref == before[i].ref then qty else OpenOf(before, ref)
  {
    assert Ordered(after) by { hide IndexOf; }
    var j, k := IndexOf(before, ref), IndexOf(after, ref);
    assert j < |before| ==> after[j].ref == ref;
    if k < |after| { OpenAt(before, k); }
  }

  lemma OpenPushed(before: seq<Order>, o: Order, ref: int)
    requires OpenOf(before, o.ref) == 0 && AllPositive(before)
    ensures OpenOf(before + [o], ref) == if ref == o.ref then o.qty else OpenOf(before, ref)
  {
    var n, after := |before|, before + [o];
    assert forall k :: 0 <= k < n ==> after[k] == before[k];
    assert after[n] == o;
    var j, k := IndexOf(before, ref), IndexOf(after, ref);
    assert ref == o.ref ==> j == n;
    if j < n { assert after[j].ref == ref; assert k <= j; assert k < n && before[k].ref == ref; }
  }

  /** After an execution or a cancel: the order has what is left, at least 0, and every other one what it had. */
  lemma TakenOpen(b: Book, after: Book, ref: int, shares: int, r: int)
    requires Consistent(b) && TookOff(b, after, ref, shares)
    ensures OpenOf(after.orders, r)
         == if r == ref && OpenOf(b.orders, ref) > 0 then Max(0, OpenOf(b.orders, ref) - shares) else OpenOf(b.orders, r)
  {
    var i := IndexOf(b.orders, ref);
    if i < |b.orders| {
      if shares < b.orders[i].qty {
        OpenLeft(b.orders, after.orders, i, b.orders[i].qty - shares, r);
      } else {
        OpenWithout(b.orders, after.orders, i, r);
      }
    }
  }

  lemma TakenOpens(b: Book, after: Book, ref: int, shares: int)
    requires Consistent(b) && TookOff(b, after, ref, shares)
    ensures forall r :: OpenOf(after.orders, r) ==
              if r == ref && OpenOf(b.orders, ref) > 0 then Max(0, OpenOf(b.orders, ref) - shares) else OpenOf(b.orders, r)
  {
    forall r
      ensures OpenOf(after.orders, r) ==
              if r == ref && OpenOf(b.orders, ref) > 0 then Max(0, OpenOf(b.orders, ref) - shares) else OpenOf(b.orders, r)
    {
      TakenOpen(b, after, ref, shares, r);
    }
  }

  lemma WelcomeIsAccepted(b: Book, ref: int, shares: int, price: int)
    requires Consistent(b)
    ensures Welcome(b, ref, shares, price) <==> Accepts(b, ref, shares, price)
  {
  }

  lemma DeletedOpen(b: Book, ref: int, r: int)
    requires Consistent(b)
    ensures OpenOf(Step(b, Delete(ref)).orders, r) == if r == ref then 0 else OpenOf(b.orders, r)
  {
    DeleteLaw(b, ref);
    var i := IndexOf(b.orders, ref);
    if i < |b.orders| { OpenWithout(b.orders, Step(b, Delete(ref)).orders, i, r); }
  }

  lemma AddedOpen(b: Book, ref: int, side: Side, shares: int, price: int, r: int)
    requires Consistent(b)
    ensures OpenOf(Step(b, Add(ref, side, shares, price)).orders, r)
         == if r == ref && Welcome(b, ref, shares, price) then shares else OpenOf(b.orders, r)
  {
    AddLaw(b, ref, side, shares, price);
    if Welcome(b, ref, shares, price) {
      var o := Order(ref, Level(side, price - b.cfg.minTick), shares, b.nextArrival);
      assert Step(b, Add(ref, side, shares, price)).orders == b.orders + [o];
      OpenPushed(b.orders, o, r);
    }
  }

  lemma ReplacedOpen(b: Book, origRef: int, newRef: int, shares: int, price: int, r: int)
    requires Consistent(b)
    ensures OpenOf(Step(b, Replace(origRef, newRef, shares, price)).orders, r)
         == if OpenOf(b.orders, origRef) == 0 then OpenOf(b.orders, r)
            else if r == newRef && Replaceable(b, origRef, newRef, shares, price) then shares
            else if r == origRef then 0 else OpenOf(b.orders, r)
  {
    ReplaceLaw(b, origRef, newRef, shares, price);
    OpenNonNegative(b, origRef);
    var i, n, after := IndexOf(b.orders, origRef), |b.orders|, Step(b, Replace(origRef, newRef, shares, price));
    hide Step;
    hide RowGone;
    hide Gone;
    hide IndexOf;
    hide OpenOf;
    hide RowsOk;
    hide Listable;
    if i < n {
      var mid := after.orders[..n - 1];
      OpenWithout(b.orders, mid, i, r);
      OpenWithout(b.orders, mid, i, newRef);
      if |after.orders| == n {
        assert after.orders == mid + [after.orders[n - 1]];
        OpenPushed(mid, after.orders[n - 1], r);
      } else {
        assert after.orders == mid;
      }
    }
  }

  // ----- the counters ---------------------------------------------------------

  /** Of events that refer to a resting order exactly the one of their kind is counted, of the others exactly the unknown one. */
  lemma TallyLaw(b: Book, c: Counts, e: Event)
    requires Consistent(b)
    ensures var d := Tally(b, c, e);
            var known := !e.Add? && !e.Trade? && !e.Track? && !e.Untrack? && OpenOf(b.orders, TargetOf(e)) > 0;
            && d.executeCount == c.executeCount + (if e.Execute? && known then 1 else 0)
            && d.cancelCount == c.cancelCount + (if e.Cancel? && known then 1 else 0)
            && d.deleteCount == c.deleteCount + (if e.Delete? && known then 1 else 0)
            && d.replaceCount == c.replaceCount + (if e.Replace? && known then 1 else 0)
            && d.tradeCount == c.tradeCount + (if e.Trade? then 1 else 0)
            && d.addCount == c.addCount + (if e.Add? && Welcome(b, e.ref, e.shares, e.price) then 1 else 0)
            && d.unknownRefCount == c.unknownRefCount
               + (if (e.Execute? || e.Cancel? || e.Delete? || e.Replace?) && !known then 1 else 0)
  {
  }
}
