/**
 The full-depth book as one list: the live orders in arrival order, plus the
 rows of the queue tracker.  Level totals, FIFOs and best prices are all read
 off that list; L3Book.dfy proves that the indexed book is the same thing.
 */
module L3Spec {
  datatype Side = Buy | Sell

  datatype Level = Level(side: Side, tick: int)

  /** `arrival` is the insertion sequence number, `level.tick` the ladder index. */
  datatype Order = Order(ref: int, level: Level, qty: int, arrival: int)

  datatype Row = Row(ref: int, level: Level, arrival: int, ahead: int)

  datatype Config = Config(minTick: int, ladder: int, maxOrders: int)

  datatype Book = Book(cfg: Config, orders: seq<Order>, nextArrival: int, rows: seq<Row>)

  const MAX_TRACKED := 64
  const INT_MIN := -0x8000_0000
  const INT_MAX := 0x7fff_ffff

  datatype Event =
    | Add(ref: int, side: Side, shares: int, price: int)
    | Execute(ref: int, shares: int)
    | Cancel(ref: int, shares: int)
    | Delete(ref: int)
    | Replace(origRef: int, newRef: int, shares: int, price: int)
    | Trade(price: int)
    | Track(ref: int)
    | Untrack(ref: int)

  // ----- reading the list -------------------------------------------------

  /** Position of the order carrying `ref`, or the length when there is none. */
  function IndexOf(orders: seq<Order>, ref: int): (i: nat)
    ensures i <= |orders|
    ensures i < |orders| ==> orders[i].ref == ref
    ensures forall k :: 0 <= k < i ==> orders[k].ref != ref
  {
    if orders == [] then 0
    else if orders[0].ref == ref then 0
    else IndexOf(orders[1..], ref) + 1
  }

  predicate Live(orders: seq<Order>, ref: int) {
    IndexOf(orders, ref) < |orders|
  }

  /** Total quantity resting at a level. */
  function LevelQty(orders: seq<Order>, level: Level): int {
    if orders == [] then 0
    else
      var last := orders[|orders| - 1];
      LevelQty(orders[..|orders| - 1], level) + (if last.level == level then last.qty else 0)
  }

  /** The walk of the queue: everything at the order's level that arrived before it. */
  function QueuedBefore(orders: seq<Order>, i: nat): int
    requires i < |orders|
  {
    LevelQty(orders[..i], orders[i].level)
  }

  // ----- the steps --------------------------------------------------------

  function Min(a: int, b: int): int { if a <= b then a else b }
  function Max(a: int, b: int): int { if a >= b then a else b }

  function CreditRow(row: Row, o: Order, cut: int, byArrival: bool): Row {
    if row.level == o.level && row.ref != o.ref && (!byArrival || o.arrival < row.arrival)
    then row.(ahead := Max(0, row.ahead - cut))
    else row
  }

  function CreditAhead(rows: seq<Row>, o: Order, cut: int, byArrival: bool): (r: seq<Row>)
  {
    seq(|rows|, k requires 0 <= k < |rows| => CreditRow(rows[k], o, cut, byArrival))
  }

  function RowIndex(rows: seq<Row>, ref: int): (i: nat)
    ensures i <= |rows|
    ensures i < |rows| ==> rows[i].ref == ref
    ensures forall k :: 0 <= k < i ==> rows[k].ref != ref
  {
    if rows == [] then 0
    else if rows[0].ref == ref then 0
    else RowIndex(rows[1..], ref) + 1
  }

  function DropRow(rows: seq<Row>, ref: int): seq<Row> {
    var i := RowIndex(rows, ref);
    if i < |rows| then rows[..i] + rows[i + 1..] else rows
  }

  function Without<T>(s: seq<T>, i: nat): (r: seq<T>)
    requires i < |s|
    ensures |r| == |s| - 1
  {
    s[..i] + s[i + 1..]
  }

  predicate InBand(b: Book, ref: int, shares: int, price: int) {
    && 0 <= price - b.cfg.minTick < b.cfg.ladder
    && shares > 0
    && ref > 0
    && |b.orders| < b.cfg.maxOrders
  }

  predicate Accepts(b: Book, ref: int, shares: int, price: int) {
    InBand(b, ref, shares, price) && !Live(b.orders, ref)
  }

  function Insert(b: Book, ref: int, side: Side, shares: int, price: int): Book {
    if Accepts(b, ref, shares, price) then
      b.(orders := b.orders + [Order(ref, Level(side, price - b.cfg.minTick), shares, b.nextArrival)],
         nextArrival := b.nextArrival + 1)
    else b
  }

  function Shrunk(orders: seq<Order>, i: nat, cut: int): seq<Order>
    requires i < |orders|
  {
    if orders[i].qty == cut then Without(orders, i)
    else orders[i := orders[i].(qty := orders[i].qty - cut)]
  }

  /** Takes `cut` shares off the order at `i`; an emptied order leaves the book and the tracker. */
  function Reduce(b: Book, i: nat, cut: int, byArrival: bool): Book
    requires i < |b.orders|
  {
    var o := b.orders[i];
    var rows := CreditAhead(b.rows, o, cut, byArrival);
    b.(orders := Shrunk(b.orders, i, cut),
       rows := if o.qty == cut then DropRow(rows, o.ref) else rows)
  }

  function TrackRow(b: Book, ref: int): Book {
    if RowIndex(b.rows, ref) < |b.rows| then b
    else
      var i := IndexOf(b.orders, ref);
      if i == |b.orders| || |b.rows| == MAX_TRACKED then b
      else
        var o := b.orders[i];
        b.(rows := b.rows + [Row(ref, o.level, o.arrival, QueuedBefore(b.orders, i))])
  }

  /** The order an event refers to. */
  function TargetOf(e: Event): int
    requires !e.Trade?
  {
    if e.Replace? then e.origRef else e.ref
  }

  /** Shares an event takes off its order. */
  function CutOf(e: Event, o: Order): int {
    if e.Execute? || e.Cancel? then Min(e.shares, o.qty) else o.qty
  }

  function Step(b: Book, e: Event): Book {
    if e.Add? then Insert(b, e.ref, e.side, e.shares, e.price)
    else if e.Trade? then b
    else if e.Track? then TrackRow(b, e.ref)
    else if e.Untrack? then b.(rows := DropRow(b.rows, e.ref))
    else
      var i := IndexOf(b.orders, TargetOf(e));
      if i == |b.orders| then b
      else
        var after := Reduce(b, i, CutOf(e, b.orders[i]), !e.Execute?);
        if e.Replace? then Insert(after, e.newRef, b.orders[i].level.side, e.shares, e.price) else after
  }

  function Empty(cfg: Config): Book {
    Book(cfg, [], 1, [])
  }

  function Run(b: Book, events: seq<Event>): Book
    decreases |events|
  {
    if events == [] then b else Run(Step(b, events[0]), events[1..])
  }

  // ----- the counters -----------------------------------------------------

  datatype Counts = Counts(
    addCount: int, executeCount: int, cancelCount: int, deleteCount: int, replaceCount: int,
    tradeCount: int, unknownRefCount: int, outOfBandCount: int, duplicateRefCount: int)

  /** An insert that is dropped is counted as out of band first, as a duplicate second. */
  function InsertTally(b: Book, c: Counts, ref: int, shares: int, price: int): Counts {
    if !InBand(b, ref, shares, price) then c.(outOfBandCount := c.outOfBandCount + 1)
    else if Live(b.orders, ref) then c.(duplicateRefCount := c.duplicateRefCount + 1)
    else c
  }

  function AddTally(b: Book, c: Counts, ref: int, shares: int, price: int): Counts {
    var c' := InsertTally(b, c, ref, shares, price);
    if Accepts(b, ref, shares, price) then c'.(addCount := c'.addCount + 1) else c'
  }

  function Tally(b: Book, c: Counts, e: Event): Counts {
    if e.Track? || e.Untrack? then c
    else if e.Trade? then c.(tradeCount := c.tradeCount + 1)
    else if e.Add? then AddTally(b, c, e.ref, e.shares, e.price)
    else if !Live(b.orders, TargetOf(e)) then c.(unknownRefCount := c.unknownRefCount + 1)
    else if e.Execute? then c.(executeCount := c.executeCount + 1)
    else if e.Cancel? then c.(cancelCount := c.cancelCount + 1)
    else if e.Delete? then c.(deleteCount := c.deleteCount + 1)
    else
      InsertTally(Step(b, Delete(e.origRef)), c.(replaceCount := c.replaceCount + 1), e.newRef, e.shares, e.price)
  }

  // ----- what every step keeps --------------------------------------------

  ghost predicate Ordered(orders: seq<Order>) {
    forall i, j :: 0 <= i < j < |orders| ==>
      orders[i].arrival < orders[j].arrival && orders[i].ref != orders[j].ref
  }

  ghost predicate AllPositive(orders: seq<Order>) {
    forall i :: 0 <= i < |orders| ==> orders[i].qty > 0
  }

  ghost predicate Listable(cfg: Config, orders: seq<Order>, nextArrival: int) {
    && (forall i :: 0 <= i < |orders| ==>
          orders[i].ref > 0 && orders[i].arrival < nextArrival && 0 <= orders[i].level.tick < cfg.ladder)
    && |orders| <= cfg.maxOrders
  }

  ghost predicate OrdersOk(cfg: Config, orders: seq<Order>, nextArrival: int) {
    Ordered(orders) && AllPositive(orders) && Listable(cfg, orders, nextArrival)
  }

  /** The row describes a live order: same level, same arrival. */
  ghost predicate RowFits(orders: seq<Order>, row: Row) {
    var i := IndexOf(orders, row.ref);
    i < |orders| && orders[i].level == row.level && orders[i].arrival == row.arrival
  }

  ghost predicate RowsOk(b: Book) {
    && (forall k :: 0 <= k < |b.rows| ==> RowFits(b.orders, b.rows[k]))
    && (forall j, k :: 0 <= j < k < |b.rows| ==> b.rows[j].ref != b.rows[k].ref)
    && |b.rows| <= MAX_TRACKED
  }

  ghost predicate Consistent(b: Book) {
    OrdersOk(b.cfg, b.orders, b.nextArrival) && RowsOk(b)
  }

  /** Shares truly queued ahead of a tracked order. */
  ghost function TrueAhead(orders: seq<Order>, ref: int): int {
    var i := IndexOf(orders, ref);
    if i < |orders| then QueuedBefore(orders, i) else 0
  }

  ghost predicate Bounded(b: Book) {
    forall k :: 0 <= k < |b.rows| ==> 0 <= b.rows[k].ahead <= TrueAhead(b.orders, b.rows[k].ref)
  }

  ghost predicate Exact(b: Book) {
    forall k :: 0 <= k < |b.rows| ==> b.rows[k].ahead == TrueAhead(b.orders, b.rows[k].ref)
  }

  /** Shares on an execute or a cancel are unsigned on the wire. */
  predicate Unsigned(e: Event) {
    (e.Execute? || e.Cancel?) ==> e.shares >= 0
  }

  /** Price-time priority: an execution hits the head of its level's queue. */
  predicate HitsHead(b: Book, e: Event) {
    e.Execute? ==>
      var i := IndexOf(b.orders, e.ref);
      i < |b.orders| ==> forall k :: 0 <= k < i ==> b.orders[k].level != b.orders[i].level
  }

  ghost predicate PriorityFeed(b: Book, events: seq<Event>)
    decreases |events|
  {
    events != [] ==> HitsHead(b, events[0]) && PriorityFeed(Step(b, events[0]), events[1..])
  }

  // ----- list arithmetic --------------------------------------------------

  lemma {:induction false} IndexUnique(orders: seq<Order>, i: nat)
    requires i < |orders|
    requires forall j, k :: 0 <= j < k < |orders| ==> orders[j].ref != orders[k].ref
    ensures IndexOf(orders, orders[i].ref) == i
  {
  }

  lemma {:induction false} QtyAppend(orders: seq<Order>, o: Order, level: Level)
    ensures LevelQty(orders + [o], level) == LevelQty(orders, level) + (if o.level == level then o.qty else 0)
  {
    assert (orders + [o])[..|orders|] == orders;
  }

  lemma {:induction false} QtyNonNegative(orders: seq<Order>, level: Level)
    requires AllPositive(orders)
    ensures LevelQty(orders, level) >= 0
    ensures LevelQty(orders, level) == 0 <==> (forall i :: 0 <= i < |orders| ==> orders[i].level != level)
  {
    if orders != [] {
      var front, last := orders[..|orders| - 1], orders[|orders| - 1];
      QtyNonNegative(front, level);
      if forall i :: 0 <= i < |orders| ==> orders[i].level != level {
        assert forall i :: 0 <= i < |front| ==> front[i].level == orders[i].level;
      } else if last.level != level {
        var i :| 0 <= i < |orders| && orders[i].level == level;
        assert front[i].level == level;
      }
    }
  }

  lemma {:induction false} QtyReplace(orders: seq<Order>, i: nat, qty: int, level: Level)
    requires i < |orders|
    ensures LevelQty(orders[i := orders[i].(qty := qty)], level)
         == LevelQty(orders, level) + (if orders[i].level == level then qty - orders[i].qty else 0)
  {
    var after := orders[i := orders[i].(qty := qty)];
    var n := |orders| - 1;
    if i == n {
      assert after[..n] == orders[..n];
    } else {
      QtyReplace(orders[..n], i, qty, level);
      assert after[..n] == orders[..n][i := orders[i].(qty := qty)];
    }
  }

  lemma {:induction false} QtyWithout(orders: seq<Order>, i: nat, level: Level)
    requires i < |orders|
    ensures LevelQty(Without(orders, i), level)
         == LevelQty(orders, level) - (if orders[i].level == level then orders[i].qty else 0)
  {
    var n := |orders| - 1;
    if i == n {
      assert Without(orders, i) == orders[..n];
    } else {
      QtyWithout(orders[..n], i, level);
      assert Without(orders, i)[..n - 1] == Without(orders[..n], i);
    }
  }

  // ----- one reduction ----------------------------------------------------

  /** The amount of a reduction at `o` that was queued before `p`. */
  function AheadCut(o: Order, p: Order, cut: int): int {
    if o.level == p.level && o.arrival < p.arrival then cut else 0
  }

  /** Where a reduction at `i` leaves the order at `j`. */
  function PlaceAfter(orders: seq<Order>, i: nat, j: nat, cut: int): int
    requires i < |orders|
  {
    if orders[i].qty == cut && i < j then j - 1 else j
  }

  lemma ShrunkPlace(orders: seq<Order>, i: nat, j: nat, cut: int)
    requires Ordered(orders) && i < |orders| && j < |orders|
    requires i != j || orders[i].qty != cut
    ensures var after, p, k := Shrunk(orders, i, cut), orders[j], PlaceAfter(orders, i, j, cut);
            && 0 <= k < |after| && after[k].level == p.level && after[k].arrival == p.arrival
            && IndexOf(after, p.ref) == k && IndexOf(orders, p.ref) == j
  {
    hide IndexOf;
    var after, k := Shrunk(orders, i, cut), PlaceAfter(orders, i, j, cut);
    assert after[k].ref == orders[j].ref;
    IndexUnique(after, k);
    IndexUnique(orders, j);
  }

  /** A reduction at `i` keeps the order at `j` (unless it is the one emptied) and moves its true queue position by its own share. */
  lemma {:induction false} ShrunkAhead(orders: seq<Order>, i: nat, j: nat, cut: int)
    requires Ordered(orders) && i < |orders| && j < |orders|
    requires i != j || orders[i].qty != cut
    ensures var after, p := Shrunk(orders, i, cut), orders[j];
            && IndexOf(after, p.ref) < |after|
            && after[IndexOf(after, p.ref)].level == p.level
            && after[IndexOf(after, p.ref)].arrival == p.arrival
            && TrueAhead(after, p.ref) == TrueAhead(orders, p.ref) - AheadCut(orders[i], p, cut)
  {
    hide IndexOf;
    hide LevelQty;
    ShrunkPlace(orders, i, j, cut);
    var o, p, after, k := orders[i], orders[j], Shrunk(orders, i, cut), PlaceAfter(orders, i, j, cut);
    if j <= i {
      assert after[..k] == orders[..j];
    } else if o.qty == cut {
      assert after[..k] == Without(orders[..j], i);
      QtyWithout(orders[..j], i, p.level);
    } else {
      assert after[..k] == orders[..j][i := o.(qty := o.qty - cut)];
      QtyReplace(orders[..j], i, o.qty - cut, p.level);
    }
  }

  // ----- rows -------------------------------------------------------------

  ghost predicate DistinctRows(rows: seq<Row>) {
    forall j, k :: 0 <= j < k < |rows| ==> rows[j].ref != rows[k].ref
  }

  lemma {:induction false} DropRowKeeps(rows: seq<Row>, ref: int)
    requires DistinctRows(rows)
    ensures DistinctRows(DropRow(rows, ref))
    ensures |DropRow(rows, ref)| <= |rows|
    ensures forall r :: r in DropRow(rows, ref) <==> r in rows && r.ref != ref
  {
    var i := RowIndex(rows, ref);
    var after := DropRow(rows, ref);
    if i < |rows| {
      forall r | r in rows && r.ref != ref
        ensures r in after
      {
        var k :| 0 <= k < |rows| && rows[k] == r;
        assert after[if k < i then k else k - 1] == r;
      }
    }
  }

  /** The rows of the reduced book are the credited rows of the others. */
  lemma {:induction false} ReducedRows(b: Book, i: nat, cut: int, byArrival: bool)
    requires DistinctRows(b.rows) && i < |b.orders|
    ensures var o, after := b.orders[i], Reduce(b, i, cut, byArrival).rows;
            && DistinctRows(after) && |after| <= |b.rows|
            && (forall r :: r in b.rows && (r.ref != o.ref || o.qty != cut) ==> CreditRow(r, o, cut, byArrival) in after)
            && (forall a :: a in after ==> a.ref != o.ref || o.qty != cut)
            && (forall a :: a in after ==> exists r :: r in b.rows && CreditRow(r, o, cut, byArrival) == a)
  {
    var o := b.orders[i];
    var credited := CreditAhead(b.rows, o, cut, byArrival);
    assert DistinctRows(credited);
    DropRowKeeps(credited, o.ref);
    forall r | r in b.rows
      ensures CreditRow(r, o, cut, byArrival) in credited
    {
      var k :| 0 <= k < |b.rows| && b.rows[k] == r;
      assert credited[k] == CreditRow(r, o, cut, byArrival);
    }
    forall a | a in credited
      ensures exists r :: r in b.rows && CreditRow(r, o, cut, byArrival) == a
    {
      var k :| 0 <= k < |credited| && credited[k] == a;
      assert b.rows[k] in b.rows && CreditRow(b.rows[k], o, cut, byArrival) == a;
    }
  }

  ghost function AsOrder(row: Row): Order { Order(row.ref, row.level, 0, row.arrival) }

  /** How one surviving row's true value moves. */
  lemma {:induction false} ReducedRow(b: Book, i: nat, cut: int, row: Row)
    requires Ordered(b.orders) && RowFits(b.orders, row) && i < |b.orders|
    requires row.ref != b.orders[i].ref || b.orders[i].qty != cut
    ensures var after := Shrunk(b.orders, i, cut);
            && RowFits(after, row)
            && TrueAhead(after, row.ref) == TrueAhead(b.orders, row.ref) - AheadCut(b.orders[i], AsOrder(row), cut)
  {
    ShrunkAhead(b.orders, i, IndexOf(b.orders, row.ref), cut);
  }

  lemma {:induction false} TrueAheadNonNegative(orders: seq<Order>, ref: int)
    requires AllPositive(orders)
    ensures TrueAhead(orders, ref) >= 0
  {
    var i := IndexOf(orders, ref);
    if i < |orders| { QtyNonNegative(orders[..i], orders[i].level); }
  }

  // ----- one reduction ----------------------------------------------------

  lemma {:induction false} ShrunkOk(b: Book, i: nat, cut: int, byArrival: bool)
    requires OrdersOk(b.cfg, b.orders, b.nextArrival) && i < |b.orders| && cut <= b.orders[i].qty
    ensures OrdersOk(b.cfg, Shrunk(b.orders, i, cut), b.nextArrival)
  {
  }

  lemma {:induction false} ReduceConsistent(b: Book, i: nat, cut: int, byArrival: bool)
    requires Consistent(b) && i < |b.orders| && cut <= b.orders[i].qty
    ensures Consistent(Reduce(b, i, cut, byArrival))
  {
    ShrunkOk(b, i, cut, byArrival);
    ReducedRowsOk(b, i, cut, byArrival);
  }

  lemma {:induction false} ReducedRowsOk(b: Book, i: nat, cut: int, byArrival: bool)
    requires Ordered(b.orders) && RowsOk(b) && i < |b.orders|
    ensures RowsOk(Reduce(b, i, cut, byArrival))
  {
    var after := Reduce(b, i, cut, byArrival);
    ReducedRows(b, i, cut, byArrival);
    forall k | 0 <= k < |after.rows|
      ensures RowFits(after.orders, after.rows[k])
    {
      var row := RowOrigin(b, i, cut, byArrival, k);
      ReducedRow(b, i, cut, row);
    }
  }

  lemma {:induction false} RowOrigin(b: Book, i: nat, cut: int, byArrival: bool, k: nat) returns (row: Row)
    requires DistinctRows(b.rows) && i < |b.orders| && k < |Reduce(b, i, cut, byArrival).rows|
    ensures row in b.rows && CreditRow(row, b.orders[i], cut, byArrival) == Reduce(b, i, cut, byArrival).rows[k]
    ensures row.ref != b.orders[i].ref || b.orders[i].qty != cut
  {
    ReducedRows(b, i, cut, byArrival);
    var a := Reduce(b, i, cut, byArrival).rows[k];
    assert a in Reduce(b, i, cut, byArrival).rows;
    row :| row in b.rows && CreditRow(row, b.orders[i], cut, byArrival) == a;
  }

  /** A cut at `o` that is credited to a row it was not ahead of. */
  predicate Miscredits(row: Row, o: Order, cut: int, byArrival: bool) {
    !byArrival && cut != 0 && row.level == o.level && row.arrival < o.arrival && row.ahead != 0
  }

  lemma {:induction false} CreditedBounded(b: Book, i: nat, cut: int, byArrival: bool, row: Row)
    requires OrdersOk(b.cfg, b.orders, b.nextArrival) && i < |b.orders| && 0 <= cut <= b.orders[i].qty && RowFits(b.orders, row)
    requires row.ref != b.orders[i].ref || b.orders[i].qty != cut
    requires 0 <= row.ahead <= TrueAhead(b.orders, row.ref)
    ensures var after := Reduce(b, i, cut, byArrival).orders;
            0 <= CreditRow(row, b.orders[i], cut, byArrival).ahead <= TrueAhead(after, row.ref)
  {
    ShrunkOk(b, i, cut, byArrival);
    ReducedRow(b, i, cut, row);
    TrueAheadNonNegative(Shrunk(b.orders, i, cut), row.ref);
    IndexUnique(b.orders, i);
  }

  lemma {:induction false} CreditedExact(b: Book, i: nat, cut: int, byArrival: bool, row: Row)
    requires OrdersOk(b.cfg, b.orders, b.nextArrival) && i < |b.orders| && 0 <= cut <= b.orders[i].qty && RowFits(b.orders, row)
    requires row.ref != b.orders[i].ref || b.orders[i].qty != cut
    requires row.ahead == TrueAhead(b.orders, row.ref)
    ensures var after := Reduce(b, i, cut, byArrival).orders;
            CreditRow(row, b.orders[i], cut, byArrival).ahead == TrueAhead(after, row.ref)
            <==> !Miscredits(row, b.orders[i], cut, byArrival)
  {
    ShrunkOk(b, i, cut, byArrival);
    ReducedRow(b, i, cut, row);
    TrueAheadNonNegative(Shrunk(b.orders, i, cut), row.ref);
    TrueAheadNonNegative(b.orders, row.ref);
    IndexUnique(b.orders, i);
  }

  lemma {:induction false} ReduceBounded(b: Book, i: nat, cut: int, byArrival: bool)
    requires Consistent(b) && Bounded(b) && i < |b.orders| && 0 <= cut <= b.orders[i].qty
    ensures Bounded(Reduce(b, i, cut, byArrival))
  {
    var after := Reduce(b, i, cut, byArrival);
    ReducedRows(b, i, cut, byArrival);
    forall k | 0 <= k < |after.rows|
      ensures 0 <= after.rows[k].ahead <= TrueAhead(after.orders, after.rows[k].ref)
    {
      var row := RowOrigin(b, i, cut, byArrival, k);
      CreditedBounded(b, i, cut, byArrival, row);
    }
  }

  /** The tracker stays exact through a reduction exactly when no row is credited for a cut behind it. */
  lemma {:induction false} ReduceExact(b: Book, i: nat, cut: int, byArrival: bool)
    requires Consistent(b) && Exact(b) && i < |b.orders| && 0 <= cut <= b.orders[i].qty
    ensures Exact(Reduce(b, i, cut, byArrival)) <==>
            forall r :: r in b.rows ==> !Miscredits(r, b.orders[i], cut, byArrival)
  {
    var o, after := b.orders[i], Reduce(b, i, cut, byArrival);
    if Exact(after) {
      ReducedRows(b, i, cut, byArrival);
      forall r | r in b.rows
        ensures !Miscredits(r, o, cut, byArrival)
      {
        if r.ref == o.ref && o.qty == cut {
          IndexUnique(b.orders, i);
        } else {
          CreditedExact(b, i, cut, byArrival, r);
          assert CreditRow(r, o, cut, byArrival) in after.rows;
        }
      }
    } else {
      var k :| 0 <= k < |after.rows| && after.rows[k].ahead != TrueAhead(after.orders, after.rows[k].ref);
      var row := RowOrigin(b, i, cut, byArrival, k);
      CreditedExact(b, i, cut, byArrival, row);
    }
  }

  // ----- one step ---------------------------------------------------------

  /** A new order goes behind everything: no tracked order's queue position moves. */
  lemma {:induction false} InsertKeeps(b: Book, ref: int, side: Side, shares: int, price: int)
    requires Consistent(b)
    ensures var after := Insert(b, ref, side, shares, price);
            && Consistent(after) && after.rows == b.rows
            && forall k :: 0 <= k < |b.rows| ==>
                 TrueAhead(after.orders, b.rows[k].ref) == TrueAhead(b.orders, b.rows[k].ref)
  {
    if Accepts(b, ref, shares, price) {
      var after := Insert(b, ref, side, shares, price);
      forall k | 0 <= k < |b.rows|
        ensures RowFits(after.orders, b.rows[k])
        ensures TrueAhead(after.orders, b.rows[k].ref) == TrueAhead(b.orders, b.rows[k].ref)
      {
        assert RowFits(b.orders, b.rows[k]);
        var j := IndexOf(b.orders, b.rows[k].ref);
        assert after.orders[j] == b.orders[j];
        IndexUnique(after.orders, j);
        assert after.orders[..j] == b.orders[..j];
      }
    }
  }

  lemma InsertConsistent(b: Book, ref: int, side: Side, shares: int, price: int)
    requires Consistent(b)
    ensures Consistent(Insert(b, ref, side, shares, price))
  {
    InsertKeeps(b, ref, side, shares, price);
  }

  lemma {:induction false} TrackKeeps(b: Book, ref: int)
    requires Consistent(b)
    ensures Consistent(TrackRow(b, ref))
    ensures Bounded(b) ==> Bounded(TrackRow(b, ref))
    ensures Exact(b) <==> Exact(TrackRow(b, ref))
  {
    hide Ordered;
    hide AllPositive;
    hide Listable;
    hide LevelQty;
    var after := TrackRow(b, ref);
    var n := |b.rows|;
    assert after.orders == b.orders && after.rows[..n] == b.rows;
    if |after.rows| > n {
      var i := IndexOf(b.orders, ref);
      TrueAheadNonNegative(b.orders, ref);
      assert after.rows[n].ahead == TrueAhead(b.orders, ref);
    }
    assert forall k :: 0 <= k < n ==> after.rows[k] == b.rows[k];
  }

  lemma {:induction false} UntrackKeeps(b: Book, ref: int)
    requires Consistent(b)
    ensures Consistent(Step(b, Untrack(ref)))
    ensures Bounded(b) ==> Bounded(Step(b, Untrack(ref)))
    ensures Exact(b) ==> Exact(Step(b, Untrack(ref)))
  {
    DropRowKeeps(b.rows, ref);
    var after := Step(b, Untrack(ref));
    forall k | 0 <= k < |after.rows|
      ensures after.rows[k] in b.rows
    {
      assert after.rows[k] in DropRow(b.rows, ref);
    }
  }

  /** Every event, however anomalous, keeps the list ordered and the tracker pointing at live orders. */
  lemma {:induction false} StepConsistent(b: Book, e: Event)
    requires Consistent(b)
    ensures Consistent(Step(b, e))
  {
    if e.Add? {
      InsertKeeps(b, e.ref, e.side, e.shares, e.price);
    } else if e.Track? {
      TrackKeeps(b, e.ref);
    } else if e.Untrack? {
      UntrackKeeps(b, e.ref);
    } else if !e.Trade? {
      var i := IndexOf(b.orders, TargetOf(e));
      if i < |b.orders| {
        var cut := CutOf(e, b.orders[i]);
        ReduceConsistent(b, i, cut, !e.Execute?);
        if e.Replace? {
          InsertKeeps(Reduce(b, i, cut, true), e.newRef, b.orders[i].level.side, e.shares, e.price);
        }
      }
    }
  }

  lemma {:induction false} StepBounded(b: Book, e: Event)
    requires Consistent(b) && Bounded(b) && Unsigned(e)
    ensures Bounded(Step(b, e))
  {
    if e.Add? {
      InsertKeeps(b, e.ref, e.side, e.shares, e.price);
    } else if e.Track? {
      TrackKeeps(b, e.ref);
    } else if e.Untrack? {
      UntrackKeeps(b, e.ref);
    } else if !e.Trade? {
      var i := IndexOf(b.orders, TargetOf(e));
      if i < |b.orders| {
        var cut := CutOf(e, b.orders[i]);
        ReduceBounded(b, i, cut, !e.Execute?);
        if e.Replace? {
          ReduceConsistent(b, i, cut, true);
          InsertKeeps(Reduce(b, i, cut, true), e.newRef, b.orders[i].level.side, e.shares, e.price);
        }
      }
    }
  }

  /** The execution takes nothing, or every tracked order queued before it at that level is itself the head. */
  predicate CreditsRightly(b: Book, e: Event) {
    e.Execute? ==>
      var i := IndexOf(b.orders, e.ref);
      i < |b.orders| ==>
        forall r :: r in b.rows ==> !Miscredits(r, b.orders[i], CutOf(e, b.orders[i]), false)
  }

  lemma InsertExact(b: Book, ref: int, side: Side, shares: int, price: int)
    requires Consistent(b)
    ensures Exact(Insert(b, ref, side, shares, price)) <==> Exact(b)
  {
    hide TrueAhead;
    hide Consistent;
    hide Accepts;
    InsertKeeps(b, ref, side, shares, price);
  }

  /** One event keeps the tracker exact if and only if it credits rightly; nothing else can go wrong. */
  lemma {:induction false} StepExact(b: Book, e: Event)
    requires Consistent(b) && Exact(b) && Unsigned(e)
    ensures Exact(Step(b, e)) <==> CreditsRightly(b, e)
  {
    hide Exact;
    hide Insert;
    hide TrackRow;
    if e.Add? {
      InsertExact(b, e.ref, e.side, e.shares, e.price);
    } else if e.Track? {
      TrackKeeps(b, e.ref);
    } else if e.Untrack? {
      UntrackKeeps(b, e.ref);
    } else if !e.Trade? {
      var i := IndexOf(b.orders, TargetOf(e));
      if i < |b.orders| { CutExact(b, e, i); }
    }
  }

  /** An event that takes shares off an order. */
  lemma CutExact(b: Book, e: Event, i: nat)
    requires Consistent(b) && Exact(b) && Unsigned(e) && !e.Add? && !e.Trade? && !e.Track? && !e.Untrack?
    requires i == IndexOf(b.orders, TargetOf(e)) < |b.orders|
    ensures Exact(Step(b, e)) <==> CreditsRightly(b, e)
  {
    assert b.orders[i].qty > 0;
    hide Exact;
    hide Insert;
    hide Reduce;
    hide Consistent;
    var cut := CutOf(e, b.orders[i]);
    ReduceExact(b, i, cut, !e.Execute?);
    if e.Replace? {
      ReduceConsistent(b, i, cut, true);
      InsertExact(Reduce(b, i, cut, true), e.newRef, b.orders[i].level.side, e.shares, e.price);
    }
  }

  lemma {:induction false} HeadCreditsRightly(b: Book, e: Event)
    requires Consistent(b) && HitsHead(b, e)
    ensures CreditsRightly(b, e)
  {
    if e.Execute? && Live(b.orders, e.ref) {
      var i := IndexOf(b.orders, e.ref);
      forall r | r in b.rows
        ensures !Miscredits(r, b.orders[i], CutOf(e, b.orders[i]), false)
      {
        assert RowFits(b.orders, r);
        var j := IndexOf(b.orders, r.ref);
      }
    }
  }

  // ----- whole runs -------------------------------------------------------

  /** Any feed of unsigned events: consistent throughout, and the tracker never overstates. */
  lemma {:induction false} RunBounded(b: Book, events: seq<Event>)
    requires Consistent(b) && Bounded(b)
    requires forall k :: 0 <= k < |events| ==> Unsigned(events[k])
    ensures Consistent(Run(b, events)) && Bounded(Run(b, events))
    decreases |events|
  {
    if events != [] {
      StepConsistent(b, events[0]);
      StepBounded(b, events[0]);
      RunBounded(Step(b, events[0]), events[1..]);
    }
  }

  /** Under price-time priority the O(1) tracker equals the walk of the queue after every run. */
  lemma {:induction false} RunExact(b: Book, events: seq<Event>)
    requires Consistent(b) && Exact(b) && PriorityFeed(b, events)
    requires forall k :: 0 <= k < |events| ==> Unsigned(events[k])
    ensures Consistent(Run(b, events)) && Exact(Run(b, events))
    decreases |events|
  {
    if events != [] {
      StepConsistent(b, events[0]);
      HeadCreditsRightly(b, events[0]);
      StepExact(b, events[0]);
      RunExact(Step(b, events[0]), events[1..]);
    }
  }

  /** The same from an empty book: the statement the engine relies on. */
  lemma {:induction false} TrackerIsExact(cfg: Config, events: seq<Event>, ref: int)
    requires cfg.maxOrders > 0 && PriorityFeed(Empty(cfg), events)
    requires forall k :: 0 <= k < |events| ==> Unsigned(events[k])
    ensures var b := Run(Empty(cfg), events);
            var k := RowIndex(b.rows, ref);
            k < |b.rows| ==>
              && Live(b.orders, ref) && b.rows[k].ahead == QueuedBefore(b.orders, IndexOf(b.orders, ref))
              && 0 <= b.rows[k].ahead <= LevelQty(b.orders, b.orders[IndexOf(b.orders, ref)].level)
  {
    RunExact(Empty(cfg), events);
    var b := Run(Empty(cfg), events);
    var k := RowIndex(b.rows, ref);
    if k < |b.rows| {
      assert RowFits(b.orders, b.rows[k]);
      QueueWithinLevel(b.orders, IndexOf(b.orders, ref));
    }
  }

  /** What is ahead of an order is part of its level. */
  lemma QueueWithinLevel(orders: seq<Order>, i: nat)
    requires AllPositive(orders) && i < |orders|
    ensures 0 <= QueuedBefore(orders, i) <= LevelQty(orders, orders[i].level)
  {
    PrefixQty(orders, i, orders[i].level);
  }

  lemma {:induction false} PrefixQty(orders: seq<Order>, i: nat, level: Level)
    requires AllPositive(orders) && i <= |orders|
    ensures 0 <= LevelQty(orders[..i], level) <= LevelQty(orders, level)
    decreases |orders|
  {
    if i < |orders| {
      PrefixQty(orders[..|orders| - 1], i, level);
      assert orders[..|orders| - 1][..i] == orders[..i];
    } else {
      assert orders[..i] == orders;
      if orders != [] { PrefixQty(orders[..|orders| - 1], 0, level); }
    }
  }

  const OFF_HEAD_FEED := [Add(1, Buy, 30, 110), Add(2, Buy, 40, 110), Track(2), Add(3, Buy, 5, 110)]

  /** The priority rule matters: in a book that a feed builds, an execution behind a tracked order leaves it too low. */
  lemma OffHeadExecutionUnderstates()
    ensures var b := Run(Empty(Config(100, 50, 10)), OFF_HEAD_FEED);
            && Consistent(b) && Exact(b) && Unsigned(Execute(3, 5))
            && b.rows == [Row(2, Level(Buy, 10), 2, 30)] && Step(b, Execute(3, 5)).rows == [Row(2, Level(Buy, 10), 2, 25)]
            && !Exact(Step(b, Execute(3, 5)))
  {
    OffHeadBook();
    OffHeadStep(Run(Empty(Config(100, 50, 10)), OFF_HEAD_FEED));
  }

  ghost predicate OffHead(b: Book) {
    && b.cfg == Config(100, 50, 10) && b.nextArrival == 4 && b.rows == [Row(2, Level(Buy, 10), 2, 30)]
    && b.orders == [Order(1, Level(Buy, 10), 30, 1), Order(2, Level(Buy, 10), 40, 2), Order(3, Level(Buy, 10), 5, 3)]
  }

  lemma OffHeadStep(b: Book)
    requires OffHead(b)
    ensures Consistent(b) && Exact(b) && Step(b, Execute(3, 5)).rows == [Row(2, Level(Buy, 10), 2, 25)]
    ensures !Exact(Step(b, Execute(3, 5)))
  {
    OffHeadConsistent(b);
    StepExact(b, Execute(3, 5));
    hide Exact;
    hide Consistent;
    hide LevelQty;
    assert b.rows[0] in b.rows;
    IndexUnique(b.orders, 2);
    assert RowIndex(b.rows, 3) == 1;
  }

  lemma NothingQueued(level: Level)
    ensures LevelQty([], level) == 0
  {
  }

  lemma OffHeadConsistent(b: Book)
    requires OffHead(b)
    ensures Consistent(b) && Exact(b) && forall j, k :: 0 <= j < k < |b.orders| ==> b.orders[j].ref != b.orders[k].ref
  {
    hide LevelQty;
    var o1 := b.orders[0];
    assert b.orders[..1] == [] + [o1];
    QtyAppend([], o1, Level(Buy, 10));
    NothingQueued(Level(Buy, 10));
    IndexUnique(b.orders, 1);
  }

  /** The book that feed builds. */
  lemma OffHeadBook()
    ensures OffHead(Run(Empty(Config(100, 50, 10)), OFF_HEAD_FEED))
  {
    var cfg, o1, o2 := Config(100, 50, 10), Order(1, Level(Buy, 10), 30, 1), Order(2, Level(Buy, 10), 40, 2);
    var b1 := Book(cfg, [o1], 2, []);
    var b2 := Book(cfg, [o1, o2], 3, []);
    assert Step(Empty(cfg), Add(1, Buy, 30, 110)) == b1;
    assert Step(b1, Add(2, Buy, 40, 110)) == b2 by { assert IndexOf([o1], 2) == 1; }
    assert Step(b2, Track(2)) == b2.(rows := [Row(2, Level(Buy, 10), 2, 30)]) by {
      assert [o1, o2][1..] == [o2] && [o1, o2][..1] == [] + [o1];
      assert IndexOf([o1, o2], 2) == 1;
      QtyAppend([], o1, Level(Buy, 10));
    }
    assert [o1, o2][1..] == [o2];
    assert OFF_HEAD_FEED[1..][1..] == [Track(2), Add(3, Buy, 5, 110)];
  }
}
