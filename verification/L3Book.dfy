/**
 The indexed book: a ref map, a FIFO per level, level totals, occupied ticks and
 the two best indices, all updated in place over shared order nodes.  `list` is
 the ghost list of live orders in arrival order; every method moves `View()` by
 the step of L3Spec, and `Valid()` says that all five structures describe it.
 */
module L3Book {
  import opened SetFacts
  import opened L3Spec
  import opened L3Laws
  import BigEndian
  import Itch

  const NONE := -1

  /** A resting order, shared by the ref map and its level's FIFO.  Only its quantity ever changes. */
  class Node {
    const ref: int
    const level: Level
    const arrival: int
    var qty: int

    constructor (ref: int, level: Level, qty: int, arrival: int)
      ensures this.ref == ref && this.level == level && this.qty == qty && this.arrival == arrival
    {
      this.ref, this.level, this.qty, this.arrival := ref, level, qty, arrival;
    }
  }

  // ----- the FIFO of a level ------------------------------------------------

  /** Refs resting at one level, in arrival order. */
  function Fifo(orders: seq<Order>, lv: Level): (r: seq<int>)
  {
    if orders == [] then []
    else
      var last := orders[|orders| - 1];
      Fifo(orders[..|orders| - 1], lv) + (if last.level == lv then [last.ref] else [])
  }

  lemma {:induction false} FifoMembers(orders: seq<Order>, lv: Level)
    ensures forall k :: 0 <= k < |orders| && orders[k].level == lv ==> orders[k].ref in Fifo(orders, lv)
    ensures forall x :: x in Fifo(orders, lv) ==> exists k :: 0 <= k < |orders| && orders[k].level == lv && orders[k].ref == x
  {
    if orders != [] {
      var front := orders[..|orders| - 1];
      FifoMembers(front, lv);
      assert forall k :: 0 <= k < |front| ==> front[k] == orders[k];
    }
  }

  lemma {:induction false} FifoConcat(a: seq<Order>, b: seq<Order>, lv: Level)
    ensures Fifo(a + b, lv) == Fifo(a, lv) + Fifo(b, lv)
  {
    if b == [] {
      assert a + b == a;
    } else {
      FifoConcat(a, b[..|b| - 1], lv);
      assert (a + b)[..|a + b| - 1] == a + b[..|b| - 1];
    }
  }

  function PositionOf(s: seq<int>, x: int): (i: nat)
    ensures i <= |s|
    ensures i < |s| ==> s[i] == x
    ensures x in s ==> i < |s|
    ensures forall k :: 0 <= k < i ==> s[k] != x
  {
    if s == [] || s[0] == x then 0 else PositionOf(s[1..], x) + 1
  }

  /** Where an order stands in its level's FIFO. */
  lemma {:induction false} FifoAround(orders: seq<Order>, i: nat)
    requires Ordered(orders) && i < |orders|
    ensures var o := orders[i];
            var front := Fifo(orders[..i], o.level);
            && Fifo(orders, o.level) == front + [o.ref] + Fifo(orders[i + 1..], o.level)
            && o.ref !in front
            && PositionOf(Fifo(orders, o.level), o.ref) == |front|
  {
    var o, lv := orders[i], orders[i].level;
    assert orders == (orders[..i] + [o]) + orders[i + 1..];
    FifoConcat(orders[..i] + [o], orders[i + 1..], lv);
    FifoConcat(orders[..i], [o], lv);
    assert Fifo([o], lv) == [o.ref];
    FifoMembers(orders[..i], lv);
    PositionUnique(Fifo(orders[..i], lv), o.ref, Fifo(orders[i + 1..], lv));
  }

  lemma {:induction false} PositionUnique(a: seq<int>, x: int, b: seq<int>)
    requires x !in a
    ensures PositionOf(a + [x] + b, x) == |a|
  {
    assert (a + [x] + b)[|a|] == x;
    assert forall k :: 0 <= k < |a| ==> (a + [x] + b)[k] == a[k];
  }

  lemma {:induction false} FifoSplit(front: seq<Order>, middle: seq<Order>, back: seq<Order>, lv: Level)
    ensures Fifo(front + middle + back, lv) == Fifo(front, lv) + Fifo(middle, lv) + Fifo(back, lv)
  {
    FifoConcat(front + middle, back, lv);
    FifoConcat(front, middle, lv);
  }

  lemma FifoTrimmed(orders: seq<Order>, i: nat, cut: int, lv: Level)
    requires i < |orders| && orders[i].qty != cut
    ensures Fifo(Shrunk(orders, i, cut), lv) == Fifo(orders, lv)
  {
    hide Fifo;
    var o, front, back := orders[i], orders[..i], orders[i + 1..];
    var o' := o.(qty := o.qty - cut);
    assert orders == front + [o] + back && Shrunk(orders, i, cut) == front + [o'] + back;
    FifoSplit(front, [o], back, lv);
    FifoSplit(front, [o'], back, lv);
    FifoOne(o, lv);
    FifoOne(o', lv);
  }

  lemma FifoEmptied(orders: seq<Order>, i: nat, lv: Level)
    requires Ordered(orders) && i < |orders|
    ensures var o, fifo, after := orders[i], Fifo(orders, lv), Fifo(Without(orders, i), lv);
            if o.level == lv then var p := PositionOf(fifo, o.ref); p < |fifo| && after == Without(fifo, p)
            else after == fifo
  {
    hide Fifo;
    hide PositionOf;
    var o, front, back := orders[i], orders[..i], orders[i + 1..];
    assert orders == front + [o] + back && Without(orders, i) == front + back;
    FifoSplit(front, [o], back, lv);
    FifoConcat(front, back, lv);
    FifoOne(o, lv);
    if o.level == lv {
      FifoAround(orders, i);
      hide Ordered;
      WithoutMiddle(Fifo(front, lv), o.ref, Fifo(back, lv));
    } else {
      assert Fifo(front, lv) + [] == Fifo(front, lv);
    }
  }

  /** A shrunk order keeps its place; an emptied one leaves its own FIFO and no other. */
  lemma {:induction false} FifoShrunk(orders: seq<Order>, i: nat, cut: int, lv: Level)
    requires Ordered(orders) && i < |orders|
    ensures var o, fifo, after := orders[i], Fifo(orders, lv), Fifo(Shrunk(orders, i, cut), lv);
            if o.qty == cut && o.level == lv
            then var p := PositionOf(fifo, o.ref); p < |fifo| && after == Without(fifo, p)
            else after == fifo
  {
    if orders[i].qty == cut {
      FifoEmptied(orders, i, lv);
    } else {
      FifoTrimmed(orders, i, cut, lv);
    }
  }

  lemma FifoOne(o: Order, lv: Level)
    ensures Fifo([o], lv) == (if o.level == lv then [o.ref] else []) && Fifo([], lv) == []
  {
    assert [o][..0] == [];
  }

  lemma WithoutMiddle(a: seq<int>, x: int, b: seq<int>)
    ensures Without(a + [x] + b, |a|) == a + b
  {
  }

  lemma {:induction false} EmptyFifo(orders: seq<Order>, lv: Level)
    requires AllPositive(orders)
    ensures LevelQty(orders, lv) == 0 <==> Fifo(orders, lv) == []
    ensures LevelQty(orders, lv) >= 0
  {
    QtyNonNegative(orders, lv);
    FifoMembers(orders, lv);
    if Fifo(orders, lv) != [] {
      var x := Fifo(orders, lv)[0];
      assert x in Fifo(orders, lv);
      var k :| 0 <= k < |orders| && orders[k].level == lv && orders[k].ref == x;
    }
  }

  /** The largest element, as Python's `max`. */
  method MaxOf(s: set<int>) returns (m: int)
    requires s != {}
    ensures m in s && forall x :: x in s ==> x <= m
  {
    HasElement(s);
    m :| m in s;
    var rest := s - {m};
    while rest != {}
      invariant rest <= s && m in s
      invariant forall x :: x in s && x !in rest ==> x <= m
      decreases rest
    {
      HasElement(rest);
      var x :| x in rest;
      if x > m { m := x; }
      rest := rest - {x};
    }
  }

  method MinOf(s: set<int>) returns (m: int)
    requires s != {}
    ensures m in s && forall x :: x in s ==> x >= m
  {
    HasElement(s);
    m :| m in s;
    var rest := s - {m};
    while rest != {}
      invariant rest <= s && m in s
      invariant forall x :: x in s && x !in rest ==> x >= m
      decreases rest
    {
      HasElement(rest);
      var x :| x in rest;
      if x < m { m := x; }
      rest := rest - {x};
    }
  }

  method NextAtOrBelow(occupied: set<int>, from: int) returns (idx: int)
    requires NONE !in occupied
    ensures idx == NONE <==> forall t :: t in occupied ==> t > from
    ensures idx != NONE ==> idx in occupied && idx <= from && forall t :: t in occupied && t <= from ==> t <= idx
  {
    var candidates := set t | t in occupied && t <= from;
    if candidates == {} {
      idx := NONE;
      forall t | t in occupied ensures t > from { assert t !in candidates; }
    } else {
      idx := MaxOf(candidates);
      forall t | t in occupied && t <= from ensures t <= idx { assert t in candidates; }
    }
  }

  method NextAtOrAbove(occupied: set<int>, from: int) returns (idx: int)
    requires NONE !in occupied
    ensures idx == NONE <==> forall t :: t in occupied ==> t < from
    ensures idx != NONE ==> idx in occupied && idx >= from && forall t :: t in occupied && t >= from ==> t >= idx
  {
    var candidates := set t | t in occupied && t >= from;
    if candidates == {} {
      idx := NONE;
      forall t | t in occupied ensures t < from { assert t !in candidates; }
    } else {
      idx := MinOf(candidates);
      forall t | t in occupied && t >= from ensures t >= idx { assert t in candidates; }
    }
  }

  // ----- what the five structures must say about the list -------------------

  ghost predicate RefsOk(orders: map<int, Node>, list: seq<Order>) {
    && (forall r :: r in orders ==> Live(list, r))
    && (forall i :: 0 <= i < |list| ==>
          && list[i].ref in orders
          && var n := orders[list[i].ref];
             n.ref == list[i].ref && n.level == list[i].level && n.arrival == list[i].arrival)
  }

  ghost predicate FifoOk(level: seq<Node>, orders: map<int, Node>, refs: seq<int>) {
    |level| == |refs| && forall k :: 0 <= k < |refs| ==> refs[k] in orders && level[k] == orders[refs[k]]
  }

  ghost predicate LevelsOk(levels: map<Level, seq<Node>>, orders: map<int, Node>, list: seq<Order>) {
    forall lv :: if lv in levels then Fifo(list, lv) != [] && FifoOk(levels[lv], orders, Fifo(list, lv))
                 else Fifo(list, lv) == []
  }

  ghost predicate TotalsOk(qty: map<Level, int>, levels: map<Level, seq<Node>>, list: seq<Order>) {
    && qty.Keys == levels.Keys
    && forall lv :: lv in qty ==> qty[lv] == LevelQty(list, lv)
  }

  ghost predicate Indexed(
    orders: map<int, Node>, restingOrders: int, levels: map<Level, seq<Node>>, qty: map<Level, int>, list: seq<Order>)
  {
    && RefsOk(orders, list)
    && restingOrders == |list| == |orders|
    && LevelsOk(levels, orders, list)
    && TotalsOk(qty, levels, list)
  }

  lemma LevelFifo(orders: map<int, Node>, levels: map<Level, seq<Node>>, list: seq<Order>, lv: Level)
    requires LevelsOk(levels, orders, list) && lv in levels
    ensures FifoOk(levels[lv], orders, Fifo(list, lv))
  {
  }

  lemma RefsOfIndexed(
    orders: map<int, Node>, restingOrders: int, levels: map<Level, seq<Node>>, qty: map<Level, int>, list: seq<Order>)
    requires Indexed(orders, restingOrders, levels, qty, list)
    ensures RefsOk(orders, list)
  {
  }

  /** A bid is better when higher, an ask when lower. */
  predicate Better(side: Side, a: int, b: int) {
    if side == Buy then a > b else a < b
  }

  /** One side's occupied ticks are those with a level, and `best` is the best of them. */
  ghost predicate SideOk(side: Side, ticks: set<int>, best: int, levels: map<Level, seq<Node>>) {
    && (forall t :: t in ticks <==> Level(side, t) in levels)
    && NONE !in ticks
    && (if ticks == {} then best == NONE else best in ticks)
    && (forall t :: t in ticks ==> !Better(side, t, best))
  }

  lemma {:induction false} SideInsert(
    side: Side, ticks: set<int>, best: int, levels: map<Level, seq<Node>>, tick: int, level: seq<Node>)
    requires SideOk(side, ticks, best, levels) && tick != NONE
    ensures SideOk(side, ticks + {tick}, if best == NONE || Better(side, tick, best) then tick else best,
                   levels[Level(side, tick) := level])
  {
    if ticks != {} && best != NONE {
      assert best in ticks;
    }
  }

  lemma {:induction false} SideOther(
    side: Side, ticks: set<int>, best: int, levels: map<Level, seq<Node>>, lv: Level, level: seq<Node>)
    requires SideOk(side, ticks, best, levels) && lv.side != side
    ensures SideOk(side, ticks, best, levels[lv := level])
  {
  }

  lemma {:induction false} LevelsInsert(levels: map<Level, seq<Node>>, orders: map<int, Node>, list: seq<Order>, o: Order, node: Node)
    requires LevelsOk(levels, orders, list) && RefsOk(orders, list) && o.ref !in orders
    ensures LevelsOk(levels[o.level := (if o.level in levels then levels[o.level] else []) + [node]],
                     orders[o.ref := node], list + [o])
  {
    assert (list + [o])[..|list|] == list;
    forall lv
      ensures Fifo(list + [o], lv) == Fifo(list, lv) + (if o.level == lv then [o.ref] else [])
    {
    }
  }

  lemma {:induction false} TotalsInsert(qty: map<Level, int>, levels: map<Level, seq<Node>>, list: seq<Order>, o: Order, level: seq<Node>)
    requires TotalsOk(qty, levels, list)
    requires o.level !in qty ==> LevelQty(list, o.level) == 0
    ensures TotalsOk(qty[o.level := (if o.level in qty then qty[o.level] else 0) + o.qty], levels[o.level := level], list + [o])
  {
    forall lv
      ensures LevelQty(list + [o], lv) == LevelQty(list, lv) + (if o.level == lv then o.qty else 0)
    {
      QtyAppend(list, o, lv);
    }
  }

  lemma {:induction false} RefsInsert(orders: map<int, Node>, list: seq<Order>, o: Order, node: Node)
    requires RefsOk(orders, list) && Ordered(list + [o])
    requires node.ref == o.ref && node.level == o.level && node.arrival == o.arrival
    ensures RefsOk(orders[o.ref := node], list + [o])
  {
    var after := list + [o];
    assert after[|list|] == o;
    forall r | r in orders[o.ref := node]
      ensures Live(after, r)
    {
      if r == o.ref {
        IndexUnique(after, |list|);
      } else {
        var i := IndexOf(list, r);
        assert after[i] == list[i] && list[i].ref == r;
        IndexUnique(after, i);
      }
    }
    forall i | 0 <= i < |after|
      ensures after[i].ref in orders[o.ref := node]
      ensures var n := orders[o.ref := node][after[i].ref];
              n.ref == after[i].ref && n.level == after[i].level && n.arrival == after[i].arrival
    {
      if i < |list| { assert after[i] == list[i]; }
    }
  }

  /** What an accepted insert writes keeps map, FIFOs and totals in step. */
  lemma {:induction false} InsertIndexed(
    orders: map<int, Node>, restingOrders: int, levels: map<Level, seq<Node>>, qty: map<Level, int>,
    list: seq<Order>, o: Order, node: Node)
    requires Indexed(orders, restingOrders, levels, qty, list)
    requires o.ref !in orders && Ordered(list + [o]) && AllPositive(list)
    requires node.ref == o.ref && node.level == o.level && node.arrival == o.arrival
    ensures var lv := o.level;
            Indexed(orders[o.ref := node], restingOrders + 1,
                    levels[lv := (if lv in levels then levels[lv] else []) + [node]],
                    qty[lv := (if lv in qty then qty[lv] else 0) + o.qty],
                    list + [o])
  {
    RefsInsert(orders, list, o, node);
    LevelsInsert(levels, orders, list, o, node);
    EmptyFifo(list, o.level);
    TotalsInsert(qty, levels, list, o, (if o.level in levels then levels[o.level] else []) + [node]);
    assert orders[o.ref := node].Keys == orders.Keys + {o.ref};
  }

  // ----- walking a FIFO ----------------------------------------------------

  function QtyOfRefs(held: map<int, int>, refs: seq<int>): int
    requires forall k :: 0 <= k < |refs| ==> refs[k] in held
  {
    if refs == [] then 0 else QtyOfRefs(held, refs[..|refs| - 1]) + held[refs[|refs| - 1]]
  }

  lemma FifoLast(list: seq<Order>, lv: Level)
    requires list != []
    ensures var last, refs := list[|list| - 1], Fifo(list[..|list| - 1], lv);
            Fifo(list, lv) == if last.level == lv then refs + [last.ref] else refs
  {
  }

  /** Adding up a FIFO gives the level's total. */
  lemma {:induction false} FifoTotal(held: map<int, int>, list: seq<Order>, lv: Level)
    requires forall i :: 0 <= i < |list| ==> list[i].ref in held && held[list[i].ref] == list[i].qty
    ensures forall k :: 0 <= k < |Fifo(list, lv)| ==> Fifo(list, lv)[k] in held
    ensures QtyOfRefs(held, Fifo(list, lv)) == LevelQty(list, lv)
  {
    if list != [] {
      var front, last := list[..|list| - 1], list[|list| - 1];
      FifoTotal(held, front, lv);
      FifoLast(list, lv);
      hide Fifo;
      hide QtyOfRefs;
      if last.level == lv { RefsPush(held, Fifo(front, lv), last.ref); }
    } else {
      assert Fifo(list, lv) == [];
    }
  }

  lemma RefsPush(held: map<int, int>, refs: seq<int>, r: int)
    requires r in held && forall k :: 0 <= k < |refs| ==> refs[k] in held
    ensures forall k :: 0 <= k < |refs| + 1 ==> (refs + [r])[k] in held
    ensures QtyOfRefs(held, refs + [r]) == QtyOfRefs(held, refs) + held[r]
  {
    assert (refs + [r])[..|refs|] == refs;
  }

  // ----- shrinking and removing --------------------------------------------

  function NodeIndex(level: seq<Node>, n: Node): (i: nat)
    ensures i <= |level|
    ensures i < |level| ==> level[i] == n
    ensures forall k :: 0 <= k < i ==> level[k] != n
    ensures n in level ==> i < |level|
  {
    if level == [] || level[0] == n then 0 else NodeIndex(level[1..], n) + 1
  }

  /** Finding the node object in its FIFO finds the order's place. */
  lemma {:induction false} NodePosition(orders: map<int, Node>, levels: map<Level, seq<Node>>, list: seq<Order>, i: nat)
    requires RefsOk(orders, list) && LevelsOk(levels, orders, list) && Ordered(list) && i < |list|
    ensures var o := list[i];
            && o.level in levels && o.ref in orders
            && var p := PositionOf(Fifo(list, o.level), o.ref);
               p < |levels[o.level]| && NodeIndex(levels[o.level], orders[o.ref]) == p
  {
    var o := list[i];
    var refs := Fifo(list, o.level);
    FifoAround(list, i);
    FifoMembers(list, o.level);
    assert o.ref in refs;
    var level := levels[o.level];
    var p := PositionOf(refs, o.ref);
    assert level[p] == orders[o.ref];
    forall k | 0 <= k < p
      ensures level[k] != orders[o.ref]
    {
      assert refs[k] in refs;
      assert refs[k] != o.ref && level[k].ref == refs[k];
    }
  }

  lemma {:induction false} RefsShrunk(orders: map<int, Node>, list: seq<Order>, i: nat, cut: int)
    requires RefsOk(orders, list) && Ordered(list) && i < |list|
    ensures RefsOk(if list[i].qty == cut then orders - {list[i].ref} else orders, Shrunk(list, i, cut))
  {
    var o, after := list[i], Shrunk(list, i, cut);
    var orders' := if o.qty == cut then orders - {o.ref} else orders;
    forall r | r in orders'
      ensures Live(after, r)
    {
      var j := IndexOf(list, r);
      ShrunkAhead(list, i, j, cut);
    }
    forall k | 0 <= k < |after|
      ensures after[k].ref in orders'
      ensures var n := orders'[after[k].ref];
              n.ref == after[k].ref && n.level == after[k].level && n.arrival == after[k].arrival
    {
      var j := if o.qty == cut && k >= i then k + 1 else k;
      assert after[k].ref == list[j].ref && after[k].level == list[j].level;
      assert list[j].ref in orders;
    }
  }

  lemma {:induction false} NodeRefs(orders: map<int, Node>, list: seq<Order>)
    requires RefsOk(orders, list)
    ensures forall r :: r in orders ==> orders[r].ref == r
  {
    forall r | r in orders
      ensures orders[r].ref == r
    {
      assert list[IndexOf(list, r)].ref == r;
    }
  }

  /** Only the order that was cut changed its quantity. */
  lemma {:induction false} QtysShrunk(orders: map<int, Node>, held: map<int, int>, list: seq<Order>, i: nat, cut: int)
    requires Ordered(list) && i < |list|
    requires forall j :: 0 <= j < |list| ==> list[j].ref in held && held[list[j].ref] == list[j].qty
    ensures var after := Shrunk(list, i, cut);
            forall k :: 0 <= k < |after| ==>
              after[k].ref in held && after[k].qty == held[after[k].ref] - (if after[k].ref == list[i].ref then cut else 0)
  {
    var after := Shrunk(list, i, cut);
    forall k | 0 <= k < |after|
      ensures after[k].ref in held && after[k].qty == held[after[k].ref] - (if after[k].ref == list[i].ref then cut else 0)
    {
      var j := if list[i].qty == cut && k >= i then k + 1 else k;
      assert after[k].ref == list[j].ref;
    }
  }

  /** A partial cut: only the level's total and the node's quantity move. */
  lemma {:induction false} TrimIndexed(
    orders: map<int, Node>, restingOrders: int, levels: map<Level, seq<Node>>, qty: map<Level, int>,
    list: seq<Order>, i: nat, cut: int)
    requires Indexed(orders, restingOrders, levels, qty, list) && Ordered(list)
    requires i < |list| && list[i].qty != cut
    ensures var lv := list[i].level;
            lv in qty && Indexed(orders, restingOrders, levels, qty[lv := qty[lv] - cut], Shrunk(list, i, cut))
  {
    ShrunkSize(list, i, cut);
    TotalsKeys(qty, levels, list);
    hide LevelsOk;
    hide RefsOk;
    hide TotalsOk;
    hide Ordered;
    hide NodeIndex;
    hide PositionOf;
    hide Fifo;
    hide LevelQty;
    hide Shrunk;
    RefsShrunk(orders, list, i, cut);
    NodePosition(orders, levels, list, i);
    LevelsTrimmed(orders, levels, list, i, cut);
    TotalsTrimmed(levels, qty, list, i, cut);
  }

  lemma ShrunkSize(list: seq<Order>, i: nat, cut: int)
    requires i < |list|
    ensures |Shrunk(list, i, cut)| == if list[i].qty == cut then |list| - 1 else |list|
  {
  }

  lemma TotalsKeys(qty: map<Level, int>, levels: map<Level, seq<Node>>, list: seq<Order>)
    requires TotalsOk(qty, levels, list)
    ensures qty.Keys == levels.Keys
  {
  }

  lemma {:induction false} LevelsTrimmed(orders: map<int, Node>, levels: map<Level, seq<Node>>, list: seq<Order>, i: nat, cut: int)
    requires LevelsOk(levels, orders, list) && Ordered(list) && i < |list| && list[i].qty != cut
    ensures LevelsOk(levels, orders, Shrunk(list, i, cut))
  {
    forall lv
      ensures Fifo(Shrunk(list, i, cut), lv) == Fifo(list, lv)
    {
      FifoShrunk(list, i, cut, lv);
    }
  }

  lemma {:induction false} TotalsTrimmed(levels: map<Level, seq<Node>>, qty: map<Level, int>, list: seq<Order>, i: nat, cut: int)
    requires TotalsOk(qty, levels, list) && i < |list| && list[i].qty != cut && list[i].level in qty
    ensures var lv := list[i].level;
            TotalsOk(qty[lv := qty[lv] - cut], levels, Shrunk(list, i, cut))
  {
    var o := list[i];
    forall lv
      ensures LevelQty(Shrunk(list, i, cut), lv) == LevelQty(list, lv) - (if lv == o.level then cut else 0)
    {
      QtyReplace(list, i, o.qty - cut, lv);
    }
  }

  /** The reference of the order at `i` is in no FIFO once the order is gone. */
  lemma {:induction false} RefGone(list: seq<Order>, i: nat, lv: Level)
    requires Ordered(list) && i < |list|
    ensures list[i].ref !in Fifo(Without(list, i), lv)
  {
    var after := Without(list, i);
    FifoMembers(after, lv);
    hide Fifo;
    forall k | 0 <= k < |after| ensures after[k].ref != list[i].ref {
      assert after[k] == list[if k < i then k else k + 1];
    }
  }

  /** Dropping one position of a matching FIFO and its reference keeps them matching. */
  lemma FifoOkWithout(level: seq<Node>, orders: map<int, Node>, refs: seq<int>, p: nat)
    requires FifoOk(level, orders, refs) && p < |refs| && refs[p] !in Without(refs, p)
    ensures FifoOk(Without(level, p), orders - {refs[p]}, Without(refs, p))
  {
    forall k | 0 <= k < |refs| - 1
      ensures Without(refs, p)[k] in orders - {refs[p]} && Without(level, p)[k] == orders[Without(refs, p)[k]]
    {
      var k' := if k < p then k else k + 1;
      assert Without(refs, p)[k] == refs[k'] && Without(refs, p)[k] in Without(refs, p);
    }
  }

  lemma FifoOkApart(level: seq<Node>, orders: map<int, Node>, refs: seq<int>, r: int)
    requires FifoOk(level, orders, refs) && r !in refs
    ensures FifoOk(level, orders - {r}, refs)
  {
    forall k | 0 <= k < |refs| ensures refs[k] in orders - {r} { assert refs[k] in refs; }
  }

  /** A level's FIFO and total once its order at `i` is gone. */
  lemma {:induction false} LevelRemoved(
    orders: map<int, Node>, levels: map<Level, seq<Node>>, list: seq<Order>, i: nat, lv: Level)
    requires RefsOk(orders, list) && LevelsOk(levels, orders, list) && Ordered(list) && i < |list|
    ensures var o, after := list[i], Without(list, i);
            && LevelQty(after, lv) == LevelQty(list, lv) - (if lv == o.level then o.qty else 0)
            && (lv != o.level ==>
                  Fifo(after, lv) == Fifo(list, lv)
                  && (lv in levels ==> FifoOk(levels[lv], orders - {o.ref}, Fifo(after, lv))))
            && o.ref in orders && o.level in levels
            && var p := NodeIndex(levels[o.level], orders[o.ref]);
               p < |levels[o.level]|
               && (lv == o.level ==> FifoOk(Without(levels[lv], p), orders - {o.ref}, Fifo(after, lv)))
  {
    var o, after := list[i], Without(list, i);
    NodePosition(orders, levels, list, i);
    FifoShrunk(list, i, o.qty, lv);
    QtyWithout(list, i, lv);
    RefGone(list, i, lv);
    if lv in levels { LevelFifo(orders, levels, list, lv); }
    hide Fifo;
    hide LevelQty;
    hide RefsOk;
    hide LevelsOk;
    hide Ordered;
    hide NodeIndex;
    hide PositionOf;
    hide FifoOk;
    hide Without;
    if lv == o.level {
      FifoOkWithout(levels[lv], orders, Fifo(list, lv), PositionOf(Fifo(list, lv), o.ref));
    } else if lv in levels {
      FifoOkApart(levels[lv], orders, Fifo(list, lv), o.ref);
    }
  }

  /** The FIFOs after the order at `i` is gone; `keep` says whether its level is kept. */
  lemma {:induction false} LevelsRemoved(
    orders: map<int, Node>, levels: map<Level, seq<Node>>, list: seq<Order>, i: nat, levels': map<Level, seq<Node>>)
    requires RefsOk(orders, list) && LevelsOk(levels, orders, list) && Ordered(list) && i < |list|
    requires list[i].ref in orders && list[i].level in levels
    requires var lv := list[i].level;
             var p := NodeIndex(levels[lv], orders[list[i].ref]);
             p < |levels[lv]| && levels' == if Fifo(Without(list, i), lv) == [] then levels - {lv} else levels[lv := Without(levels[lv], p)]
    ensures LevelsOk(levels', orders - {list[i].ref}, Without(list, i))
  {
    var after := Without(list, i);
    forall lv
      ensures if lv in levels' then Fifo(after, lv) != [] && FifoOk(levels'[lv], orders - {list[i].ref}, Fifo(after, lv))
              else Fifo(after, lv) == []
    {
      LevelRemoved(orders, levels, list, i, lv);
    }
  }

  lemma {:induction false} TotalsRemoved(
    levels: map<Level, seq<Node>>, qty: map<Level, int>, list: seq<Order>, i: nat, level: seq<Node>)
    requires TotalsOk(qty, levels, list) && i < |list| && list[i].level in qty
    ensures var o, lv := list[i], list[i].level;
            && TotalsOk(qty[lv := qty[lv] - o.qty], levels[lv := level], Without(list, i))
            && TotalsOk(qty - {lv}, levels - {lv}, Without(list, i))
  {
    forall lv
      ensures LevelQty(Without(list, i), lv) == LevelQty(list, lv) - (if lv == list[i].level then list[i].qty else 0)
    {
      QtyWithout(list, i, lv);
    }
  }

  /** The order at `i` was its level's last exactly when it was the level's whole quantity. */
  lemma {:induction false} LastQty(list: seq<Order>, i: nat)
    requires AllPositive(list) && i < |list|
    ensures var lv := list[i].level;
            LevelQty(list, lv) - list[i].qty == 0 <==> Fifo(Without(list, i), lv) == []
  {
    var lv, after := list[i].level, Without(list, i);
    QtyWithout(list, i, lv);
    assert forall k :: 0 <= k < |after| ==> after[k] == list[if k < i then k else k + 1];
    EmptyFifo(after, lv);
  }

  /** Removing the order at `i`: the level goes exactly when its total falls to zero. */
  lemma {:induction false} RemoveIndexed(
    orders: map<int, Node>, restingOrders: int, levels: map<Level, seq<Node>>, qty: map<Level, int>,
    list: seq<Order>, i: nat)
    requires Indexed(orders, restingOrders, levels, qty, list) && Ordered(list) && AllPositive(list) && i < |list|
    ensures var o, lv := list[i], list[i].level;
            && o.ref in orders && lv in levels
            && var p := NodeIndex(levels[lv], orders[o.ref]);
               p < |levels[lv]|
               && var total := qty[lv] - o.qty;
                  if total == 0
                  then Indexed(orders - {o.ref}, restingOrders - 1, levels - {lv}, qty - {lv}, Without(list, i))
                  else Indexed(orders - {o.ref}, restingOrders - 1, levels[lv := Without(levels[lv], p)],
                               qty[lv := total], Without(list, i))
  {
    var o, after := list[i], Without(list, i);
    var lv := o.level;
    NodePosition(orders, levels, list, i);
    var p := NodeIndex(levels[lv], orders[o.ref]);
    RefsShrunk(orders, list, i, o.qty);
    LastQty(list, i);
    TotalsKeys(qty, levels, list);
    assert qty[lv] == LevelQty(list, lv);
    hide TotalsOk;
    hide RefsOk;
    hide LevelsOk;
    hide Ordered;
    hide AllPositive;
    hide Fifo;
    hide LevelQty;
    hide NodeIndex;
    hide PositionOf;
    hide Without;
    assert orders.Keys == (orders - {o.ref}).Keys + {o.ref};
    TotalsRemoved(levels, qty, list, i, Without(levels[lv], p));
    LevelsRemoved(orders, levels, list, i,
                  if Fifo(after, lv) == [] then levels - {lv} else levels[lv := Without(levels[lv], p)]);
  }

  lemma {:induction false} SideKept(side: Side, ticks: set<int>, best: int, levels: map<Level, seq<Node>>, lv: Level, level: seq<Node>)
    requires SideOk(side, ticks, best, levels) && lv in levels
    ensures SideOk(side, ticks, best, levels[lv := level])
  {
  }

  /** The event a wrapped message stands for. */
  function EventOf(v: Itch.ItchView): Event
    requires v.Readable()
    reads v
  {
    var t := v.Type();
    if t == Itch.ADD || t == Itch.ADD_MPID then
      Add(v.OrderRef(), if v.SideByte() == Itch.BUY then Buy else Sell, v.Shares(), v.PriceTick())
    else if t == Itch.EXECUTED then Execute(v.OrderRef(), v.DeltaShares())
    else if t == Itch.CANCEL then Cancel(v.OrderRef(), v.DeltaShares())
    else if t == Itch.DELETE then Delete(v.OrderRef())
    else if t == Itch.REPLACE then Replace(v.OrigRef(), v.NewRef(), v.Shares(), v.PriceTick())
    else Trade(v.PriceTick())
  }

  class L3BookBuilder {
    const stockLocate: int
    const cfg: Config
    const view: Itch.ItchView

    var levels: map<Level, seq<Node>>
    var qty: map<Level, int>
    var bids: set<int>
    var asks: set<int>
    var bestBid: int
    var bestAsk: int
    var orders: map<int, Node>
    var nextArrival: int
    var rows: seq<Row>
    var counts: Counts
    var restingOrders: int
    var lastTrade: int

    ghost var list: seq<Order>

    ghost function View(): Book
      reads `list, `nextArrival, `rows
    {
      Book(cfg, list, nextArrival, rows)
    }

    ghost predicate QtysOk()
      reads `orders, `list, orders.Values
    {
      forall i :: 0 <= i < |list| && list[i].ref in orders ==> orders[list[i].ref].qty == list[i].qty
    }

    ghost predicate Valid()
      reads `orders, `restingOrders, `levels, `qty, `bids, `asks, `bestBid, `bestAsk
      reads `list, `nextArrival, `rows, orders.Values
    {
      && Consistent(View())
      && Indexed(orders, restingOrders, levels, qty, list)
      && SideOk(Buy, bids, bestBid, levels)
      && SideOk(Sell, asks, bestAsk, levels)
      && QtysOk()
    }

    constructor (stockLocate: int, minPriceTick: int, maxPriceTick: int, maxOrders: int)
      requires maxPriceTick >= minPriceTick && maxOrders > 0
      ensures Valid() && View() == Empty(Config(minPriceTick, maxPriceTick - minPriceTick + 1, maxOrders))
      ensures this.stockLocate == stockLocate && orders == map[]
      ensures counts == Counts(0, 0, 0, 0, 0, 0, 0, 0, 0) && lastTrade == INT_MIN
    {
      this.stockLocate := stockLocate;
      view := new Itch.ItchView();
      cfg := Config(minPriceTick, maxPriceTick - minPriceTick + 1, maxOrders);
      levels, qty, bids, asks := map[], map[], {}, {};
      bestBid, bestAsk := NONE, NONE;
      orders, nextArrival, rows := map[], 1, [];
      counts, restingOrders, lastTrade := Counts(0, 0, 0, 0, 0, 0, 0, 0, 0), 0, INT_MIN;
      list := [];
    }

    // ----- adding ---------------------------------------------------------

    method OnAdd(ref: int, side: Side, shares: int, price: int) returns (accepted: bool)
      requires Valid()
      modifies this
      ensures Valid()
      ensures accepted == Accepts(old(View()), ref, shares, price)
      ensures View() == Step(old(View()), Add(ref, side, shares, price))
      ensures accepted <==> Welcome(old(View()), ref, shares, price)
      ensures forall r :: OpenOf(list, r) == if r == ref && accepted then shares else old(OpenOf(list, r))
      ensures counts == Tally(old(View()), old(counts), Add(ref, side, shares, price))
      ensures lastTrade == old(lastTrade)
      ensures forall n :: n in orders.Values ==> n in old(orders.Values) || fresh(n)
    {
      hide Valid;
      hide Insert;
      hide OpenOf;
      ghost var b := View();
      IsConsistent();
      WelcomeIsAccepted(b, ref, shares, price);
      forall r ensures OpenOf(Step(b, Add(ref, side, shares, price)).orders, r)
                    == if r == ref && Welcome(b, ref, shares, price) then shares else OpenOf(b.orders, r)
      {
        AddedOpen(b, ref, side, shares, price, r);
      }
      hide Welcome;
      accepted := InsertOrder(ref, side, shares, price);
      if accepted {
        counts := counts.(addCount := counts.addCount + 1);
      }
    }

    lemma IsConsistent()
      requires Valid()
      ensures Consistent(View())
    {
      hide Indexed;
      hide SideOk;
      hide OrdersOk;
      hide RowsOk;
    }

    /** The ref map answers what a search of the list would. */
    lemma {:induction false} Lookup(ref: int)
      requires Valid()
      ensures ref in orders <==> Live(list, ref)
      ensures |orders| == |list|
      ensures ref in orders ==>
                var n, o := orders[ref], list[IndexOf(list, ref)];
                n.ref == ref && n.level == o.level && n.arrival == o.arrival && n.qty == o.qty > 0
                && n.level in qty && n.level in levels
    {
      if Live(list, ref) {
        var i := IndexOf(list, ref);
        assert list[i].ref == ref;
        NodePosition(orders, levels, list, i);
      }
    }

    /** Marks a tick occupied and improves the best index when it is better. */
    method Occupy(lv: Level, ghost level: seq<Node>)
      requires lv.tick != NONE
      requires SideOk(Buy, bids, bestBid, levels) && SideOk(Sell, asks, bestAsk, levels)
      modifies `bids, `asks, `bestBid, `bestAsk
      ensures SideOk(Buy, bids, bestBid, levels[lv := level]) && SideOk(Sell, asks, bestAsk, levels[lv := level])
    {
      if lv.side == Buy {
        SideInsert(Buy, bids, bestBid, levels, lv.tick, level);
        SideOther(Sell, asks, bestAsk, levels, lv, level);
        bids := bids + {lv.tick};
        if bestBid == NONE || lv.tick > bestBid { bestBid := lv.tick; }
      } else {
        SideInsert(Sell, asks, bestAsk, levels, lv.tick, level);
        SideOther(Buy, bids, bestBid, levels, lv, level);
        asks := asks + {lv.tick};
        if bestAsk == NONE || lv.tick < bestAsk { bestAsk := lv.tick; }
      }
    }

    /** Puts a new node at the back of its level's FIFO. */
    method Link(node: Node, ghost o: Order)
      modifies `nextArrival, `orders, `levels, `qty, `restingOrders, `list
      ensures nextArrival == old(nextArrival) + 1
      ensures orders == old(orders)[node.ref := node]
      ensures levels == old(levels)[node.level := (if node.level in old(levels) then old(levels)[node.level] else []) + [node]]
      ensures qty == old(qty)[node.level := (if node.level in old(qty) then old(qty)[node.level] else 0) + old(node.qty)]
      ensures restingOrders == old(restingOrders) + 1
      ensures list == old(list) + [o]
    {
      nextArrival := nextArrival + 1;
      orders := orders[node.ref := node];
      levels := levels[node.level := (if node.level in levels then levels[node.level] else []) + [node]];
      qty := qty[node.level := (if node.level in qty then qty[node.level] else 0) + node.qty];
      restingOrders := restingOrders + 1;
      list := list + [o];
    }

    /** The accepting half of an insert. */
    method Place(ref: int, side: Side, shares: int, price: int)
      requires Valid() && Accepts(View(), ref, shares, price)
      modifies `bids, `asks, `bestBid, `bestAsk, `nextArrival, `orders, `levels, `qty, `restingOrders, `list
      ensures Valid()
      ensures View() == Insert(old(View()), ref, side, shares, price)
      ensures forall n :: n in orders.Values ==> n in old(orders.Values) || fresh(n)
    {
      hide Indexed;
      hide RowsOk;
      hide Ordered;
      hide AllPositive;
      hide Listable;
      hide SideOk;
      Lookup(ref);
      InsertConsistent(View(), ref, side, shares, price);
      var lv := Level(side, price - cfg.minTick);
      var node := new Node(ref, lv, shares, nextArrival);
      ghost var o := Order(ref, lv, shares, nextArrival);
      InsertIndexed(orders, restingOrders, levels, qty, list, o, node);
      Occupy(lv, (if lv in levels then levels[lv] else []) + [node]);
      Link(node, o);
    }

    method InsertOrder(ref: int, side: Side, shares: int, price: int) returns (accepted: bool)
      requires Valid()
      modifies this
      ensures Valid()
      ensures accepted == Accepts(old(View()), ref, shares, price)
      ensures View() == Insert(old(View()), ref, side, shares, price)
      ensures counts == InsertTally(old(View()), old(counts), ref, shares, price)
      ensures lastTrade == old(lastTrade)
      ensures forall n :: n in orders.Values ==> n in old(orders.Values) || fresh(n)
    {
      hide Valid;
      Lookup(ref);
      var idx := price - cfg.minTick;
      if idx < 0 || idx >= cfg.ladder || shares <= 0 || ref <= 0 || |orders| >= cfg.maxOrders {
        counts := counts.(outOfBandCount := counts.outOfBandCount + 1);
        return false;
      }
      if ref in orders {
        counts := counts.(duplicateRefCount := counts.duplicateRefCount + 1);
        return false;
      }
      Place(ref, side, shares, price);
      return true;
    }

    // ----- reducing -------------------------------------------------------

    /** Walks the tracked rows; `o` is the node as the list has it. */
    method CreditRows(node: Node, cut: int, byArrival: bool, ghost o: Order)
      requires o.ref == node.ref && o.level == node.level && o.arrival == node.arrival
      modifies `rows
      ensures rows == CreditAhead(old(rows), o, cut, byArrival)
    {
      for k := 0 to |rows|
        invariant |rows| == |old(rows)|
        invariant forall j :: 0 <= j < k ==> rows[j] == CreditRow(old(rows)[j], o, cut, byArrival)
        invariant forall j :: k <= j < |rows| ==> rows[j] == old(rows)[j]
      {
        var t := rows[k];
        if t.level == node.level && t.ref != node.ref && (!byArrival || node.arrival < t.arrival) {
          rows := rows[k := t.(ahead := Max(0, t.ahead - cut))];
        }
      }
    }

    /** Stops tracking a ref; a ref that is not tracked is left alone. */
    method Untrack(ref: int)
      modifies `rows
      ensures rows == DropRow(old(rows), ref)
      ensures old(Valid()) ==> Valid() && View() == Step(old(View()), L3Spec.Untrack(ref))
    {
      hide Indexed;
      hide SideOk;
      hide OrdersOk;
      hide RowsOk;
      if Consistent(View()) { UntrackKeeps(View(), ref); }
      for k := 0 to |rows|
        invariant rows == old(rows)
        invariant forall j :: 0 <= j < k ==> rows[j].ref != ref
      {
        if rows[k].ref == ref {
          rows := rows[..k] + rows[k + 1..];
          return;
        }
      }
    }

    /** Drops an emptied level: occupancy, total and FIFO go, and the best index moves to the next best. */
    method ClearLevel(lv: Level)
      requires lv in levels
      requires SideOk(Buy, bids, bestBid, levels) && SideOk(Sell, asks, bestAsk, levels)
      modifies `bids, `asks, `bestBid, `bestAsk, `qty, `levels
      ensures levels == old(levels) - {lv} && qty == old(qty) - {lv}
      ensures SideOk(Buy, bids, bestBid, levels) && SideOk(Sell, asks, bestAsk, levels)
    {
      if lv.side == Buy { bids := bids - {lv.tick}; } else { asks := asks - {lv.tick}; }
      qty := qty - {lv};
      levels := levels - {lv};
      if lv.side == Buy && lv.tick == bestBid {
        if bids == {} { bestBid := NONE; } else { bestBid := MaxOf(bids); }
      } else if lv.side == Sell && lv.tick == bestAsk {
        if asks == {} { bestAsk := NONE; } else { bestAsk := MinOf(asks); }
      }
    }

    method Unlink(node: Node)
      requires node.level in levels && NodeIndex(levels[node.level], node) < |levels[node.level]|
      modifies `levels, `rows, `orders, `restingOrders
      ensures levels == old(levels)[node.level := Without(old(levels)[node.level], NodeIndex(old(levels)[node.level], node))]
      ensures rows == DropRow(old(rows), node.ref)
      ensures orders == old(orders) - {node.ref}
      ensures restingOrders == old(restingOrders) - 1
    {
      levels := levels[node.level := Without(levels[node.level], NodeIndex(levels[node.level], node))];
      Untrack(node.ref);
      orders := orders - {node.ref};
      restingOrders := restingOrders - 1;
    }

    /** Unlinks a node whose quantity has already left its level's total. */
    method RemoveNode(node: Node, ghost i: nat, ghost before: map<Level, int>)
      requires Ordered(list) && AllPositive(list) && Indexed(orders, restingOrders, levels, before, list)
      requires SideOk(Buy, bids, bestBid, levels) && SideOk(Sell, asks, bestAsk, levels)
      requires i < |list| && node.ref in orders && orders[node.ref] == node
      requires list[i].ref == node.ref && list[i].level == node.level
      requires node.level in before && qty == before[node.level := before[node.level] - list[i].qty]
      modifies `levels, `rows, `orders, `restingOrders, `bids, `asks, `bestBid, `bestAsk, `qty
      ensures Indexed(orders, restingOrders, levels, qty, Without(list, i))
      ensures SideOk(Buy, bids, bestBid, levels) && SideOk(Sell, asks, bestAsk, levels)
      ensures orders == old(orders) - {node.ref}
      ensures rows == DropRow(old(rows), node.ref)
    {
      hide Indexed;
      hide SideOk;
      hide Ordered;
      hide AllPositive;
      hide Listable;
      RemoveIndexed(orders, restingOrders, levels, before, list, i);
      var p := NodeIndex(levels[node.level], node);
      var level := Without(levels[node.level], p);
      SideKept(Buy, bids, bestBid, levels, node.level, level);
      SideKept(Sell, asks, bestAsk, levels, node.level, level);
      assert levels[node.level := level] - {node.level} == levels - {node.level};
      assert qty - {node.level} == before - {node.level};
      Unlink(node);
      if qty[node.level] == 0 {
        ClearLevel(node.level);
      }
    }

    ghost function Held(): (h: map<int, int>)
      requires Valid()
      reads `orders, `restingOrders, `levels, `qty, `bids, `asks, `bestBid, `bestAsk
      reads `list, `nextArrival, `rows, orders.Values
      ensures forall i :: 0 <= i < |list| ==> list[i].ref in h && h[list[i].ref] == list[i].qty
      ensures forall r :: r in orders ==> r in h && h[r] == orders[r].qty
    {
      map r | r in orders :: orders[r].qty
    }

    /** `before` holds the quantities inside the nodes before the cut. */
    ghost predicate CutFrom(before: map<int, int>, ref: int, cut: int)
      reads `orders, orders.Values
    {
      forall r :: r in orders ==> r in before && orders[r].qty == before[r] - (if r == ref then cut else 0)
    }

    /** Credits the tracker and takes the cut off the node and off its level's total. */
    method CutNode(node: Node, cut: int, byArrival: bool, ghost o: Order)
      requires o.ref == node.ref && o.level == node.level && o.arrival == node.arrival
      requires node.level in qty
      modifies `rows, `qty, node
      ensures rows == CreditAhead(old(rows), o, cut, byArrival)
      ensures node.qty == old(node.qty) - cut
      ensures qty == old(qty)[node.level := old(qty)[node.level] - cut]
    {
      CreditRows(node, cut, byArrival, o);
      node.qty := node.qty - cut;
      qty := qty[node.level := qty[node.level] - cut];
    }

    /** Takes `cut` shares off a node; an emptied node leaves the book. */
    method ReduceNode(node: Node, cut: int, byArrival: bool, ghost i: nat)
      requires Valid() && node.ref in orders && orders[node.ref] == node
      requires i == IndexOf(list, node.ref) && cut <= node.qty
      modifies this, node
      ensures Valid()
      ensures i < |old(list)| && View() == Reduce(old(View()), i, cut, byArrival)
      ensures counts == old(counts) && lastTrade == old(lastTrade)
      ensures orders.Values <= old(orders.Values)
    {
      hide Indexed;
      hide SideOk;
      hide RowsOk;
      hide Ordered;
      hide AllPositive;
      hide Listable;
      hide RefsOk;
      hide CreditAhead;
      hide DropRow;
      hide IndexOf;
      Lookup(node.ref);
      RefsOfIndexed(orders, restingOrders, levels, qty, list);
      ReduceConsistent(View(), i, cut, byArrival);
      ghost var held := Held();
      NodeRefs(orders, list);
      SettleCut(node, cut, byArrival, i);
      assert CutFrom(held, node.ref, cut);
      QtysShrunk(orders, held, list, i, cut);
      list := Shrunk(list, i, cut);
    }

    /** The cut node's level, and its tracker row when it empties. */
    method SettleCut(node: Node, cut: int, byArrival: bool, ghost i: nat)
      requires Ordered(list) && AllPositive(list) && Indexed(orders, restingOrders, levels, qty, list)
      requires SideOk(Buy, bids, bestBid, levels) && SideOk(Sell, asks, bestAsk, levels)
      requires node.ref in orders && orders[node.ref] == node && i < |list| && node.level in qty
      requires list[i] == Order(node.ref, node.level, node.qty, node.arrival)
      modifies `levels, `rows, `orders, `restingOrders, `bids, `asks, `bestBid, `bestAsk, `qty, node
      ensures Indexed(orders, restingOrders, levels, qty, Shrunk(list, i, cut))
      ensures SideOk(Buy, bids, bestBid, levels) && SideOk(Sell, asks, bestAsk, levels)
      ensures var credited := CreditAhead(old(rows), list[i], cut, byArrival);
              rows == if list[i].qty == cut then DropRow(credited, list[i].ref) else credited
      ensures orders == if list[i].qty == cut then old(orders) - {list[i].ref} else old(orders)
      ensures node.qty == old(node.qty) - cut
    {
      hide Indexed;
      hide SideOk;
      hide Ordered;
      hide AllPositive;
      hide CreditAhead;
      hide DropRow;
      ghost var before := qty;
      CutNode(node, cut, byArrival, list[i]);
      if node.qty == 0 {
        RemoveNode(node, i, before);
      } else {
        TrimIndexed(orders, restingOrders, levels, before, list, i, cut);
      }
    }

    /** Shared by executions and cancels: clamps to the resting quantity. */
    method ReduceOrder(ref: int, shares: int, byArrival: bool) returns (found: bool)
      requires Valid()
      modifies this, orders.Values
      ensures Valid()
      ensures found == Live(old(list), ref)
      ensures !found ==> View() == old(View())
      ensures found ==> var i := IndexOf(old(list), ref);
                        View() == Reduce(old(View()), i, Min(shares, old(list)[i].qty), byArrival)
      ensures counts == old(counts) && lastTrade == old(lastTrade)
      ensures orders.Values <= old(orders.Values)
    {
      hide Valid;
      Lookup(ref);
      if ref !in orders { return false; }
      var node := orders[ref];
      ReduceNode(node, Min(shares, node.qty), byArrival, IndexOf(list, ref));
      return true;
    }

    /** Shared by delete and replace: the node leaves with its quantity as it stands. */
    method RemoveWhole(node: Node, ghost i: nat)
      requires Valid() && node.ref in orders && orders[node.ref] == node
      requires i == IndexOf(list, node.ref)
      modifies this
      ensures Valid()
      ensures i < |old(list)| && View() == Reduce(old(View()), i, old(list)[i].qty, true)
      ensures counts == old(counts) && lastTrade == old(lastTrade)
      ensures orders.Values <= old(orders.Values)
    {
      hide Indexed;
      hide SideOk;
      hide RowsOk;
      hide Ordered;
      hide AllPositive;
      hide Listable;
      hide RefsOk;
      hide CreditAhead;
      hide DropRow;
      hide IndexOf;
      Lookup(node.ref);
      RefsOfIndexed(orders, restingOrders, levels, qty, list);
      NodeRefs(orders, list);
      ReduceConsistent(View(), i, list[i].qty, true);
      ghost var before, held := qty, Held();
      CreditRows(node, node.qty, true, list[i]);
      qty := qty[node.level := qty[node.level] - node.qty];
      RemoveNode(node, i, before);
      QtysShrunk(old(orders), held, list, i, list[i].qty);
      list := Without(list, i);
    }

    // ----- feed events ----------------------------------------------------

    method OnExecute(ref: int, shares: int)
      requires Valid()
      modifies this, orders.Values
      ensures Valid()
      ensures View() == Step(old(View()), Execute(ref, shares))
      ensures TookOff(old(View()), View(), ref, shares)
      ensures forall r :: OpenOf(list, r) ==
                if r == ref && old(OpenOf(list, ref)) > 0 then Max(0, old(OpenOf(list, ref)) - shares) else old(OpenOf(list, r))
      ensures counts == Tally(old(View()), old(counts), Execute(ref, shares))
      ensures lastTrade == old(lastTrade)
      ensures orders.Values <= old(orders.Values)
    {
      hide Valid;
      hide Reduce;
      hide OpenOf;
      hide TookOff;
      ghost var b := View();
      IsConsistent();
      ExecuteLaw(b, ref, shares);
      TakenOpens(b, Step(b, Execute(ref, shares)), ref, shares);
      var found := ReduceOrder(ref, shares, false);
      if found {
        counts := counts.(executeCount := counts.executeCount + 1);
      } else {
        counts := counts.(unknownRefCount := counts.unknownRefCount + 1);
      }
    }

    method OnCancel(ref: int, shares: int)
      requires Valid()
      modifies this, orders.Values
      ensures Valid()
      ensures View() == Step(old(View()), Cancel(ref, shares))
      ensures TookOff(old(View()), View(), ref, shares)
      ensures forall r :: OpenOf(list, r) ==
                if r == ref && old(OpenOf(list, ref)) > 0 then Max(0, old(OpenOf(list, ref)) - shares) else old(OpenOf(list, r))
      ensures counts == Tally(old(View()), old(counts), Cancel(ref, shares))
      ensures lastTrade == old(lastTrade)
      ensures orders.Values <= old(orders.Values)
    {
      hide Valid;
      hide Reduce;
      hide OpenOf;
      hide TookOff;
      ghost var b := View();
      IsConsistent();
      CancelLaw(b, ref, shares);
      TakenOpens(b, Step(b, Cancel(ref, shares)), ref, shares);
      var found := ReduceOrder(ref, shares, true);
      if found {
        counts := counts.(cancelCount := counts.cancelCount + 1);
      } else {
        counts := counts.(unknownRefCount := counts.unknownRefCount + 1);
      }
    }

    method OnDelete(ref: int)
      requires Valid()
      modifies this
      ensures Valid()
      ensures View() == Step(old(View()), Delete(ref))
      ensures forall r :: OpenOf(list, r) == if r == ref then 0 else old(OpenOf(list, r))
      ensures counts == Tally(old(View()), old(counts), Delete(ref))
      ensures lastTrade == old(lastTrade)
      ensures orders.Values <= old(orders.Values)
    {
      hide Valid;
      hide Reduce;
      hide OpenOf;
      ghost var b := View();
      IsConsistent();
      forall r ensures OpenOf(Step(b, Delete(ref)).orders, r) == if r == ref then 0 else OpenOf(b.orders, r) {
        DeletedOpen(b, ref, r);
      }
      Lookup(ref);
      if ref !in orders {
        counts := counts.(unknownRefCount := counts.unknownRefCount + 1);
        return;
      }
      counts := counts.(deleteCount := counts.deleteCount + 1);
      RemoveWhole(orders[ref], IndexOf(list, ref));
    }

    method OnReplace(origRef: int, newRef: int, shares: int, price: int)
      requires Valid()
      modifies this
      ensures Valid()
      ensures View() == Step(old(View()), Replace(origRef, newRef, shares, price))
      ensures forall r :: OpenOf(list, r) ==
                if old(OpenOf(list, origRef)) == 0 then old(OpenOf(list, r))
                else if r == newRef && Replaceable(old(View()), origRef, newRef, shares, price) then shares
                else if r == origRef then 0 else old(OpenOf(list, r))
      ensures counts == Tally(old(View()), old(counts), Replace(origRef, newRef, shares, price))
      ensures lastTrade == old(lastTrade)
      ensures forall n :: n in orders.Values ==> n in old(orders.Values) || fresh(n)
    {
      hide Valid;
      hide Reduce;
      hide Insert;
      hide InsertTally;
      hide OpenOf;
      ghost var b := View();
      IsConsistent();
      forall r ensures OpenOf(Step(b, Replace(origRef, newRef, shares, price)).orders, r)
                    == if OpenOf(b.orders, origRef) == 0 then OpenOf(b.orders, r)
                       else if r == newRef && Replaceable(b, origRef, newRef, shares, price) then shares
                       else if r == origRef then 0 else OpenOf(b.orders, r)
      {
        ReplacedOpen(b, origRef, newRef, shares, price, r);
      }
      hide Replaceable;
      Lookup(origRef);
      if origRef !in orders {
        counts := counts.(unknownRefCount := counts.unknownRefCount + 1);
        return;
      }
      var node := orders[origRef];
      counts := counts.(replaceCount := counts.replaceCount + 1);
      RemoveWhole(node, IndexOf(list, origRef));
      var _ := InsertOrder(newRef, node.level.side, shares, price);
    }

    method OnTrade(price: int)
      requires Valid()
      modifies this
      ensures Valid()
      ensures View() == Step(old(View()), Trade(price))
      ensures counts == Tally(old(View()), old(counts), Trade(price))
      ensures lastTrade == price && orders == old(orders)
    {
      hide Valid;
      counts := counts.(tradeCount := counts.tradeCount + 1);
      lastTrade := price;
    }

    // ----- the wire -------------------------------------------------------

    /** The direct call for an event has been made. */
    ghost predicate Did(before: Book, tallied: Counts, last: int, e: Event)
      reads this
    {
      && View() == Step(before, e) && counts == Tally(before, tallied, e)
      && lastTrade == if e.Trade? then e.price else last
    }

    /**
     Applies one wire message.  Another locate or an unsupported type is left alone;
     anything else is the direct call, and its wire length is consumed.
     */
    method OnMessage(buf: BigEndian.Bytes, offset: nat) returns (consumed: int)
      requires Valid() && offset < |buf|
      requires Itch.Length(buf[offset]) > 0 ==> offset + Itch.Length(buf[offset]) <= |buf|
      modifies this, orders.Values, view
      ensures Valid() && view.buf == buf && view.off == offset
      ensures !view.Readable() || view.StockLocate() != stockLocate ==>
                consumed == 0 && View() == old(View()) && counts == old(counts) && lastTrade == old(lastTrade)
      ensures view.Readable() && view.StockLocate() == stockLocate ==>
                consumed == Itch.Length(buf[offset]) && Did(old(View()), old(counts), old(lastTrade), EventOf(view))
      ensures forall n :: n in orders.Values ==> n in old(orders.Values) || fresh(n)
    {
      hide Valid;
      hide Step;
      hide Tally;
      view.Wrap(buf, offset);
      var t := view.Type();
      var n := Itch.Length(t);
      if n < 0 || view.StockLocate() != stockLocate { return 0; }
      if t == Itch.ADD || t == Itch.ADD_MPID {
        var _ := OnAdd(view.OrderRef(), if view.SideByte() == Itch.BUY then Buy else Sell, view.Shares(), view.PriceTick());
      } else if t == Itch.EXECUTED {
        OnExecute(view.OrderRef(), view.DeltaShares());
      } else if t == Itch.CANCEL {
        OnCancel(view.OrderRef(), view.DeltaShares());
      } else if t == Itch.DELETE {
        OnDelete(view.OrderRef());
      } else if t == Itch.REPLACE {
        OnReplace(view.OrigRef(), view.NewRef(), view.Shares(), view.PriceTick());
      } else {
        OnTrade(view.PriceTick());
      }
      return n;
    }

    // ----- own-order tracking ----------------------------------------------

    lemma Parts()
      requires Valid()
      ensures RefsOk(orders, list) && LevelsOk(levels, orders, list) && Ordered(list)
    {
    }

    /** The nodes standing before an order in its FIFO add up to what is queued before it. */
    lemma {:induction false} FifoWalk(i: nat) returns (p: nat)
      requires Valid() && i < |list|
      ensures var o, refs := list[i], Fifo(list, list[i].level);
              && o.level in levels && o.ref in orders
              && FifoOk(levels[o.level], orders, refs)
              && p == NodeIndex(levels[o.level], orders[o.ref]) < |refs|
              && (forall k :: 0 <= k < |refs| ==> refs[k] in Held())
              && QtyOfRefs(Held(), refs[..p]) == QueuedBefore(list, i)
    {
      hide Valid;
      hide RefsOk;
      hide LevelsOk;
      hide Ordered;
      hide FifoOk;
      hide Fifo;
      hide QtyOfRefs;
      hide LevelQty;
      hide NodeIndex;
      var o, refs := list[i], Fifo(list, list[i].level);
      Parts();
      NodePosition(orders, levels, list, i);
      LevelFifo(orders, levels, list, o.level);
      FifoAround(list, i);
      FifoTotal(Held(), list, o.level);
      FifoTotal(Held(), list[..i], o.level);
      p := NodeIndex(levels[o.level], orders[o.ref]);
      assert refs[..p] == Fifo(list[..i], o.level);
    }

    /** One walk of the FIFO: everything queued before the node. */
    method WalkAhead(node: Node, ghost i: nat) returns (ahead: int)
      requires Valid() && node.ref in orders && orders[node.ref] == node
      requires i == IndexOf(list, node.ref)
      ensures i < |list| && ahead == QueuedBefore(list, i)
    {
      hide Valid;
      Lookup(node.ref);
      ghost var p := FifoWalk(i);
      var level := levels[node.level];
      ghost var refs, held := Fifo(list, node.level), Held();
      ahead := 0;
      var k := 0;
      while level[k] != node
        invariant 0 <= k <= p
        invariant ahead == QtyOfRefs(held, refs[..k])
        decreases p - k
      {
        assert level[k] == orders[refs[k]];
        assert refs[..k + 1][..k] == refs[..k];
        ahead := ahead + level[k].qty;
        k := k + 1;
      }
      assert k == p;
    }

    /** The scan of the tracking table. */
    method HasRow(ref: int) returns (found: bool)
      ensures found == Tracked(rows, ref)
    {
      TrackedIn(rows, ref);
      for k := 0 to |rows|
        invariant forall j :: 0 <= j < k ==> rows[j].ref != ref
      {
        if rows[k].ref == ref { return true; }
      }
      return false;
    }

    /** Starts tracking a resting order; tracking it again changes nothing. */
    method OnTrack(ref: int) returns (tracked: bool)
      requires Valid()
      modifies `rows
      ensures Valid()
      ensures View() == Step(old(View()), Track(ref))
      ensures tracked <==> Tracked(rows, ref)
      ensures tracked <==> Tracked(old(rows), ref) || (OpenOf(list, ref) > 0 && |old(rows)| < MAX_TRACKED)
    {
      hide Tracked;
      hide OpenOf;
      hide Step;
      hide Valid;
      ghost var b := View();
      IsConsistent();
      TrackStep(b, ref);
      TrackLaw(b, ref);
      OpenNonNegative(b, ref);
      hide Consistent;
      var known := HasRow(ref);
      if known { return true; }
      Lookup(ref);
      if ref !in orders || |rows| == MAX_TRACKED { return false; }
      AddRow(orders[ref], IndexOf(list, ref));
      return true;
    }

    /** A row that starts with the walk of the queue. */
    method AddRow(node: Node, ghost i: nat)
      requires Valid() && node.ref in orders && orders[node.ref] == node && !Tracked(rows, node.ref) && |rows| < MAX_TRACKED
      requires i == IndexOf(list, node.ref)
      modifies `rows
      ensures Valid() && i < |list|
      ensures rows == old(rows) + [Row(node.ref, list[i].level, list[i].arrival, QueuedBefore(list, i))]
    {
      hide Indexed;
      hide SideOk;
      hide OrdersOk;
      hide RowsOk;
      hide Step;
      ghost var b := View();
      Lookup(node.ref);
      TrackKeeps(b, node.ref);
      TrackStep(b, node.ref);
      OpenNonNegative(b, node.ref);
      hide OpenOf;
      hide Tracked;
      var ahead := WalkAhead(node, i);
      rows := rows + [Row(node.ref, node.level, node.arrival, ahead)];
      assert View() == Step(b, Track(node.ref));
    }

    /** Shares queued ahead of a tracked order, or -1. */
    method SharesAhead(ref: int) returns (ahead: int)
      requires Valid()
      ensures RowIndex(rows, ref) == |rows| ==> ahead == -1
      ensures RowIndex(rows, ref) < |rows| && Exact(View()) ==> ahead == TrueAhead(list, ref)
      ensures RowIndex(rows, ref) < |rows| && Bounded(View()) ==> 0 <= ahead <= TrueAhead(list, ref)
    {
      hide Valid;
      for k := 0 to |rows|
        invariant forall j :: 0 <= j < k ==> rows[j].ref != ref
      {
        if rows[k].ref == ref {
          assert RowIndex(rows, ref) == k;
          return rows[k].ahead;
        }
      }
      return -1;
    }

    // ----- queries ----------------------------------------------------------

    lemma {:induction false} SideOf(side: Side)
      requires Valid()
      ensures SideOk(side, if side == Buy then bids else asks, if side == Buy then bestBid else bestAsk, levels)
      ensures qty.Keys == levels.Keys
    {
    }

    lemma TotalOf(side: Side)
      requires Valid()
      ensures forall t :: Level(side, t) in qty ==> qty[Level(side, t)] == LevelQty(list, Level(side, t))
    {
    }

    /** A level has quantity exactly when its tick is marked occupied. */
    lemma {:induction false} OccupiedLevel(side: Side, tick: int)
      requires Valid()
      ensures LevelQty(list, Level(side, tick)) >= 0
      ensures tick in (if side == Buy then bids else asks) <==> LevelQty(list, Level(side, tick)) > 0
      ensures Level(side, tick) in qty <==> LevelQty(list, Level(side, tick)) > 0
      ensures LevelQty(list, Level(side, tick)) > 0 ==> 0 <= tick < cfg.ladder
    {
      EmptyFifo(list, Level(side, tick));
      QtyNonNegative(list, Level(side, tick));
    }

    method QtyAtTick(side: Side, price: int) returns (r: int)
      requires Valid()
      ensures r == LevelQty(list, Level(side, price - cfg.minTick))
    {
      var idx := price - cfg.minTick;
      OccupiedLevel(side, idx);
      if idx < 0 || idx >= cfg.ladder { return 0; }
      var lv := Level(side, idx);
      r := if lv in qty then qty[lv] else 0;
    }

    method OpenQuantity(ref: int) returns (r: int)
      requires Valid()
      ensures r == OpenOf(list, ref)
    {
      Lookup(ref);
      r := if ref in orders then orders[ref].qty else 0;
    }

    method BestBid() returns (tick: int, size: int)
      requires Valid()
      ensures (forall t :: LevelQty(list, Level(Buy, t)) <= 0) ==> tick == INT_MIN && size == 0
      ensures (exists t :: LevelQty(list, Level(Buy, t)) > 0) ==>
                var best := tick - cfg.minTick;
                && size == LevelQty(list, Level(Buy, best)) > 0
                && forall t :: LevelQty(list, Level(Buy, t)) > 0 ==> t <= best
    {
      forall t
        ensures t in bids <==> LevelQty(list, Level(Buy, t)) > 0
      {
        OccupiedLevel(Buy, t);
      }
      if bestBid == NONE { return INT_MIN, 0; }
      var lv := Level(Buy, bestBid);
      return bestBid + cfg.minTick, if lv in qty then qty[lv] else 0;
    }

    method BestAsk() returns (tick: int, size: int)
      requires Valid()
      ensures (forall t :: LevelQty(list, Level(Sell, t)) <= 0) ==> tick == INT_MAX && size == 0
      ensures (exists t :: LevelQty(list, Level(Sell, t)) > 0) ==>
                var best := tick - cfg.minTick;
                && size == LevelQty(list, Level(Sell, best)) > 0
                && forall t :: LevelQty(list, Level(Sell, t)) > 0 ==> t >= best
    {
      forall t
        ensures t in asks <==> LevelQty(list, Level(Sell, t)) > 0
      {
        OccupiedLevel(Sell, t);
      }
      if bestAsk == NONE { return INT_MAX, 0; }
      var lv := Level(Sell, bestAsk);
      return bestAsk + cfg.minTick, if lv in qty then qty[lv] else 0;
    }

    /** The occupied ticks of one side, best first, at most `maxLevels` of them. */
    method BidTicks(maxLevels: int) returns (ticks: seq<int>)
      requires SideOk(Buy, bids, bestBid, levels)
      ensures maxLevels >= 0 ==> |ticks| <= maxLevels
      ensures forall k :: 0 <= k < |ticks| ==> ticks[k] in bids
      ensures forall j, k :: 0 <= j < k < |ticks| ==> ticks[j] > ticks[k]
      ensures forall t :: t in bids ==>
                t in ticks || (|ticks| >= maxLevels && forall k :: 0 <= k < |ticks| ==> ticks[k] > t)
    {
      ticks := [];
      var idx := bestBid;
      while idx != NONE && |ticks| < maxLevels
        invariant maxLevels >= 0 ==> |ticks| <= maxLevels
        invariant forall k :: 0 <= k < |ticks| ==> ticks[k] in bids && (idx != NONE ==> ticks[k] > idx)
        invariant forall j, k :: 0 <= j < k < |ticks| ==> ticks[j] > ticks[k]
        invariant idx != NONE ==> idx in bids
        invariant forall t :: t in bids ==> t in ticks || (idx != NONE && !(t > idx))
        decreases maxLevels - |ticks|
      {
        ghost var before := ticks;
        ticks := ticks + [idx];
        assert forall t :: t in before || t == idx ==> t in ticks;
        idx := NextAtOrBelow(bids, idx - 1);
      }
    }

    /** The occupied ticks of one side, best first, at most `maxLevels` of them. */
    method AskTicks(maxLevels: int) returns (ticks: seq<int>)
      requires SideOk(Sell, asks, bestAsk, levels)
      ensures maxLevels >= 0 ==> |ticks| <= maxLevels
      ensures forall k :: 0 <= k < |ticks| ==> ticks[k] in asks
      ensures forall j, k :: 0 <= j < k < |ticks| ==> ticks[j] < ticks[k]
      ensures forall t :: t in asks ==>
                t in ticks || (|ticks| >= maxLevels && forall k :: 0 <= k < |ticks| ==> ticks[k] < t)
    {
      ticks := [];
      var idx := bestAsk;
      while idx != NONE && |ticks| < maxLevels
        invariant maxLevels >= 0 ==> |ticks| <= maxLevels
        invariant forall k :: 0 <= k < |ticks| ==> ticks[k] in asks && (idx != NONE ==> ticks[k] < idx)
        invariant forall j, k :: 0 <= j < k < |ticks| ==> ticks[j] < ticks[k]
        invariant idx != NONE ==> idx in asks
        invariant forall t :: t in asks ==> t in ticks || (idx != NONE && !(t < idx))
        decreases maxLevels - |ticks|
      {
        ghost var before := ticks;
        ticks := ticks + [idx];
        assert forall t :: t in before || t == idx ==> t in ticks;
        idx := NextAtOrAbove(asks, idx + 1);
      }
    }

    /**
     Depth, best first: `ticks` lists ladder indices in strict order, holds every level with
     quantity unless it was cut off at `maxLevels`, and `r` pairs each price with its total.
     */
    method Snapshot(side: Side, maxLevels: int) returns (r: seq<(int, int)>, ghost ticks: seq<int>)
      requires Valid()
      ensures |r| == |ticks| && (maxLevels >= 0 ==> |r| <= maxLevels)
      ensures forall k :: 0 <= k < |r| ==> r[k] == (ticks[k] + cfg.minTick, LevelQty(list, Level(side, ticks[k])))
      ensures forall k :: 0 <= k < |r| ==> r[k].1 > 0
      ensures forall j, k :: 0 <= j < k < |ticks| ==> Better(side, ticks[j], ticks[k])
      ensures forall t :: LevelQty(list, Level(side, t)) > 0 ==>
                t in ticks || (|ticks| >= maxLevels && forall k :: 0 <= k < |ticks| ==> Better(side, ticks[k], t))
    {
      hide Valid;
      SideOf(side);
      var found;
      if side == Buy {
        found := BidTicks(maxLevels);
      } else {
        found := AskTicks(maxLevels);
      }
      hide SideOk;
      TotalOf(side);
      forall t
        ensures t in (if side == Buy then bids else asks) <==> LevelQty(list, Level(side, t)) > 0
        ensures Level(side, t) in qty <==> LevelQty(list, Level(side, t)) > 0
      {
        OccupiedLevel(side, t);
      }
      r := [];
      for k := 0 to |found|
        invariant |r| == k
        invariant forall j :: 0 <= j < k ==> r[j] == (found[j] + cfg.minTick, LevelQty(list, Level(side, found[j])))
      {
        r := r + [(found[k] + cfg.minTick, qty[Level(side, found[k])])];
      }
      ticks := found;
    }
  }
}
