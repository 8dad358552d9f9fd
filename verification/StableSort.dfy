/**
 The stable ascending order of the indices of a key sequence: what Python's `sorted` with a
 key and numpy's stable `argsort` return.
 */
module StableSort {
  /** `i` comes before `j`: by key, ties by index. */
  predicate Precedes(key: seq<real>, i: nat, j: nat)
    requires i < |key| && j < |key|
  {
    key[i] < key[j] || (key[i] == key[j] && i < j)
  }

  /** Strictly increasing in (key, index), hence sorted, stable and free of repeats. */
  ghost predicate Increasing(key: seq<real>, order: seq<nat>) {
    && (forall p :: 0 <= p < |order| ==> order[p] < |key|)
    && (forall p, q :: 0 <= p < q < |order| ==> Precedes(key, order[p], order[q]))
  }

  function Insert(key: seq<real>, order: seq<nat>, i: nat): (r: seq<nat>)
    requires i < |key| && forall p :: 0 <= p < |order| ==> order[p] < |key|
    ensures |r| == |order| + 1 && forall k :: k in r <==> k == i || k in order
  {
    if order == [] then [i]
    else
      var last := order[|order| - 1];
      assert order == order[..|order| - 1] + [last];
      if key[last] <= key[i] then order + [i] else Insert(key, order[..|order| - 1], i) + [last]
  }

  lemma {:induction false} InsertIncreasing(key: seq<real>, order: seq<nat>, i: nat)
    requires i < |key| && Increasing(key, order) && forall p :: 0 <= p < |order| ==> order[p] < i
    ensures Increasing(key, Insert(key, order, i))
  {
    if order != [] {
      var last := order[|order| - 1];
      if key[last] > key[i] {
        var rest := order[..|order| - 1];
        InsertIncreasing(key, rest, i);
        var r := Insert(key, rest, i);
        forall p | 0 <= p < |r| ensures Precedes(key, r[p], last) {
          assert r[p] in r;
          if r[p] != i { assert r[p] in rest; }
        }
      } else {
        forall p | 0 <= p < |order| ensures Precedes(key, order[p], i) {
          assert p == |order| - 1 || Precedes(key, order[p], last);
        }
      }
    }
  }

  function Order(key: seq<real>, n: nat): (r: seq<nat>)
    requires n <= |key|
    ensures |r| == n && forall k :: k in r <==> 0 <= k < n
  {
    if n == 0 then []
    else
      var rest := Order(key, n - 1);
      assert forall p :: 0 <= p < |rest| ==> rest[p] in rest;
      Insert(key, rest, n - 1)
  }

  lemma {:induction false} OrderIncreasing(key: seq<real>, n: nat)
    requires n <= |key|
    ensures Increasing(key, Order(key, n))
  {
    if n != 0 {
      OrderIncreasing(key, n - 1);
      hide Insert;
      hide Increasing;
      var rest := Order(key, n - 1);
      assert forall p :: 0 <= p < |rest| ==> rest[p] in rest;
      InsertIncreasing(key, rest, n - 1);
    }
  }
}
