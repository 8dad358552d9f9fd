/**
 Largest-remainder allocation and the two schedulers built on it.  Slices are the floor or the
 ceiling of their exact share, they add up to the parent exactly, and the odd units go to the
 largest fractional parts.
 */
module ProportionalAllocation {
  import opened Outcomes
  import opened RealAlgebra
  import opened RealSums
  import opened StableSort
  import opened IntegerSums

  /** The exact share of a weight. */
  function Quota(total: int, weight: real, totalWeight: real): real
    requires totalWeight != 0.0
  {
    total as real * weight / totalWeight
  }

  function Fraction(q: real): (f: real)
    ensures 0.0 <= f < 1.0 && q == q.Floor as real + f
  {
    q - q.Floor as real
  }

  function Quotas(total: int, w: seq<real>, totalWeight: real): (q: seq<real>)
    requires totalWeight != 0.0
    ensures |q| == |w| && forall i :: 0 <= i < |w| ==> q[i] == Quota(total, w[i], totalWeight)
  {
    seq(|w|, i requires 0 <= i < |w| => Quota(total, w[i], totalWeight))
  }

  /** Ascending in this key is descending in the fractional part. */
  function Keys(q: seq<real>): (k: seq<real>)
    ensures |k| == |q| && forall i :: 0 <= i < |q| ==> k[i] == -Fraction(q[i])
  {
    seq(|q|, i requires 0 <= i < |q| => -Fraction(q[i]))
  }

  /** What allocation promises: exact total, floor or ceiling of each share, largest fractions first. */
  ghost predicate Apportioned(total: int, q: seq<real>, out: seq<int>) {
    |out| == |q| && Sum(out, |out|) == total && Rounded(q, out) && LargestFirst(q, out)
  }

  ghost predicate Rounded(q: seq<real>, out: seq<int>)
    requires |out| == |q|
  {
    forall i :: 0 <= i < |q| ==> out[i] == q[i].Floor || (out[i] == q[i].Floor + 1 && Fraction(q[i]) > 0.0)
  }

  ghost predicate LargestFirst(q: seq<real>, out: seq<int>)
    requires |out| == |q|
  {
    forall i, j :: 0 <= i < |q| && 0 <= j < |q| && out[i] > q[i].Floor && out[j] == q[j].Floor ==> Precedes(Keys(q), i, j)
  }

  // ----- sums -----------------------------------------------------------------

  lemma Share(total: int, a: real, b: real, t: real)
    requires t != 0.0
    ensures Quota(total, a + b, t) == Quota(total, a, t) + Quota(total, b, t)
  {
    assert total as real * (a + b) == total as real * a + total as real * b;
    DivAdd(total as real * a, total as real * b, t);
  }

  lemma WholeShare(total: int, t: real)
    requires t != 0.0
    ensures Quota(total, t, t) == total as real && Quota(total, 0.0, t) == 0.0
  {
    assert total as real * t / t == total as real * (t / t);
  }

  lemma {:induction false} QuotasAddUp(total: int, w: seq<real>, t: real, n: nat)
    requires n <= |w| && t != 0.0
    ensures Total(Quotas(total, w, t), n) == Quota(total, Total(w, n), t)
  {
    hide Quota;
    if n == 0 {
      WholeShare(total, t);
    } else {
      QuotasAddUp(total, w, t, n - 1);
      Share(total, Total(w, n - 1), w[n - 1], t);
    }
  }

  function Floors(q: seq<real>): (f: seq<int>)
    ensures |f| == |q| && forall i :: 0 <= i < |q| ==> f[i] == q[i].Floor
  {
    seq(|q|, i requires 0 <= i < |q| => q[i].Floor)
  }

  /** Sum of the fractional parts at some indices. */
  function FractionsAt(q: seq<real>, at: seq<nat>): (s: real)
    requires forall p :: 0 <= p < |at| ==> at[p] < |q|
    ensures s >= 0.0 && (at != [] ==> s < |at| as real)
  {
    if at == [] then 0.0 else FractionsAt(q, at[..|at| - 1]) + Fraction(q[at[|at| - 1]])
  }

  lemma {:induction false} InsertFractions(q: seq<real>, key: seq<real>, order: seq<nat>, i: nat)
    requires i < |q| == |key| && forall p :: 0 <= p < |order| ==> order[p] < |q|
    ensures forall p :: 0 <= p < |order| + 1 ==> Insert(key, order, i)[p] < |q|
    ensures FractionsAt(q, Insert(key, order, i)) == FractionsAt(q, order) + Fraction(q[i])
  {
    var r := Insert(key, order, i);
    forall p | 0 <= p < |r| ensures r[p] < |q| { assert r[p] in r; }
    if order != [] {
      var last, rest := order[|order| - 1], order[..|order| - 1];
      if key[last] <= key[i] {
        assert r[..|r| - 1] == order;
      } else {
        InsertFractions(q, key, rest, i);
        assert r[..|r| - 1] == Insert(key, rest, i);
      }
    }
  }

  /** In any order, the fractions add up to what the floors leave over. */
  lemma {:induction false} FractionsLeft(q: seq<real>, key: seq<real>, n: nat)
    requires n <= |q| == |key|
    ensures forall p :: 0 <= p < n ==> Order(key, n)[p] < |q|
    ensures FractionsAt(q, Order(key, n)) == Total(q, n) - Sum(Floors(q), n) as real
  {
    forall p | 0 <= p < n ensures Order(key, n)[p] < |q| { assert Order(key, n)[p] in Order(key, n); }
    if n != 0 {
      FractionsLeft(q, key, n - 1);
      InsertFractions(q, key, Order(key, n - 1), n - 1);
    }
  }

  /** Fractions from position `k` on vanish when the one at `k` does: the order is descending. */
  lemma {:induction false} TailVanishes(q: seq<real>, order: seq<nat>, k: nat, m: nat)
    requires Increasing(Keys(q), order) && k <= m <= |order| && k < |order|
    requires Fraction(q[order[k]]) == 0.0
    ensures FractionsAt(q, order[..m]) == FractionsAt(q, order[..k])
  {
    if m > k {
      TailVanishes(q, order, k, m - 1);
      assert order[..m][..m - 1] == order[..m - 1];
      assert k == m - 1 || Precedes(Keys(q), order[k], order[m - 1]);
    }
  }

  /** The remainder is below the number of slices and only positive fractions are rounded up. */
  lemma {:induction false} RemainderFits(total: int, q: seq<real>, order: seq<nat>, remainder: int)
    requires order == Order(Keys(q), |q|) && |q| > 0 && Total(q, |q|) == total as real
    requires remainder == total - Sum(Floors(q), |q|)
    ensures Increasing(Keys(q), order) && 0 <= remainder < |q|
    ensures forall k :: 0 <= k < remainder ==> Fraction(q[order[k]]) > 0.0
  {
    OrderIncreasing(Keys(q), |q|);
    FractionsLeft(q, Keys(q), |q|);
    assert order[..|q|] == order;
    forall k | 0 <= k < remainder ensures Fraction(q[order[k]]) > 0.0 {
      if Fraction(q[order[k]]) == 0.0 {
        TailVanishes(q, order, k, |q|);
      }
    }
  }

  // ----- the allocation -------------------------------------------------------

  /** One of the first `k` indices of the order. */
  predicate Among(order: seq<nat>, k: nat, i: nat)
    requires k <= |order|
  {
    exists p :: 0 <= p < k && order[p] == i
  }

  /** Indices picked early precede the others. */
  lemma PickedFirst(key: seq<real>, order: seq<nat>, k: nat, i: nat, j: nat)
    requires Increasing(key, order) && k <= |order| && i < |key| && j < |key|
    requires Among(order, k, i) && j in order && !Among(order, k, j)
    ensures Precedes(key, i, j)
  {
    var a :| 0 <= a < k && order[a] == i;
    var b :| 0 <= b < |order| && order[b] == j;
    assert Precedes(key, order[a], order[b]);
  }

  /** Floors first, then one more unit to each of the first `k` indices of the order. */
  predicate Bumped(q: seq<real>, order: seq<nat>, k: nat, out: seq<int>)
    requires k <= |order|
  {
    && |out| == |q|
    && (forall i: nat :: i < |q| ==> out[i] == q[i].Floor + if Among(order, k, i) then 1 else 0)
  }

  lemma BumpStart(q: seq<real>, order: seq<nat>)
    ensures Bumped(q, order, 0, Floors(q))
  {
  }

  lemma BumpNext(q: seq<real>, order: seq<nat>, k: nat, out: seq<int>)
    requires Increasing(Keys(q), order) && k < |order| && Bumped(q, order, k, out)
    ensures var at := order[k];
            Bumped(q, order, k + 1, out[at := out[at] + 1]) && Sum(out[at := out[at] + 1], |q|) == Sum(out, |q|) + 1
  {
    var at := order[k];
    SumUpdate(out, at, out[at] + 1, |q|);
    forall p | 0 <= p < k ensures order[p] != at { assert Precedes(Keys(q), order[p], order[k]); }
  }

  lemma BumpedApportions(total: int, q: seq<real>, order: seq<nat>, k: nat, out: seq<int>)
    requires |order| == |q| && Increasing(Keys(q), order) && k <= |q|
    requires (forall p :: 0 <= p < |order| ==> order[p] < |q|) && forall j: nat :: j < |q| ==> j in order
    requires Bumped(q, order, k, out) && Sum(out, |q|) == total
    requires forall p :: 0 <= p < k ==> Fraction(q[order[p]]) > 0.0
    ensures Apportioned(total, q, out)
  {
    hide Increasing;
    hide Bumped;
    hide Fraction;
    hide Precedes;
    BumpedSize(q, order, k, out);
    BumpedRounded(q, order, k, out);
    BumpedLargestFirst(q, order, k, out);
  }

  lemma BumpedRounded(q: seq<real>, order: seq<nat>, k: nat, out: seq<int>)
    requires k <= |order| && Bumped(q, order, k, out) && |out| == |q| && forall p :: 0 <= p < |order| ==> order[p] < |q|
    requires forall p :: 0 <= p < k ==> Fraction(q[order[p]]) > 0.0
    ensures Rounded(q, out)
  {
    hide Bumped;
    hide Fraction;
    forall i | 0 <= i < |q| ensures out[i] == q[i].Floor || (out[i] == q[i].Floor + 1 && Fraction(q[i]) > 0.0) {
      FloorOrCeiling(q, order, k, out, i);
    }
  }

  lemma BumpedLargestFirst(q: seq<real>, order: seq<nat>, k: nat, out: seq<int>)
    requires |order| == |q| && Increasing(Keys(q), order) && k <= |q| && Bumped(q, order, k, out) && |out| == |q|
    requires (forall p :: 0 <= p < |order| ==> order[p] < |q|) && forall j: nat :: j < |q| ==> j in order
    ensures LargestFirst(q, out)
  {
    hide Bumped;
    hide Increasing;
    hide Precedes;
    forall i, j | 0 <= i < |q| && 0 <= j < |q| && out[i] > q[i].Floor && out[j] == q[j].Floor
      ensures Precedes(Keys(q), i, j)
    {
      var jj: nat := j;
      assert jj in order;
      Priority(q, order, k, out, i, j);
    }
  }

  lemma BumpedSize(q: seq<real>, order: seq<nat>, k: nat, out: seq<int>)
    requires k <= |order| && Bumped(q, order, k, out)
    ensures |out| == |q|
  {
  }

  lemma FloorOrCeiling(q: seq<real>, order: seq<nat>, k: nat, out: seq<int>, i: nat)
    requires k <= |order| && i < |q| && Bumped(q, order, k, out) && forall p :: 0 <= p < |order| ==> order[p] < |q|
    requires forall p :: 0 <= p < k ==> Fraction(q[order[p]]) > 0.0
    ensures |out| == |q| && (out[i] == q[i].Floor || (out[i] == q[i].Floor + 1 && Fraction(q[i]) > 0.0))
  {
    hide Among;
    hide Fraction;
    PickedPositive(q, order, k, i);
  }

  lemma Priority(q: seq<real>, order: seq<nat>, k: nat, out: seq<int>, i: nat, j: nat)
    requires |order| == |q| && Increasing(Keys(q), order) && k <= |q| && i < |q| && j < |q|
    requires (forall p :: 0 <= p < |order| ==> order[p] < |q|) && j in order
    requires Bumped(q, order, k, out) && |out| == |q| && out[i] > q[i].Floor && out[j] == q[j].Floor
    ensures Precedes(Keys(q), i, j)
  {
    hide Among;
    hide Increasing;
    hide Fraction;
    PickedFirst(Keys(q), order, k, i, j);
  }

  lemma PickedPositive(q: seq<real>, order: seq<nat>, k: nat, i: nat)
    requires k <= |order| && i < |q| && forall p :: 0 <= p < |order| ==> order[p] < |q|
    requires forall p :: 0 <= p < k ==> Fraction(q[order[p]]) > 0.0
    ensures Among(order, k, i) ==> Fraction(q[i]) > 0.0
  {
  }

  predicate Acceptable(w: seq<real>) {
    |w| > 0 && forall i :: 0 <= i < |w| ==> w[i] >= 0.0
  }

  method SumWeights(w: seq<real>) returns (r: Result<real, string>)
    ensures r.Ok? <==> forall i :: 0 <= i < |w| ==> w[i] >= 0.0
    ensures r.Ok? ==> r.value == Total(w, |w|)
  {
    var totalWeight := 0.0;
    for i := 0 to |w|
      invariant totalWeight == Total(w, i) && forall k :: 0 <= k < i ==> w[k] >= 0.0
    {
      if w[i] < 0.0 { return Err("negative weight"); }
      totalWeight := totalWeight + w[i];
    }
    return Ok(totalWeight);
  }

  method FloorShares(total: int, w: seq<real>, totalWeight: real)
    returns (out: seq<int>, fractions: seq<real>, floored: int)
    requires totalWeight != 0.0
    ensures var q := Quotas(total, w, totalWeight);
            && out == Floors(q) && floored == Sum(Floors(q), |w|)
            && |fractions| == |w| && forall k :: 0 <= k < |w| ==> fractions[k] == Fraction(q[k])
  {
    hide Quota;
    out, fractions, floored := seq(|w|, _ => 0), seq(|w|, _ => 0.0), 0;
    ghost var q := Quotas(total, w, totalWeight);
    for i := 0 to |w|
      invariant |out| == |fractions| == |w| && floored == Sum(Floors(q), i)
      invariant forall k :: 0 <= k < i ==> out[k] == q[k].Floor && fractions[k] == Fraction(q[k])
    {
      var raw := Quota(total, w[i], totalWeight);
      out, fractions := out[i := raw.Floor], fractions[i := raw - raw.Floor as real];
      floored := floored + out[i];
    }
  }

  lemma NoWrap(k: nat, n: nat)
    requires k < n
    ensures k % n == k
  {
  }

  /** One more unit to each of the first `remainder` indices; `k % n` never wraps. */
  method SpreadRemainder(floors: seq<int>, order: seq<nat>, remainder: nat, ghost q: seq<real>) returns (out: seq<int>)
    requires floors == Floors(q) && |order| == |q| && Increasing(Keys(q), order) && remainder <= |q|
    requires forall p :: 0 <= p < |order| ==> order[p] < |q|
    ensures |out| == |q| && Bumped(q, order, remainder, out) && Sum(out, |q|) == Sum(floors, |q|) + remainder
  {
    hide Increasing;
    hide Bumped;
    hide Sum;
    out := floors;
    BumpStart(q, order);
    for k := 0 to remainder
      invariant |out| == |q| && Bumped(q, order, k, out) && Sum(out, |q|) == Sum(floors, |q|) + k
    {
      BumpNext(q, order, k, out);
      NoWrap(k, |floors|);
      var at := order[k % |floors|];
      out := out[at := out[at] + 1];
    }
  }

  /** `Err` on a negative weight or an empty profile; all weights zero puts everything first. */
  method AllocateProportionally(total: int, w: seq<real>) returns (r: Result<seq<int>, string>)
    ensures r.Ok? <==> Acceptable(w)
    ensures r.Ok? ==>
              var t := Total(w, |w|);
              && |r.value| == |w|
              && (t == 0.0 ==> r.value[0] == total && forall i :: 0 < i < |w| ==> r.value[i] == 0)
              && (t != 0.0 ==> Apportioned(total, Quotas(total, w, t), r.value))
  {
    hide Apportioned;
    hide Bumped;
    hide Increasing;
    hide Quota;
    hide Total;
    hide Sum;
    var weights := SumWeights(w);
    if weights.Err? { return Err(weights.error); }
    if |w| == 0 { return Err("index out of range"); }
    var totalWeight := weights.value;
    if totalWeight == 0.0 {
      var out := seq(|w|, _ => 0);
      return Ok(out[0 := total]);
    }
    var out, fractions, floored := FloorShares(total, w, totalWeight);
    ghost var q := Quotas(total, w, totalWeight);
    var keys := seq(|w|, i requires 0 <= i < |w| => -fractions[i]);
    assert keys == Keys(q);
    var remainder := total - floored;
    var order := Order(keys, |w|);
    QuotasAddUp(total, w, totalWeight, |w|);
    WholeShare(total, totalWeight);
    RemainderFits(total, q, order, remainder);
    out := SpreadRemainder(out, order, remainder, q);
    BumpedApportions(total, q, order, remainder, out);
    return Ok(out);
  }
}
