/**
 VWAP and TWAP schedules: an allocation of the parent over slices that start at even offsets.
 */
module Schedulers {
  import opened Outcomes
  import opened RealAlgebra
  import opened RealSums
  import opened IntegerSums
  import opened StableSort
  import opened ProportionalAllocation

  datatype Slice = Slice(offsetMillis: int, quantity: int)

  const MAX_DURATION_MILLIS: int := 0x7FFF_FFFF_FFFF_FFFF

  function Quantities(slices: seq<Slice>): (q: seq<int>)
    ensures |q| == |slices| && forall i :: 0 <= i < |slices| ==> q[i] == slices[i].quantity
  {
    seq(|slices|, i requires 0 <= i < |slices| => slices[i].quantity)
  }

  /** Slices start in order, the first at once, none after the window closes, evenly to the millisecond. */
  ghost predicate Paced(slices: seq<Slice>, duration: int) {
    && (|slices| > 0 ==> slices[0].offsetMillis == 0)
    && (forall i :: 0 <= i < |slices| ==>
          0 <= slices[i].offsetMillis <= duration && (duration > 0 ==> slices[i].offsetMillis < duration))
    && (forall i, j :: 0 <= i < j < |slices| ==> slices[i].offsetMillis <= slices[j].offsetMillis)
    && (forall i :: 0 <= i < |slices| - 1 ==>
          var gap := slices[i + 1].offsetMillis - slices[i].offsetMillis;
          gap == duration / |slices| || gap == duration / |slices| + 1)
  }

  function Offset(duration: int, i: int, n: nat): int
    requires n > 0
  {
    duration * i / n
  }

  lemma Distribute(a: int, b: int, n: int)
    ensures (a + b) * n == a * n + b * n
  {
  }

  lemma AtLeastOne(x: int, n: int)
    requires n > 0
    ensures x >= 1 ==> x * n >= n
    ensures x <= -1 ==> x * n <= -n
  {
  }

  /** The quotient is the multiple of `n` just below. */
  lemma Quotient(a: int, n: nat, k: int)
    requires n > 0 && k * n <= a < k * n + n
    ensures a / n == k
  {
    var d := a / n;
    Distribute(k, d - k, n);
    AtLeastOne(d - k, n);
  }

  lemma OffsetSteps(duration: int, i: nat, n: nat)
    requires duration >= 0 && i < n
    ensures Offset(duration, 0, n) == 0 && 0 <= Offset(duration, i, n) <= duration
    ensures duration > 0 ==> Offset(duration, i, n) < duration
    ensures var gap := Offset(duration, i + 1, n) - Offset(duration, i, n);
            gap == duration / n || gap == duration / n + 1
  {
    hide Offset;
    OffsetInside(duration, i, n);
    OffsetNext(duration, i, n);
  }

  lemma OffsetNext(duration: int, i: nat, n: nat)
    requires n > 0
    ensures var gap := Offset(duration, i + 1, n) - Offset(duration, i, n);
            gap == duration / n || gap == duration / n + 1
  {
    var a := duration * i;
    assert duration * (i + 1) == a + duration;
    QuotientOfSum(a, duration, n);
  }

  lemma QuotientOfSum(a: int, b: int, n: nat)
    requires n > 0
    ensures (a + b) / n == a / n + b / n + if a % n + b % n < n then 0 else 1
  {
    var x, y := a / n, b / n;
    Distribute(x, y, n);
    Distribute(x + y, 1, n);
    Quotient(a + b, n, x + y + if a % n + b % n < n then 0 else 1);
  }

  lemma OffsetInside(duration: int, i: nat, n: nat)
    requires duration >= 0 && i < n
    ensures Offset(duration, 0, n) == 0 && 0 <= Offset(duration, i, n) <= duration
    ensures duration > 0 ==> Offset(duration, i, n) < duration
  {
    assert duration * i <= duration * n;
    if duration > 0 { assert duration * i < duration * n; }
  }

  lemma {:induction false} OffsetsRise(duration: int, i: nat, j: nat, n: nat)
    requires duration >= 0 && i <= j < n
    ensures Offset(duration, i, n) <= Offset(duration, j, n)
    decreases j - i
  {
    if i < j {
      OffsetsRise(duration, i, j - 1, n);
      OffsetSteps(duration, j - 1, n);
    }
  }

  lemma Paces(slices: seq<Slice>, duration: int, n: nat)
    requires duration >= 0 && |slices| == n > 0
    requires forall i :: 0 <= i < n ==> slices[i].offsetMillis == Offset(duration, i, n)
    ensures Paced(slices, duration)
  {
    hide Offset;
    forall i | 0 <= i < n
      ensures 0 <= slices[i].offsetMillis <= duration && (duration > 0 ==> slices[i].offsetMillis < duration)
    {
      OffsetSteps(duration, i, n);
    }
    OffsetSteps(duration, 0, n);
    forall i | 0 <= i < n - 1
      ensures var gap := slices[i + 1].offsetMillis - slices[i].offsetMillis;
              gap == duration / n || gap == duration / n + 1
    {
      OffsetSteps(duration, i, n);
    }
    forall i, j | 0 <= i < j < n ensures slices[i].offsetMillis <= slices[j].offsetMillis {
      OffsetsRise(duration, i, j, n);
    }
  }

  lemma QuantitiesAre(slices: seq<Slice>, out: seq<int>)
    requires |slices| == |out| && forall i :: 0 <= i < |out| ==> slices[i].quantity == out[i]
    ensures Quantities(slices) == out
  {
  }

  predicate Schedulable(total: int, weights: seq<real>, duration: int) {
    total > 0 && Acceptable(weights) && 0 <= duration <= MAX_DURATION_MILLIS / |weights|
  }

  /** Child slices of `total` in proportion to the expected volume of each bucket. */
  method Schedule(total: int, weights: seq<real>, duration: int) returns (r: Result<seq<Slice>, string>)
    ensures r.Ok? <==> Schedulable(total, weights, duration)
    ensures r.Ok? ==> |r.value| == |weights| && Paced(r.value, duration)
    ensures r.Ok? && Total(weights, |weights|) != 0.0 ==>
              Apportioned(total, Quotas(total, weights, Total(weights, |weights|)), Quantities(r.value))
    ensures r.Ok? && Total(weights, |weights|) == 0.0 ==>
              Quantities(r.value)[0] == total && forall i :: 0 < i < |weights| ==> Quantities(r.value)[i] == 0
  {
    hide Apportioned;
    hide Total;
    hide Offset;
    hide Quantities;
    if |weights| == 0 || total <= 0 { return Err("need positive quantity and a non-empty profile"); }
    var n := |weights|;
    if duration < 0 || duration > MAX_DURATION_MILLIS / n { return Err("durationMillis out of range"); }
    var allocation := AllocateProportionally(total, weights);
    if allocation.Err? { return Err(allocation.error); }
    var out := allocation.value;
    var slices := seq(n, i requires 0 <= i < n => Slice(Offset(duration, i, n), out[i]));
    Paces(slices, duration, n);
    QuantitiesAre(slices, out);
    return Ok(slices);
  }

  // ----- TWAP -----------------------------------------------------------------

  function Ones(n: nat): (w: seq<real>)
    ensures |w| == n && forall i :: 0 <= i < n ==> w[i] == 1.0
  {
    seq(n, _ => 1.0)
  }

  lemma {:induction false} OnesTotal(n: nat, k: nat)
    requires k <= n
    ensures Total(Ones(n), k) == k as real
  {
    if k != 0 { OnesTotal(n, k - 1); }
  }

  /** `f + 1` in the first `m` places and `f` after them adds up to `n * f + m`. */
  lemma {:induction false} StepSum(out: seq<int>, f: int, m: nat, n: nat)
    requires n <= |out| && forall i :: 0 <= i < n ==> out[i] == f + if i < m then 1 else 0
    ensures Sum(out, n) == n * f + if n <= m then n else m
  {
    if n != 0 { StepSum(out, f, m, n - 1); }
  }

  /** A falling sequence of two adjacent values is a step. */
  lemma {:induction false} FallingIsStep(out: seq<int>, f: int, n: nat) returns (m: nat)
    requires n <= |out| && forall i :: 0 <= i < n ==> out[i] == f || out[i] == f + 1
    requires forall i, j :: 0 <= i < j < n ==> out[j] <= out[i]
    ensures m <= n && forall i :: 0 <= i < n ==> out[i] == f + if i < m then 1 else 0
  {
    if n == 0 { return 0; }
    m := FallingIsStep(out, f, n - 1);
    if out[n - 1] == f + 1 { m := n; }
  }

  lemma Bracket(t: real, q: real, f: real, k: real)
    requires k > 0.0 && f <= q < f + 1.0 && Mul(q, k) == t
    ensures Mul(f, k) <= t < Mul(f, k) + k
  {
    hide Mul;
    MulSub(k, q, f);
    MulNonNegative(q - f, k);
    MulSub(k, 1.0, q - f);
    MulPositive(1.0 - (q - f), k);
    MulUnits(k);
  }

  /** The floor of an equal share brackets the total. */
  lemma ShareFloor(total: int, n: nat, f: int)
    requires n > 0 && f == Quota(total, 1.0, n as real).Floor
    ensures n * f <= total < n * f + n
  {
    var k := n as real;
    assert Quota(total, 1.0, k) == total as real / k;
    var q := Quota(total, 1.0, k);
    assert Mul(q, k) == total as real && f as real <= q < f as real + 1.0;
    Bracket(total as real, q, f as real, k);
    assert (n * f) as real == f as real * k;
    assert (n * f + n) as real == f as real * k + k;
  }

  /** Equal shares are rounded up from the front. */
  lemma EqualFalls(total: int, q: seq<real>, out: seq<int>)
    requires Apportioned(total, q, out) && forall i :: 0 <= i < |q| ==> q[i] == q[0]
    ensures forall i, j :: 0 <= i < j < |out| ==> out[j] <= out[i]
  {
    forall i, j | 0 <= i < j < |out| ensures out[j] <= out[i] {
      if out[j] > q[j].Floor { assert !Precedes(Keys(q), j, i); }
    }
  }

  /** Equal weights: the quotient everywhere and one more in the first `total % n` slices. */
  lemma EqualSlices(total: int, n: nat, out: seq<int>)
    requires n > 0 && Apportioned(total, Quotas(total, Ones(n), n as real), out)
    ensures |out| == n && forall i :: 0 <= i < n ==> out[i] == total / n + if i < total % n then 1 else 0
  {
    hide Quota;
    hide Precedes;
    var q := Quotas(total, Ones(n), n as real);
    EqualFalls(total, q, out);
    var f := q[0].Floor;
    ShareFloor(total, n, f);
    var m := FallingIsStep(out, f, n);
    StepSum(out, f, m, n);
    QuotientAndRest(total, n, f, m);
  }

  lemma QuotientAndRest(total: int, n: nat, f: int, m: nat)
    requires n > 0 && total == n * f + m && m < n
    ensures total / n == f && total % n == m
  {
    Quotient(total, n, f);
  }

  method Twap(total: int, duration: int, count: nat) returns (r: Result<seq<Slice>, string>)
    ensures r.Ok? <==> total > 0 && count > 0 && 0 <= duration <= MAX_DURATION_MILLIS / count
    ensures r.Ok? ==> |r.value| == count && Paced(r.value, duration)
    ensures r.Ok? ==> forall i :: 0 <= i < count ==>
              r.value[i].quantity == total / count + if i < total % count then 1 else 0
  {
    OnesTotal(count, count);
    r := Schedule(total, Ones(count), duration);
    if r.Ok? { EqualSlices(total, count, Quantities(r.value)); }
  }
}
