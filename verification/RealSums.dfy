/** Sums and weighted sums of real sequences. */
module RealSums {
  import opened RealAlgebra

  function Total(x: seq<real>, n: nat): real
    requires n <= |x|
  {
    if n == 0 then 0.0 else Total(x, n - 1) + x[n - 1]
  }

  lemma {:induction false} TotalUpdate(x: seq<real>, i: nat, v: real, n: nat)
    requires i < |x| && n <= |x|
    ensures Total(x[i := v], n) == Total(x, n) + if i < n then v - x[i] else 0.0
  {
    if n != 0 { TotalUpdate(x, i, v, n - 1); }
  }

  lemma {:induction false} TotalBelow(x: seq<real>, y: seq<real>, n: nat)
    requires n <= |x| && n <= |y| && forall i :: 0 <= i < n ==> x[i] <= y[i]
    ensures Total(x, n) <= Total(y, n)
  {
    if n != 0 { TotalBelow(x, y, n - 1); }
  }

  lemma {:induction false} TotalFloor(y: seq<real>, n: nat)
    requires n <= |y| && forall i :: 0 <= i < n ==> y[i] >= 0.0
    ensures Total(y, n) >= 0.0
  {
    if n != 0 { TotalFloor(y, n - 1); }
  }

  lemma {:induction false} TotalPrefix(a: seq<real>, b: seq<real>, n: nat)
    requires n <= |a|
    ensures Total(a + b, n) == Total(a, n)
  {
    if n != 0 { TotalPrefix(a, b, n - 1); }
  }

  lemma {:induction false} TotalJoin(a: seq<real>, b: seq<real>, n: nat)
    requires n <= |b|
    ensures Total(a + b, |a| + n) == Total(a, |a|) + Total(b, n)
  {
    if n == 0 {
      TotalPrefix(a, b, |a|);
    } else {
      TotalJoin(a, b, n - 1);
    }
  }

  lemma {:induction false} TotalShift(x: seq<real>, y: seq<real>, n: nat)
    requires n <= |x| && n <= |y| && forall i :: 0 <= i < n ==> x[i] == y[i]
    ensures Total(x, n) == Total(y, n)
  {
    if n != 0 { TotalShift(x, y, n - 1); }
  }

  lemma {:induction false} TotalTail(x: seq<real>, n: nat)
    requires n < |x|
    ensures Total(x, n + 1) == x[0] + Total(x[1..], n)
  {
    if n != 0 { TotalTail(x, n - 1); }
  }

  function Dot(x: seq<real>, y: seq<real>, n: nat): real
    requires n <= |x| && n <= |y|
  {
    if n == 0 then 0.0 else Dot(x, y, n - 1) + Mul(x[n - 1], y[n - 1])
  }
}
