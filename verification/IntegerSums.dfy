/** Sums of integer sequences. */
module IntegerSums {
  function Sum(x: seq<int>, n: nat): int
    requires n <= |x|
  {
    if n == 0 then 0 else Sum(x, n - 1) + x[n - 1]
  }

  lemma {:induction false} SumUpdate(x: seq<int>, i: nat, v: int, n: nat)
    requires i < |x| && n <= |x|
    ensures Sum(x[i := v], n) == Sum(x, n) + if i < n then v - x[i] else 0
  {
    if n != 0 { SumUpdate(x, i, v, n - 1); }
  }

  lemma {:induction false} SumBelow(x: seq<int>, y: seq<int>, n: nat)
    requires n <= |x| && n <= |y| && forall i :: 0 <= i < n ==> x[i] <= y[i]
    ensures Sum(x, n) <= Sum(y, n)
  {
    if n != 0 { SumBelow(x, y, n - 1); }
  }

  lemma {:induction false} SumZero(x: seq<int>, n: nat)
    requires n <= |x| && forall i :: 0 <= i < n ==> x[i] == 0
    ensures Sum(x, n) == 0
  {
    if n != 0 { SumZero(x, n - 1); }
  }
}
