/**
 One argument behind every greedy allocator: filling whatever is cheaper than some
 threshold price and nothing dearer costs no more than any other way to place the same total.
 */
module Greedy {
  import opened RealAlgebra
  import opened RealSums

  predicate Within(x: seq<real>, caps: seq<real>) {
    |x| == |caps| && forall i :: 0 <= i < |x| ==> 0.0 <= x[i] <= caps[i]
  }

  /** Everything cheaper than `theta` is full, everything dearer is untouched. */
  predicate Threshold(price: seq<real>, caps: seq<real>, x: seq<real>, theta: real) {
    && |price| == |caps| == |x|
    && forall i :: 0 <= i < |x| ==>
         (price[i] < theta ==> x[i] == caps[i]) && (price[i] > theta ==> x[i] == 0.0)
  }

  /** Moving away from a threshold allocation costs at least `theta` per unit moved in. */
  lemma {:induction false} ThresholdGap(price: seq<real>, caps: seq<real>, x: seq<real>, y: seq<real>, theta: real, n: nat)
    requires Threshold(price, caps, x, theta) && Within(x, caps) && Within(y, caps) && n <= |x|
    ensures Dot(price, y, n) - Dot(price, x, n) >= Mul(theta, Total(y, n) - Total(x, n))
  {
    hide Mul;
    if n == 0 {
      MulUnits(theta);
    } else {
      ThresholdGap(price, caps, x, y, theta, n - 1);
      var p, a, b := price[n - 1], x[n - 1], y[n - 1];
      MulNonNegative(p - theta, b - a);
      MulSub(b - a, p, theta);
      MulSub(p, b, a);
      MulAdd(theta, Total(y, n - 1) - Total(x, n - 1), b - a);
    }
  }

  /** A threshold allocation of a total is a cheapest one. */
  lemma {:induction false} ThresholdIsCheapest(price: seq<real>, caps: seq<real>, x: seq<real>, y: seq<real>, theta: real)
    requires Threshold(price, caps, x, theta) && Within(x, caps) && Within(y, caps)
    requires Total(x, |x|) == Total(y, |y|)
    ensures Dot(price, x, |x|) <= Dot(price, y, |y|)
  {
    ThresholdGap(price, caps, x, y, theta, |x|);
    MulUnits(theta);
  }

  lemma {:induction false} ValueUpdate(price: seq<real>, x: seq<real>, i: nat, v: real, n: nat)
    requires i < |x| && n <= |x| && n <= |price|
    ensures Dot(price, x[i := v], n) == Dot(price, x, n) + if i < n then Mul(price[i], v - x[i]) else 0.0
  {
    hide Mul;
    if n != 0 {
      ValueUpdate(price, x, i, v, n - 1);
      if i == n - 1 { MulSub(price[i], v, x[i]); }
    }
  }

  lemma {:induction false} ZeroSums(price: seq<real>, x: seq<real>, n: nat)
    requires n <= |x| && n <= |price| && forall i :: 0 <= i < |x| ==> x[i] == 0.0
    ensures Total(x, n) == 0.0 && Dot(price, x, n) == 0.0
  {
    hide Mul;
    if n != 0 {
      ZeroSums(price, x, n - 1);
      MulUnits(price[n - 1]);
    }
  }

  /** A seller's best is a buyer's cheapest at negated prices. */
  function Key(buy: bool, price: real): real { if buy then price else -price }

  function Keys(buy: bool, price: seq<real>): (k: seq<real>)
    ensures |k| == |price| && forall i :: 0 <= i < |price| ==> k[i] == Key(buy, price[i])
  {
    seq(|price|, i requires 0 <= i < |price| => Key(buy, price[i]))
  }

  lemma {:induction false} KeyedValue(buy: bool, price: seq<real>, x: seq<real>, n: nat)
    requires n <= |x| && n <= |price|
    ensures Dot(Keys(buy, price), x, n) == Key(buy, Dot(price, x, n))
  {
    hide Mul;
    if n != 0 {
      KeyedValue(buy, price, x, n - 1);
      MulSub(x[n - 1], 0.0, price[n - 1]);
      MulUnits(x[n - 1]);
    }
  }

  // ----- several ladders side by side ----------------------------------------

  predicate Shape(rows: seq<seq<real>>, count: nat, width: nat) {
    |rows| == count && forall r :: 0 <= r < count ==> |rows[r]| == width
  }

  function RowsTotal(x: seq<seq<real>>, n: nat): real
    requires n <= |x|
  {
    if n == 0 then 0.0 else RowsTotal(x, n - 1) + Total(x[n - 1], |x[n - 1]|)
  }

  function RowsValue(price: seq<seq<real>>, x: seq<seq<real>>, n: nat): real
    requires n <= |x| && n <= |price| && forall r :: 0 <= r < n ==> |x[r]| == |price[r]|
  {
    if n == 0 then 0.0 else RowsValue(price, x, n - 1) + Dot(price[n - 1], x[n - 1], |x[n - 1]|)
  }

  lemma {:induction false} RowsGap(
    buy: bool, price: seq<seq<real>>, caps: seq<seq<real>>, x: seq<seq<real>>, y: seq<seq<real>>, theta: real, n: nat)
    requires n <= |price| && n <= |caps| && n <= |x| && n <= |y|
    requires forall r :: 0 <= r < n ==> |price[r]| == |x[r]| == |y[r]| == |caps[r]|
    requires forall r :: 0 <= r < n ==>
               Threshold(Keys(buy, price[r]), caps[r], x[r], theta) && Within(x[r], caps[r]) && Within(y[r], caps[r])
    ensures Key(buy, RowsValue(price, y, n)) - Key(buy, RowsValue(price, x, n))
         >= Mul(theta, RowsTotal(y, n) - RowsTotal(x, n))
  {
    hide Mul;
    if n == 0 {
      MulUnits(theta);
    } else {
      RowsGap(buy, price, caps, x, y, theta, n - 1);
      var r := n - 1;
      ThresholdGap(Keys(buy, price[r]), caps[r], x[r], y[r], theta, |x[r]|);
      KeyedValue(buy, price[r], x[r], |x[r]|);
      KeyedValue(buy, price[r], y[r], |y[r]|);
      MulAdd(theta, RowsTotal(y, r) - RowsTotal(x, r), Total(y[r], |y[r]|) - Total(x[r], |x[r]|));
    }
  }

  lemma {:induction false} RowsUpdate(price: seq<seq<real>>, x: seq<seq<real>>, r: nat, i: nat, v: real, n: nat)
    requires n <= |x| && n <= |price| && (forall k :: 0 <= k < |x| && k < |price| ==> |x[k]| == |price[k]|)
    requires r < |x| && r < |price| && i < |x[r]|
    ensures var x' := x[r := x[r][i := v]];
            && RowsTotal(x', n) == RowsTotal(x, n) + (if r < n then v - x[r][i] else 0.0)
            && RowsValue(price, x', n) == RowsValue(price, x, n) + (if r < n then Mul(price[r][i], v - x[r][i]) else 0.0)
  {
    hide Mul;
    if n != 0 {
      RowsUpdate(price, x, r, i, v, n - 1);
      if r == n - 1 {
        TotalUpdate(x[r], i, v, |x[r]|);
        ValueUpdate(price[r], x[r], i, v, |x[r]|);
      }
    }
  }

  lemma {:induction false} RowsZero(price: seq<seq<real>>, x: seq<seq<real>>, n: nat)
    requires n <= |x| && n <= |price| && (forall r :: 0 <= r < n ==> |x[r]| == |price[r]|)
    requires forall r, i :: 0 <= r < |x| && 0 <= i < |x[r]| ==> x[r][i] == 0.0
    ensures RowsTotal(x, n) == 0.0 && RowsValue(price, x, n) == 0.0
  {
    if n != 0 {
      RowsZero(price, x, n - 1);
      ZeroSums(price[n - 1], x[n - 1], |x[n - 1]|);
    }
  }

  lemma {:induction false} RowsBelow(x: seq<seq<real>>, y: seq<seq<real>>, n: nat)
    requires n <= |x| && n <= |y| && forall r :: 0 <= r < n ==> |x[r]| == |y[r]|
    requires forall r, i :: 0 <= r < n && 0 <= i < |x[r]| ==> x[r][i] <= y[r][i]
    ensures RowsTotal(x, n) <= RowsTotal(y, n)
  {
    if n != 0 {
      RowsBelow(x, y, n - 1);
      TotalBelow(x[n - 1], y[n - 1], |x[n - 1]|);
    }
  }
}
