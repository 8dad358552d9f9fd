/**
 The streaming EWMA covariance over a flat lower triangle.  Entry (i, j), j <= i,
 lives at Tri(i) + j; a weight vector's variance is a quadratic form `Quad` over it.
 */
module EwmaCovariance {
  import opened RealAlgebra
  import opened RealSums
  import opened PairForms
  import opened Decay

  datatype Return = Finite(value: real) | NonFinite

  /** The triangle index i*(i+1)/2. */
  function Tri(i: nat): (t: nat)
    ensures t >= i
  {
    if i == 0 then 0 else Tri(i - 1) + i
  }

  lemma {:induction false} TriClosed(i: nat)
    ensures Tri(i) == i * (i + 1) / 2
  {
    if i != 0 {
      TriClosed(i - 1);
      assert (i - 1) * i + 2 * i == i * (i + 1);
    }
  }

  lemma {:induction false} TriMonotone(i: nat, n: nat)
    requires i <= n
    ensures Tri(i) <= Tri(n)
    ensures i < n ==> Tri(i) + i < Tri(n)
    decreases n
  {
    if i < n { TriMonotone(i, n - 1); }
  }

  function Entry(t: seq<real>, i: nat, j: nat): real
    requires j <= i && Tri(i) + j < |t|
  {
    t[Tri(i) + j]
  }

  // ----- the quadratic form -------------------------------------------------

  /** First `j` terms of row `i`: off-diagonal terms count twice. */
  function Row(t: seq<real>, w: seq<real>, i: nat, j: nat): real
    requires i < |w| && j <= i + 1 && Tri(i + 1) <= |t|
  {
    if j == 0 then 0.0
    else Row(t, w, i, j - 1) + Term(Mul(w[i], w[j - 1]), Entry(t, i, j - 1), j - 1 == i)
  }

  function Term(ww: real, entry: real, diagonal: bool): real {
    if diagonal then Mul(ww, entry) else 2.0 * Mul(ww, entry)
  }

  function Quad(t: seq<real>, w: seq<real>, n: nat): real
    requires n <= |w| && Tri(n) <= |t|
  {
    if n == 0 then 0.0 else Quad(t, w, n - 1) + Row(t, w, n - 1, n)
  }

  /** Positive semidefinite: no weighting of the basket has negative variance. */
  ghost predicate Psd(t: seq<real>, n: nat)
    requires Tri(n) <= |t|
  {
    forall w: seq<real> :: |w| >= n ==> Quad(t, w, n) >= 0.0
  }

  // ----- one sample ---------------------------------------------------------

  /** The products r_i * r_j of one row, then of the triangle, in storage order. */
  function RowProducts(r: seq<real>, i: nat, j: nat): (p: seq<real>)
    requires i < |r| && j <= i + 1
    ensures |p| == j
    ensures forall k :: 0 <= k < j ==> p[k] == Mul(r[i], r[k])
  {
    if j == 0 then [] else RowProducts(r, i, j - 1) + [Mul(r[i], r[j - 1])]
  }

  function Products(r: seq<real>, n: nat): (p: seq<real>)
    requires n <= |r|
    ensures |p| == Tri(n)
  {
    if n == 0 then [] else Products(r, n - 1) + RowProducts(r, n - 1, n)
  }

  lemma {:induction false} ProductAt(r: seq<real>, n: nat, i: nat, j: nat)
    requires n <= |r| && j <= i < n
    ensures Tri(i) + j < Tri(n) && Products(r, n)[Tri(i) + j] == Mul(r[i], r[j])
    decreases n
  {
    TriMonotone(i, n);
    if i < n - 1 { ProductAt(r, n - 1, i, j); }
  }

  function Blend(old_: real, prod: real, lam: real, seed: bool): real {
    if seed then prod else old_ + Mul(1.0 - lam, prod - old_)
  }

  function Updated(t: seq<real>, p: seq<real>, lam: real, seed: bool): (u: seq<real>)
    requires |t| == |p|
    ensures |u| == |t|
    ensures forall k :: 0 <= k < |t| ==> u[k] == Blend(t[k], p[k], lam, seed)
  {
    seq(|t|, k requires 0 <= k < |t| => Blend(t[k], p[k], lam, seed))
  }

  lemma BlendScaled(c: real, a: real, b: real, lam: real, seed: bool)
    ensures Mul(c, Blend(a, b, lam, seed)) == Blend(Mul(c, a), Mul(c, b), lam, seed)
  {
    var k := 1.0 - lam;
    assert c * (a + k * (b - a)) == c * a + k * (c * b - c * a);
  }

  lemma BlendSum(a: real, b: real, x: real, y: real, lam: real, seed: bool)
    ensures Blend(a, b, lam, seed) + Blend(x, y, lam, seed) == Blend(a + x, b + y, lam, seed)
  {
  }

  lemma TermBlended(ww: real, diagonal: bool, a: real, b: real, lam: real, seed: bool)
    ensures Term(ww, Blend(a, b, lam, seed), diagonal) == Blend(Term(ww, a, diagonal), Term(ww, b, diagonal), lam, seed)
  {
    BlendScaled(ww, a, b, lam, seed);
    BlendSum(Mul(ww, a), Mul(ww, b), Mul(ww, a), Mul(ww, b), lam, seed);
  }

  // ----- positive semidefiniteness ------------------------------------------

  lemma {:induction false} RowOfProducts(r: seq<real>, w: seq<real>, n: nat, i: nat, j: nat)
    requires n <= |r| && n <= |w| && i < n && j <= i + 1 && Tri(i + 1) <= Tri(n)
    ensures var x := Mul(w[i], r[i]);
            Row(Products(r, n), w, i, j)
            == if j <= i then 2.0 * Mul(x, Dot(w, r, j)) else 2.0 * Mul(x, Dot(w, r, i)) + Mul(x, x)
    decreases j
  {
    hide Mul;
    var x := Mul(w[i], r[i]);
    if j == 0 {
      MulUnits(x);
    } else {
      RowOfProducts(r, w, n, i, j - 1);
      ProductAt(r, n, i, j - 1);
      MulCross(w[i], w[j - 1], r[i], r[j - 1]);
      MulAdd(x, Dot(w, r, j - 1), Mul(w[j - 1], r[j - 1]));
    }
  }

  /** An outer product's form is a square. */
  lemma {:induction false} QuadOfProducts(r: seq<real>, w: seq<real>, n: nat, m: nat)
    requires n <= |r| && n <= |w| && m <= n
    ensures Tri(m) <= Tri(n)
    ensures Quad(Products(r, n), w, m) == Mul(Dot(w, r, m), Dot(w, r, m))
    decreases m
  {
    hide Mul;
    hide Products;
    TriMonotone(m, n);
    if m == 0 {
      MulUnits(0.0);
    } else {
      QuadOfProducts(r, w, n, m - 1);
      RowOfProducts(r, w, n, m - 1, m);
      MulSquare(Dot(w, r, m - 1), Mul(w[m - 1], r[m - 1]));
    }
  }

  lemma {:induction false} RowUpdated(t: seq<real>, p: seq<real>, lam: real, seed: bool, w: seq<real>, i: nat, j: nat)
    requires |t| == |p| && i < |w| && j <= i + 1 && Tri(i + 1) <= |t|
    ensures Row(Updated(t, p, lam, seed), w, i, j) == Blend(Row(t, w, i, j), Row(p, w, i, j), lam, seed)
    decreases j
  {
    hide Mul;
    if j == 0 {
      MulUnits(1.0 - lam);
    } else {
      RowUpdated(t, p, lam, seed, w, i, j - 1);
      var k, ww, diagonal := Tri(i) + j - 1, Mul(w[i], w[j - 1]), j - 1 == i;
      assert Updated(t, p, lam, seed)[k] == Blend(t[k], p[k], lam, seed);
      TermBlended(ww, diagonal, t[k], p[k], lam, seed);
      BlendSum(Row(t, w, i, j - 1), Row(p, w, i, j - 1), Term(ww, t[k], diagonal), Term(ww, p[k], diagonal), lam, seed);
    }
  }

  lemma {:induction false} QuadUpdated(t: seq<real>, p: seq<real>, lam: real, seed: bool, w: seq<real>, n: nat)
    requires |t| == |p| && n <= |w| && Tri(n) <= |t|
    ensures Quad(Updated(t, p, lam, seed), w, n) == Blend(Quad(t, w, n), Quad(p, w, n), lam, seed)
    decreases n
  {
    hide Mul;
    if n == 0 {
      MulUnits(1.0 - lam);
    } else {
      QuadUpdated(t, p, lam, seed, w, n - 1);
      RowUpdated(t, p, lam, seed, w, n - 1, n);
      BlendSum(Quad(t, w, n - 1), Quad(p, w, n - 1), Row(t, w, n - 1, n), Row(p, w, n - 1, n), lam, seed);
    }
  }

  /** A full-vector sample keeps the matrix positive semidefinite. */
  lemma {:induction false} UpdateKeepsPsd(t: seq<real>, r: seq<real>, lam: real, seed: bool, n: nat)
    requires n <= |r| && |t| == Tri(n) && 0.0 < lam < 1.0 && Psd(t, n)
    ensures Psd(Updated(t, Products(r, n), lam, seed), n)
  {
    var u := Updated(t, Products(r, n), lam, seed);
    forall w: seq<real> | |w| >= n
      ensures Quad(u, w, n) >= 0.0
    {
      QuadUpdated(t, Products(r, n), lam, seed, w, n);
      QuadOfProducts(r, w, n, n);
      BlendNonNegative(Quad(t, w, n), Dot(w, r, n), lam, seed);
    }
  }

  lemma BlendNonNegative(q: real, d: real, lam: real, seed: bool)
    requires q >= 0.0 && 0.0 < lam < 1.0
    ensures Blend(q, Mul(d, d), lam, seed) >= 0.0
  {
    SquareNonNegative(d);
    MulNonNegative(lam, q);
    MulNonNegative(1.0 - lam, Mul(d, d));
    assert q + (1.0 - lam) * (d * d - q) == lam * q + (1.0 - lam) * (d * d);
  }

  lemma {:induction false} ZeroQuad(t: seq<real>, w: seq<real>, n: nat)
    requires n <= |w| && Tri(n) <= |t| && forall k :: 0 <= k < |t| ==> t[k] == 0.0
    ensures Quad(t, w, n) == 0.0
  {
    if n != 0 {
      ZeroQuad(t, w, n - 1);
      ZeroRow(t, w, n - 1, n);
    }
  }

  lemma {:induction false} ZeroRow(t: seq<real>, w: seq<real>, i: nat, j: nat)
    requires i < |w| && j <= i + 1 && Tri(i + 1) <= |t| && forall k :: 0 <= k < |t| ==> t[k] == 0.0
    ensures Row(t, w, i, j) == 0.0
    decreases j
  {
    if j != 0 {
      ZeroRow(t, w, i, j - 1);
      MulUnits(Mul(w[i], w[j - 1]));
    }
  }

  // ----- whole runs ---------------------------------------------------------

  function Zeros(n: nat): (t: seq<real>)
    ensures |t| == Tri(n) && forall k :: 0 <= k < |t| ==> t[k] == 0.0
  {
    seq(Tri(n), _ => 0.0)
  }

  ghost predicate Full(samples: seq<seq<real>>, n: nat) { forall k :: 0 <= k < |samples| ==> |samples[k]| >= n }

  /** The triangle after a feed of clean samples; dropped samples change nothing and are left out. */
  function Fed(samples: seq<seq<real>>, lam: real, n: nat): (t: seq<real>)
    requires Full(samples, n)
    ensures |t| == Tri(n)
  {
    if samples == [] then Zeros(n)
    else
      var m := |samples| - 1;
      Updated(Fed(samples[..m], lam, n), Products(samples[m], n), lam, m == 0)
  }

  lemma {:induction false} FeedIsPsd(samples: seq<seq<real>>, lam: real, n: nat)
    requires Full(samples, n) && 0.0 < lam < 1.0
    ensures Psd(Fed(samples, lam, n), n)
  {
    hide Psd;
    hide Updated;
    hide Products;
    if samples == [] {
      ZerosPsd(n);
    } else {
      var m := |samples| - 1;
      FeedIsPsd(samples[..m], lam, n);
      UpdateKeepsPsd(Fed(samples[..m], lam, n), samples[m], lam, m == 0, n);
    }
  }

  lemma ZerosPsd(n: nat)
    ensures Psd(Zeros(n), n)
  {
    forall w: seq<real> | |w| >= n ensures Quad(Zeros(n), w, n) >= 0.0 { ZeroQuad(Zeros(n), w, n); }
  }

  lemma PsdVariance(t: seq<real>, w: seq<real>, n: nat)
    requires Tri(n) <= |t| && Psd(t, n) && |w| >= n
    ensures Quad(t, w, n) >= 0.0
  {
  }

  lemma FedPush(samples: seq<seq<real>>, r: seq<real>, lam: real, n: nat)
    requires Full(samples, n) && |r| >= n
    ensures Full(samples + [r], n)
    ensures Fed(samples + [r], lam, n) == Updated(Fed(samples, lam, n), Products(r, n), lam, samples == [])
  {
    assert (samples + [r])[..|samples|] == samples;
  }

  /** The products two symbols contributed after the first sample. */
  function Comoves(samples: seq<seq<real>>, i: nat, j: nat): (y: seq<real>)
    requires |samples| > 0 && forall k :: 0 <= k < |samples| ==> i < |samples[k]| && j < |samples[k]|
    ensures |y| == |samples| - 1 && forall k :: 0 <= k < |y| ==> y[k] == Mul(samples[k + 1][i], samples[k + 1][j])
  {
    seq(|samples| - 1, k requires 0 <= k < |samples| - 1 => Mul(samples[k + 1][i], samples[k + 1][j]))
  }

  /** One blend is one step of decay. */
  lemma BlendDecays(lam: real, start: real, y: seq<real>, x: real)
    ensures Blend(Decayed(lam, start, y), x, lam, false) == Decayed(lam, start, y + [x])
  {
    DecayedStep(lam, start, y, x);
  }

  /** Every entry in closed form: the first sample's product and the later ones, each decayed by its age. */
  lemma {:induction false} EntryIsDecayed(samples: seq<seq<real>>, lam: real, n: nat, i: nat, j: nat)
    requires Full(samples, n) && |samples| > 0 && j <= i < n
    ensures Tri(i) + j < Tri(n)
    ensures Entry(Fed(samples, lam, n), i, j) == Decayed(lam, Mul(samples[0][i], samples[0][j]), Comoves(samples, i, j))
    decreases |samples|
  {
    hide Mul;
    hide Products;
    hide Decayed;
    TriMonotone(i, n);
    var m := |samples| - 1;
    var front, start, x := samples[..m], Mul(samples[0][i], samples[0][j]), Mul(samples[m][i], samples[m][j]);
    ProductAt(samples[m], n, i, j);
    if m == 0 {
      NothingDecayed(lam, start);
      assert Comoves(samples, i, j) == [];
    } else {
      EntryIsDecayed(front, lam, n, i, j);
      BlendDecays(lam, start, Comoves(front, i, j), x);
      assert Comoves(samples, i, j) == Comoves(front, i, j) + [x];
    }
  }

  /** The squared returns of a portfolio after the first sample. */
  function SquaredReturns(samples: seq<seq<real>>, w: seq<real>, n: nat): (y: seq<real>)
    requires |samples| > 0 && Full(samples, n) && n <= |w|
    ensures |y| == |samples| - 1
    ensures forall k :: 0 <= k < |y| ==> y[k] == Mul(Dot(w, samples[k + 1], n), Dot(w, samples[k + 1], n))
  {
    seq(|samples| - 1, k requires 0 <= k < |samples| - 1 => Mul(Dot(w, samples[k + 1], n), Dot(w, samples[k + 1], n)))
  }

  /** A portfolio's variance is the decayed mean of its own squared returns: no covariance is lost on the way. */
  lemma {:induction false} VarianceIsDecayed(samples: seq<seq<real>>, lam: real, n: nat, w: seq<real>)
    requires Full(samples, n) && |samples| > 0 && n <= |w|
    ensures Quad(Fed(samples, lam, n), w, n)
         == Decayed(lam, Mul(Dot(w, samples[0], n), Dot(w, samples[0], n)), SquaredReturns(samples, w, n))
    decreases |samples|
  {
    hide Mul;
    hide Products;
    hide Decayed;
    hide Quad;
    hide Dot;
    hide Updated;
    var m := |samples| - 1;
    var front, start, x := samples[..m], Mul(Dot(w, samples[0], n), Dot(w, samples[0], n)), Mul(Dot(w, samples[m], n), Dot(w, samples[m], n));
    QuadUpdated(Fed(front, lam, n), Products(samples[m], n), lam, m == 0, w, n);
    QuadOfProducts(samples[m], w, n, n);
    if m == 0 {
      NothingDecayed(lam, start);
      assert SquaredReturns(samples, w, n) == [];
    } else {
      VarianceIsDecayed(front, lam, n, w);
      BlendDecays(lam, start, SquaredReturns(front, w, n), x);
      assert SquaredReturns(samples, w, n) == SquaredReturns(front, w, n) + [x];
    }
  }

  // ----- Cauchy-Schwarz -----------------------------------------------------

  /** A weighting of two symbols only. */
  function TwoWeights(n: nat, i: nat, a: real, j: nat, b: real): (w: seq<real>)
    ensures |w| == n && forall k :: 0 <= k < n ==> w[k] == if k == i then a else if k == j then b else 0.0
  {
    seq(n, k requires 0 <= k < n => if k == i then a else if k == j then b else 0.0)
  }

  /** One row against two weights. */
  lemma {:induction false} RowOfTwo(t: seq<real>, n: nat, i: nat, a: real, j: nat, b: real, k: nat, m: nat)
    requires j < i < n && k < n && m <= k + 1 && Tri(n) <= |t| && Tri(k + 1) <= Tri(n)
    ensures TriFits(i, j, n)
    ensures Row(t, TwoWeights(n, i, a, j, b), k, m)
         == (if k == j < m then Mul(Mul(b, b), Entry(t, j, j)) else 0.0)
          + (if k == i && j < m then 2.0 * Mul(Mul(a, b), Entry(t, i, j)) else 0.0)
          + (if k == i < m then Mul(Mul(a, a), Entry(t, i, i)) else 0.0)
    decreases m
  {
    hide Mul;
    FitsAll(i, j, n);
    var w := TwoWeights(n, i, a, j, b);
    if m != 0 {
      RowOfTwo(t, n, i, a, j, b, k, m - 1);
      MulUnits(w[k]);
      MulUnits(w[m - 1]);
      MulUnits(Entry(t, k, m - 1));
    }
  }

  predicate TriFits(i: nat, j: nat, n: nat) {
    Tri(i) + i < Tri(n) && Tri(i) + j < Tri(n) && Tri(j) + j < Tri(n)
  }

  lemma FitsAll(i: nat, j: nat, n: nat)
    requires j <= i < n
    ensures TriFits(i, j, n)
  {
    TriMonotone(i, n);
    TriMonotone(j, n);
  }

  /** The form of two weights: a^2 var(i) + 2ab cov(i,j) + b^2 var(j), once both rows are in. */
  lemma {:induction false} QuadOfTwo(t: seq<real>, n: nat, i: nat, a: real, j: nat, b: real, m: nat)
    requires j < i < n && m <= n && Tri(n) <= |t|
    ensures TriFits(i, j, n) && Tri(m) <= Tri(n)
    ensures Quad(t, TwoWeights(n, i, a, j, b), m)
         == (if j < m then Mul(Mul(b, b), Entry(t, j, j)) else 0.0)
          + (if i < m then 2.0 * Mul(Mul(a, b), Entry(t, i, j)) + Mul(Mul(a, a), Entry(t, i, i)) else 0.0)
    decreases m
  {
    hide Mul;
    FitsAll(i, j, n);
    TriMonotone(m, n);
    if m != 0 {
      QuadOfTwo(t, n, i, a, j, b, m - 1);
      RowOfTwo(t, n, i, a, j, b, m - 1, m);
    }
  }

  lemma {:induction false} RowOfOne(t: seq<real>, w: seq<real>, i: nat, k: nat, m: nat)
    requires i < |w| && k < |w| && m <= k + 1 && Tri(k + 1) <= |t| && Tri(i + 1) <= |t|
    requires forall k :: 0 <= k < |w| && k != i ==> w[k] == 0.0
    requires w[i] == 1.0
    ensures Row(t, w, k, m) == if k == i < m then Entry(t, i, i) else 0.0
    decreases m
  {
    hide Mul;
    if m != 0 {
      RowOfOne(t, w, i, k, m - 1);
      MulUnits(w[k]);
      MulUnits(w[m - 1]);
      MulUnits(Entry(t, k, m - 1));
    }
  }

  lemma {:induction false} QuadOfOne(t: seq<real>, w: seq<real>, i: nat, m: nat)
    requires i < |w| && m <= |w| && Tri(|w|) <= |t|
    requires forall k :: 0 <= k < |w| && k != i ==> w[k] == 0.0
    requires w[i] == 1.0
    ensures Tri(m) <= |t| && Tri(i) + i < |t|
    ensures Quad(t, w, m) == if i < m then Entry(t, i, i) else 0.0
    decreases m
  {
    TriMonotone(m, |w|);
    TriMonotone(i, |w|);
    TriMonotone(i + 1, |w|);
    if m != 0 {
      QuadOfOne(t, w, i, m - 1);
      RowOfOne(t, w, i, m - 1, m);
    }
  }

  lemma {:induction false} VarianceNonNegative(t: seq<real>, n: nat, i: nat)
    requires i < n && |t| == Tri(n) && Psd(t, n)
    ensures Tri(i) + i < |t| && Entry(t, i, i) >= 0.0
  {
    var w := TwoWeights(n, i, 1.0, i, 0.0);
    QuadOfOne(t, w, i, n);
  }

  /** In every positive semidefinite state cov(i,j)^2 <= var(i) * var(j): a correlation never leaves [-1, 1]. */
  lemma {:induction false} CovarianceBound(t: seq<real>, n: nat, i: nat, j: nat)
    requires j < i < n && |t| == Tri(n) && Psd(t, n)
    ensures TriFits(i, j, n)
    ensures Entry(t, i, j) * Entry(t, i, j) <= Entry(t, i, i) * Entry(t, j, j)
  {
    FitsAll(i, j, n);
    VarianceNonNegative(t, n, i);
    VarianceNonNegative(t, n, j);
    var v, u, c := Entry(t, i, i), Entry(t, j, j), Entry(t, i, j);
    forall a: real, b: real
      ensures PairForm(v, u, c, a, b) >= 0.0
    {
      QuadOfTwo(t, n, i, a, j, b, n);
      assert Quad(t, TwoWeights(n, i, a, j, b), n) >= 0.0;
    }
    Discriminant(v, u, c);
  }

  lemma Swap(a: real, b: real)
    ensures a * b == b * a
  {
  }

  /** The bound for the symmetric read, whichever way round the symbols are. */
  lemma AnyCovarianceBound(t: seq<real>, n: nat, i: nat, j: nat)
    requires i < n && j < n && |t| == Tri(n) && Psd(t, n)
    ensures Tri(if i >= j then i else j) + (if i >= j then j else i) < |t| && Tri(i) + i < |t| && Tri(j) + j < |t|
    ensures Cov(t, i, j) * Cov(t, i, j) <= Entry(t, i, i) * Entry(t, j, j)
  {
    CovFits(i, j, n);
    CovFits(i, i, n);
    CovFits(j, j, n);
    if j < i {
      CovarianceBound(t, n, i, j);
    } else if i < j {
      CovarianceBound(t, n, j, i);
      Swap(Entry(t, i, i), Entry(t, j, j));
    }
  }

  // ----- marginal contributions ---------------------------------------------

  /** The symmetric read: either order of the two symbols. */
  function Cov(t: seq<real>, i: nat, j: nat): real
    requires Tri(if i >= j then i else j) + (if i >= j then j else i) < |t|
  {
    if i >= j then Entry(t, i, j) else Entry(t, j, i)
  }

  lemma CovFits(i: nat, j: nat, n: nat)
    requires i < n && j < n
    ensures Tri(if i >= j then i else j) + (if i >= j then j else i) < Tri(n)
  {
    FitsAll(if i >= j then i else j, if i >= j then j else i, n);
  }

  /** (Sigma w)_i over the first `m` symbols. */
  function SigmaW(t: seq<real>, w: seq<real>, n: nat, i: nat, m: nat): real
    requires i < n && m <= n <= |w| && |t| == Tri(n)
  {
    if m == 0 then 0.0
    else
      CovFits(i, m - 1, n);
      SigmaW(t, w, n, i, m - 1) + Mul(Cov(t, i, m - 1), w[m - 1])
  }

  /** sum of w_i (Sigma w)_i over the first `k` symbols, columns up to `m`. */
  function Euler(t: seq<real>, w: seq<real>, n: nat, k: nat, m: nat): real
    requires k <= n && m <= n <= |w| && |t| == Tri(n)
  {
    if k == 0 then 0.0 else Euler(t, w, n, k - 1, m) + Mul(w[k - 1], SigmaW(t, w, n, k - 1, m))
  }

  /** Column `c` against the first `k` symbols. */
  function Column(t: seq<real>, w: seq<real>, n: nat, k: nat, c: nat): real
    requires k <= n && c < n <= |w| && |t| == Tri(n)
  {
    if k == 0 then 0.0
    else
      CovFits(k - 1, c, n);
      Column(t, w, n, k - 1, c) + Mul(w[k - 1], Mul(Cov(t, k - 1, c), w[c]))
  }

  lemma {:induction false} EulerColumn(t: seq<real>, w: seq<real>, n: nat, k: nat, m: nat)
    requires k <= n && m < n <= |w| && |t| == Tri(n)
    ensures Euler(t, w, n, k, m + 1) == Euler(t, w, n, k, m) + Column(t, w, n, k, m)
    decreases k
  {
    hide Mul;
    if k != 0 {
      EulerColumn(t, w, n, k - 1, m);
      CovFits(k - 1, m, n);
      MulAdd(w[k - 1], SigmaW(t, w, n, k - 1, m), Mul(Cov(t, k - 1, m), w[m]));
    }
  }

  /** The doubled off-diagonal terms are one column and one row. */
  lemma {:induction false} RowIsColumnAndRow(t: seq<real>, w: seq<real>, n: nat, i: nat, j: nat)
    requires j <= i < n <= |w| && |t| == Tri(n) && Tri(i + 1) <= Tri(n)
    ensures Row(t, w, i, j) == Column(t, w, n, j, i) + Mul(w[i], SigmaW(t, w, n, i, j))
    decreases j
  {
    hide Mul;
    if j == 0 {
      MulUnits(w[i]);
    } else {
      RowIsColumnAndRow(t, w, n, i, j - 1);
      CovFits(j - 1, i, n);
      CovFits(i, j - 1, n);
      var e := Entry(t, i, j - 1);
      MulAdd(w[i], SigmaW(t, w, n, i, j - 1), Mul(e, w[j - 1]));
      MulCommutes(e, w[j - 1]);
      MulAssoc(w[i], w[j - 1], e);
      MulCommutes(e, w[i]);
      MulAssoc(w[j - 1], w[i], e);
      MulCommutes(w[i], w[j - 1]);
    }
  }

  /** Euler's identity: the weighted marginal terms add up to the variance. */
  lemma {:induction false} EulerIsQuad(t: seq<real>, w: seq<real>, n: nat, m: nat)
    requires m <= n <= |w| && |t| == Tri(n)
    ensures Tri(m) <= Tri(n) && Euler(t, w, n, m, m) == Quad(t, w, m)
    decreases m
  {
    hide Mul;
    TriMonotone(m, n);
    if m != 0 {
      var i := m - 1;
      EulerIsQuad(t, w, n, i);
      EulerColumn(t, w, n, i, i);
      RowIsColumnAndRow(t, w, n, i, i);
      CovFits(i, i, n);
      MulAdd(w[i], SigmaW(t, w, n, i, i), Mul(Cov(t, i, i), w[i]));
      MulCommutes(Cov(t, i, i), w[i]);
      MulAssoc(w[i], w[i], Cov(t, i, i));
    }
  }

  /** Contributions to a positive variance sum to exactly 1. */
  lemma {:induction false} SharesSumToOne(t: seq<real>, w: seq<real>, n: nat, out: seq<real>)
    requires n <= |w| && |t| == Tri(n) && n <= |out| && Quad(t, w, n) > 0.0
    requires forall i :: 0 <= i < n ==> out[i] == Mul(w[i], SigmaW(t, w, n, i, n)) / Quad(t, w, n)
    ensures Total(out, n) == 1.0
  {
    PartialShares(t, w, n, out, Quad(t, w, n), n);
    EulerIsQuad(t, w, n, n);
    DivSelf(Quad(t, w, n));
  }

  lemma {:induction false} PartialShares(t: seq<real>, w: seq<real>, n: nat, out: seq<real>, total: real, k: nat)
    requires k <= n <= |w| && |t| == Tri(n) && n <= |out| && total > 0.0
    requires forall i :: 0 <= i < n ==> out[i] == Mul(w[i], SigmaW(t, w, n, i, n)) / total
    ensures Total(out, k) == Euler(t, w, n, k, n) / total
    decreases k
  {
    hide Mul;
    if k != 0 {
      PartialShares(t, w, n, out, total, k - 1);
      DivAdd(Euler(t, w, n, k - 1, n), Mul(w[k - 1], SigmaW(t, w, n, k - 1, n)), total);
    }
  }

  // ----- the estimator ------------------------------------------------------

  class EwmaCovariance {
    const symbols: nat
    const lam: real
    const tri: array<real>
    var samples: nat
    /** Every clean sample since the start; not kept by the source. */
    ghost var fed: seq<seq<real>>

    ghost predicate Valid()
      reads this, tri
    {
      && symbols >= 1 && 0.0 < lam < 1.0 && tri.Length == Tri(symbols)
      && samples == |fed| && (forall k :: 0 <= k < |fed| ==> |fed[k]| == symbols)
      && tri[..] == Fed(fed, lam, symbols) && Psd(tri[..], symbols)
    }

    constructor (symbols: nat, lam: real)
      requires symbols >= 1 && 0.0 < lam < 1.0
      ensures Valid() && fresh(tri) && this.symbols == symbols && this.lam == lam && fed == []
    {
      this.symbols, this.lam, samples, fed := symbols, lam, 0, [];
      tri := new real[Tri(symbols)](_ => 0.0);
      new;
      assert tri[..] == Zeros(symbols);
      FeedIsPsd([], lam, symbols);
    }

    /**
     One sampling interval.  A short vector is refused; a vector with any non-finite
     entry inside the basket is dropped whole; anything else updates every entry.
     */
    method OnReturns(returns_: seq<Return>) returns (ok: bool)
      requires Valid()
      modifies this, tri
      ensures Valid()
      ensures ok == (|returns_| >= symbols)
      ensures !ok || (exists i :: 0 <= i < symbols && returns_[i].NonFinite?) ==>
                tri[..] == old(tri[..]) && fed == old(fed)
      ensures ok && (forall i :: 0 <= i < symbols ==> returns_[i].Finite?) ==>
                var r := seq(symbols, i requires 0 <= i < symbols && returns_[i].Finite? => returns_[i].value);
                fed == old(fed) + [r]
    {
      hide Psd;
      hide Fed;
      hide Updated;
      hide Products;
      if |returns_| < symbols { return false; }
      if exists i :: 0 <= i < symbols && returns_[i].NonFinite? { return true; }
      var r := seq(symbols, i requires 0 <= i < symbols && returns_[i].Finite? => returns_[i].value);
      UpdateKeepsPsd(tri[..], r, lam, samples == 0, symbols);
      FedPush(fed, r, lam, symbols);
      Fold(r, samples == 0);
      samples := samples + 1;
      fed := fed + [r];
      return true;
    }

    /** The nested pass over the triangle: one running index, row by row. */
    method Fold(r: seq<real>, seed: bool)
      requires |r| == symbols && tri.Length == Tri(symbols)
      modifies tri
      ensures tri[..] == Updated(old(tri[..]), Products(r, symbols), lam, seed)
    {
      hide Mul;
      hide Blend;
      hide Products;
      ghost var p, t0 := Products(r, symbols), tri[..];
      var k := 0;
      for i := 0 to symbols
        invariant k == Tri(i) <= Tri(symbols)
        invariant forall m :: 0 <= m < k ==> tri[m] == Blend(t0[m], p[m], lam, seed)
        invariant forall m :: k <= m < tri.Length ==> tri[m] == t0[m]
      {
        TriMonotone(i + 1, symbols);
        for j := 0 to i + 1
          invariant k == Tri(i) + j
          invariant forall m :: 0 <= m < k ==> tri[m] == Blend(t0[m], p[m], lam, seed)
          invariant forall m :: k <= m < tri.Length ==> tri[m] == t0[m]
        {
          ProductAt(r, symbols, i, j);
          tri[k] := Blend(tri[k], Mul(r[i], r[j]), lam, seed);
          k := k + 1;
        }
      }
      assert tri[..] == Updated(t0, p, lam, seed);
    }

    method Covariance(i: nat, j: nat) returns (c: real)
      requires Valid() && i < symbols && j < symbols
      ensures Tri(if i >= j then i else j) + (if i >= j then j else i) < tri.Length
      ensures c == Cov(tri[..], i, j)
      ensures Tri(i) + i < tri.Length && Tri(j) + j < tri.Length
      ensures c * c <= Entry(tri[..], i, i) * Entry(tri[..], j, j)
      ensures samples == 0 ==> c == 0.0
      ensures samples > 0 ==> c == Decayed(lam, Mul(fed[0][i], fed[0][j]), Comoves(fed, i, j))
    {
      hide Psd;
      hide Fed;
      hide Decayed;
      hide Comoves;
      EntryLearned(i, j);
      CovFits(i, j, symbols);
      CovFits(i, i, symbols);
      CovFits(j, j, symbols);
      AnyCovarianceBound(tri[..], symbols, i, j);
      if i >= j { c := At(i, j); } else { c := At(j, i); }
    }

    method At(i: nat, j: nat) returns (c: real)
      requires tri.Length == Tri(symbols) && j <= i < symbols
      ensures Tri(i) + j < tri.Length && c == Entry(tri[..], i, j)
    {
      CovFits(i, j, symbols);
      TriClosed(i);
      return tri[i * (i + 1) / 2 + j];
    }

    lemma EntryLearned(i: nat, j: nat)
      requires Valid() && i < symbols && j < symbols
      ensures Tri(if i >= j then i else j) + (if i >= j then j else i) < tri.Length
      ensures samples == 0 ==> Cov(tri[..], i, j) == 0.0
      ensures samples > 0 ==> Cov(tri[..], i, j) == Decayed(lam, Mul(fed[0][i], fed[0][j]), Comoves(fed, i, j))
    {
      hide Psd;
      hide Decayed;
      CovFits(i, j, symbols);
      var hi, lo := if i >= j then i else j, if i >= j then j else i;
      if samples > 0 {
        EntryIsDecayed(fed, lam, symbols, hi, lo);
        if i < j {
          assert Comoves(fed, hi, lo) == Comoves(fed, i, j);
        }
      }
    }

    /** `w' Sigma w`, never negative; `None` would be the length error of the caller. */
    method PortfolioVariance(w: seq<real>) returns (total: real)
      requires Valid() && |w| >= symbols
      ensures total == Quad(tri[..], w, symbols) && total >= 0.0
      ensures samples > 0 ==>
                total == Decayed(lam, Mul(Dot(w, fed[0], symbols), Dot(w, fed[0], symbols)), SquaredReturns(fed, w, symbols))
    {
      hide Decayed;
      hide Fed;
      hide Psd;
      hide SquaredReturns;
      if samples > 0 { VarianceIsDecayed(fed, lam, symbols, w); }
      PsdVariance(tri[..], w, symbols);
      total := 0.0;
      var k := 0;
      ghost var t := tri[..];
      for i := 0 to symbols
        invariant k == Tri(i) <= Tri(symbols)
        invariant total == Quad(t, w, i)
      {
        TriMonotone(i + 1, symbols);
        for j := 0 to i + 1
          invariant k == Tri(i) + j
          invariant total == Quad(t, w, i) + Row(t, w, i, j)
        {
          assert tri[k] == Entry(t, i, j);
          var term := Mul(Mul(w[i], w[j]), tri[k]);
          total := total + if i == j then term else 2.0 * term;
          k := k + 1;
        }
      }
    }

    method SigmaRow(w: seq<real>, i: nat) returns (sigmaW: real)
      requires Valid() && |w| >= symbols && i < symbols
      ensures sigmaW == SigmaW(tri[..], w, symbols, i, symbols)
    {
      sigmaW := 0.0;
      for j := 0 to symbols
        invariant sigmaW == SigmaW(tri[..], w, symbols, i, j)
      {
        var c := Covariance(i, j);
        sigmaW := sigmaW + Mul(c, w[j]);
      }
    }

    /** Each symbol's share of the variance; zeros while the variance is not positive. */
    method MarginalContribution(w: seq<real>, out: array<real>) returns (total: real)
      requires Valid() && |w| >= symbols && out.Length >= symbols && out != tri
      modifies out
      ensures Valid() && total == Quad(tri[..], w, symbols)
      ensures total <= 0.0 ==> forall i :: 0 <= i < symbols ==> out[i] == 0.0
      ensures total > 0.0 ==> Total(out[..], symbols) == 1.0
      ensures total > 0.0 ==> forall i :: 0 <= i < symbols ==>
                out[i] == Mul(w[i], SigmaW(tri[..], w, symbols, i, symbols)) / total
      ensures forall i :: symbols <= i < out.Length ==> out[i] == old(out[i])
    {
      hide Mul;
      hide Psd;
      total := PortfolioVariance(w);
      ghost var t := tri[..];
      if total <= 0.0 {
        for i := 0 to symbols
          invariant forall k :: 0 <= k < i ==> out[k] == 0.0
          invariant forall k :: symbols <= k < out.Length ==> out[k] == old(out[k])
          invariant tri[..] == t
        {
          out[i] := 0.0;
        }
        return;
      }
      for i := 0 to symbols
        invariant forall k :: 0 <= k < i ==> out[k] == Mul(w[k], SigmaW(t, w, symbols, k, symbols)) / total
        invariant forall k :: symbols <= k < out.Length ==> out[k] == old(out[k])
        invariant tri[..] == t
      {
        var sigmaW := SigmaRow(w, i);
        out[i] := Mul(w[i], sigmaW) / total;
      }
      SharesSumToOne(t, w, symbols, out[..]);
    }
  }
}
