/** Dot products and bilinear forms over sequences, with the laws the hedge optimizer needs. */
module LinearAlgebra {
  import opened RealAlgebra
  import opened RealSums

  type Vec = seq<real>

  type Mat = seq<seq<real>>

  predicate Square(s: Mat, n: nat) {
    |s| == n && forall f :: 0 <= f < n ==> |s[f]| == n
  }

  predicate Symmetric(s: Mat, n: nat)
    requires Square(s, n)
  {
    forall f, g :: 0 <= f < n && 0 <= g < n ==> s[f][g] == s[g][f]
  }

  /** x' S y over the first `k` rows and `m` columns. */
  function Partial(s: Mat, x: Vec, y: Vec, n: nat, k: nat, m: nat): real
    requires Square(s, n) && |x| == n && |y| == n && k <= n && m <= n
  {
    if k == 0 then 0.0 else Partial(s, x, y, n, k - 1, m) + Mul(x[k - 1], Dot(s[k - 1], y, m))
  }

  function Form(s: Mat, x: Vec, y: Vec, n: nat): real
    requires Square(s, n) && |x| == n && |y| == n
  {
    Partial(s, x, y, n, n, n)
  }

  ghost predicate Psd(s: Mat, n: nat)
    requires Square(s, n)
  {
    forall x: Vec :: |x| == n ==> Form(s, x, x, n) >= 0.0
  }

  /** x + a*y */
  function Plus(x: Vec, a: real, y: Vec): (z: Vec)
    requires |x| == |y|
    ensures |z| == |x| && forall k :: 0 <= k < |x| ==> z[k] == x[k] + Mul(a, y[k])
  {
    seq(|x|, k requires 0 <= k < |x| => x[k] + Mul(a, y[k]))
  }

  lemma {:induction false} DotPlus(v: Vec, x: Vec, a: real, y: Vec, n: nat)
    requires |x| == |y| && n <= |x| && n <= |v|
    ensures Dot(v, Plus(x, a, y), n) == Dot(v, x, n) + Mul(a, Dot(v, y, n))
  {
    hide Mul;
    if n == 0 {
      MulUnits(a);
    } else {
      DotPlus(v, x, a, y, n - 1);
      var p, q, r := v[n - 1], x[n - 1], y[n - 1];
      MulAdd(p, q, Mul(a, r));
      MulAdd(a, Dot(v, y, n - 1), Mul(p, r));
      MulAssoc(p, a, r);
      MulCommutes(p, a);
      MulAssoc(a, p, r);
    }
  }

  lemma {:induction false} PartialPlusRight(s: Mat, v: Vec, x: Vec, a: real, y: Vec, n: nat, k: nat)
    requires Square(s, n) && |v| == n && |x| == n && |y| == n && k <= n
    ensures Partial(s, v, Plus(x, a, y), n, k, n) == Partial(s, v, x, n, k, n) + Mul(a, Partial(s, v, y, n, k, n))
    decreases k
  {
    hide Mul;
    if k == 0 {
      MulUnits(a);
    } else {
      PartialPlusRight(s, v, x, a, y, n, k - 1);
      DotPlus(s[k - 1], x, a, y, n);
      var p, d, e := v[k - 1], Dot(s[k - 1], x, n), Dot(s[k - 1], y, n);
      MulAdd(p, d, Mul(a, e));
      MulAdd(a, Partial(s, v, y, n, k - 1, n), Mul(p, e));
      MulAssoc(p, a, e);
      MulCommutes(p, a);
      MulAssoc(a, p, e);
    }
  }

  lemma {:induction false} PartialPlusLeft(s: Mat, x: Vec, a: real, y: Vec, v: Vec, n: nat, k: nat)
    requires Square(s, n) && |v| == n && |x| == n && |y| == n && k <= n
    ensures Partial(s, Plus(x, a, y), v, n, k, n) == Partial(s, x, v, n, k, n) + Mul(a, Partial(s, y, v, n, k, n))
    decreases k
  {
    hide Mul;
    if k == 0 {
      MulUnits(a);
    } else {
      PartialPlusLeft(s, x, a, y, v, n, k - 1);
      var d := Dot(s[k - 1], v, n);
      MulAdd(d, x[k - 1], Mul(a, y[k - 1]));
      MulAdd(a, Partial(s, y, v, n, k - 1, n), Mul(y[k - 1], d));
      MulAssoc(a, y[k - 1], d);
    }
  }

  /** Column `m` of S against the first `k` entries of `x`. */
  function Column(s: Mat, x: Vec, n: nat, m: nat, k: nat): real
    requires Square(s, n) && |x| == n && k <= n && m < n
  {
    if k == 0 then 0.0 else Column(s, x, n, m, k - 1) + Mul(x[k - 1], s[k - 1][m])
  }

  lemma {:induction false} AddColumn(s: Mat, x: Vec, y: Vec, n: nat, k: nat, m: nat)
    requires Square(s, n) && |x| == n && |y| == n && k <= n && m < n
    ensures Partial(s, x, y, n, k, m + 1) == Partial(s, x, y, n, k, m) + Mul(Column(s, x, n, m, k), y[m])
    decreases k
  {
    hide Mul;
    if k == 0 {
      MulUnits(y[m]);
    } else {
      AddColumn(s, x, y, n, k - 1, m);
      MulAdd(x[k - 1], Dot(s[k - 1], y, m), Mul(s[k - 1][m], y[m]));
      MulAdd(y[m], Column(s, x, n, m, k - 1), Mul(x[k - 1], s[k - 1][m]));
      MulAssoc(x[k - 1], s[k - 1][m], y[m]);
    }
  }

  lemma {:induction false} ColumnIsRow(s: Mat, x: Vec, n: nat, m: nat, k: nat)
    requires Square(s, n) && Symmetric(s, n) && |x| == n && k <= n && m < n
    ensures Column(s, x, n, m, k) == Dot(s[m], x, k)
    decreases k
  {
    hide Mul;
    if k != 0 {
      ColumnIsRow(s, x, n, m, k - 1);
      MulCommutes(x[k - 1], s[k - 1][m]);
    }
  }

  lemma {:induction false} PartialZeroColumns(s: Mat, x: Vec, y: Vec, n: nat, k: nat)
    requires Square(s, n) && |x| == n && |y| == n && k <= n
    ensures Partial(s, x, y, n, k, 0) == 0.0
    decreases k
  {
    hide Mul;
    if k != 0 {
      PartialZeroColumns(s, x, y, n, k - 1);
      MulUnits(x[k - 1]);
    }
  }

  lemma {:induction false} PartialSwap(s: Mat, x: Vec, y: Vec, n: nat, k: nat, m: nat)
    requires Square(s, n) && Symmetric(s, n) && |x| == n && |y| == n && k <= n && m <= n
    ensures Partial(s, x, y, n, k, m) == Partial(s, y, x, n, m, k)
    decreases m
  {
    hide Mul;
    if m == 0 {
      PartialZeroColumns(s, x, y, n, k);
    } else {
      PartialSwap(s, x, y, n, k, m - 1);
      AddColumn(s, x, y, n, k, m - 1);
      ColumnIsRow(s, x, n, m - 1, k);
      MulCommutes(Column(s, x, n, m - 1, k), y[m - 1]);
    }
  }

  lemma FormSwap(s: Mat, x: Vec, y: Vec, n: nat)
    requires Square(s, n) && Symmetric(s, n) && |x| == n && |y| == n
    ensures Form(s, x, y, n) == Form(s, y, x, n)
  {
    PartialSwap(s, x, y, n, n, n);
  }

  /** (x + a*y)' S (x + a*y) = x'Sx + 2a x'Sy + a^2 y'Sy. */
  lemma {:induction false} FormOfSum(s: Mat, x: Vec, a: real, y: Vec, n: nat)
    requires Square(s, n) && Symmetric(s, n) && |x| == n && |y| == n
    ensures Form(s, Plus(x, a, y), Plus(x, a, y), n)
         == Form(s, x, x, n) + 2.0 * Mul(a, Form(s, y, x, n)) + Mul(a, Mul(a, Form(s, y, y, n)))
  {
    hide Mul;
    hide Partial;
    var z := Plus(x, a, y);
    PartialPlusLeft(s, x, a, y, z, n, n);
    PartialPlusRight(s, x, x, a, y, n, n);
    PartialPlusRight(s, y, x, a, y, n, n);
    FormSwap(s, x, y, n);
    MulAdd(a, Form(s, y, x, n), Mul(a, Form(s, y, y, n)));
  }

  /** A direction without variance has no covariance with anything. */
  lemma {:induction false} NullDirection(s: Mat, v: Vec, y: Vec, n: nat)
    requires Square(s, n) && Symmetric(s, n) && Psd(s, n) && |v| == n && |y| == n
    requires Form(s, v, v, n) == 0.0
    ensures Form(s, v, y, n) == 0.0
  {
    hide Form;
    var q, b := Form(s, y, y, n), Form(s, v, y, n);
    forall a: real
      ensures Tilt(q, b, a) >= 0.0
    {
      FormOfSum(s, y, a, v, n);
      MulUnits(a);
      assert Form(s, Plus(y, a, v), Plus(y, a, v), n) >= 0.0;
    }
    OnlyLevelLines(q, b);
  }

  function Tilt(q: real, b: real, a: real): real { q + 2.0 * Mul(a, b) }

  lemma OnlyLevelLines(q: real, b: real)
    requires forall a: real :: Tilt(q, b, a) >= 0.0
    ensures b == 0.0
  {
    if b != 0.0 {
      BelowZero(q, b);
    }
  }

  lemma BelowZero(q: real, b: real)
    requires b != 0.0
    ensures Tilt(q, b, -(q + 1.0) / (2.0 * b)) < 0.0
  {
    var a := -(q + 1.0) / (2.0 * b);
    assert a * b == -(q + 1.0) / 2.0;
    assert Mul(a, b) == a * b;
    assert Tilt(q, b, a) == q + 2.0 * (-(q + 1.0) / 2.0);
  }
}
