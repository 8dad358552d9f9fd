/**
 Exponential decay in closed form: what a recursively blended average weighs each of its inputs by.
 The streaming estimators are tied to it, so that the newest input carries `1 - lam` and older ones fade.
 */
module Decay {
  import opened RealAlgebra

  function Pow(x: real, n: nat): real { if n == 0 then 1.0 else Mul(x, Pow(x, n - 1)) }

  /** The first `m` of `n` inputs, the k-th weighed by `lam` to the power of its age `n - 1 - k`. */
  function Aged(lam: real, y: seq<real>, n: nat, m: nat): real
    requires m <= n && m <= |y|
  {
    if m == 0 then 0.0 else Aged(lam, y, n, m - 1) + Mul(Pow(lam, n - m), y[m - 1])
  }

  /** A start value and the inputs after it, decayed to the present. */
  function Decayed(lam: real, start: real, y: seq<real>): real {
    Mul(Pow(lam, |y|), start) + Mul(1.0 - lam, Aged(lam, y, |y|, |y|))
  }

  lemma {:induction false} AgedOnce(lam: real, y: seq<real>, x: real, n: nat, m: nat)
    requires m <= n && m <= |y|
    ensures Aged(lam, y + [x], n + 1, m) == Mul(lam, Aged(lam, y, n, m))
  {
    hide Mul;
    if m == 0 {
      MulUnits(lam);
    } else {
      AgedOnce(lam, y, x, n, m - 1);
      MulAdd(lam, Aged(lam, y, n, m - 1), Mul(Pow(lam, n - m), y[m - 1]));
      MulAssoc(lam, Pow(lam, n - m), y[m - 1]);
    }
  }

  /** Decaying one more input is one blend. */
  lemma DecayedStep(lam: real, start: real, y: seq<real>, x: real)
    ensures Decayed(lam, start, y + [x]) == Decayed(lam, start, y) + Mul(1.0 - lam, x - Decayed(lam, start, y))
  {
    hide Mul;
    hide Pow;
    var n := |y|;
    var before := Aged(lam, y, n, n);
    AgedOnce(lam, y, x, n, n);
    PowNext(lam, n);
    assert Aged(lam, y + [x], n + 1, n + 1) == Mul(lam, before) + Mul(Pow(lam, 0), x);
    MulUnits(x);
    MulAssoc(lam, Pow(lam, n), start);
    BlendScaled(lam, Mul(Pow(lam, n), start), before, x);
  }

  lemma PowNext(lam: real, n: nat)
    ensures Pow(lam, 0) == 1.0 && Pow(lam, n + 1) == Mul(lam, Pow(lam, n))
  {
  }

  lemma BlendScaled(lam: real, s: real, a: real, x: real)
    ensures var d := s + Mul(1.0 - lam, a);
            Mul(lam, s) + Mul(1.0 - lam, Mul(lam, a) + x) == d + Mul(1.0 - lam, x - d)
  {
    var k := 1.0 - lam;
    assert lam * s + k * (lam * a + x) == s + k * a + k * (x - (s + k * a)) by {
      assert k * (lam * a) == lam * (k * a);
      assert s + k * a - k * (s + k * a) == lam * (s + k * a);
    }
  }

  lemma NothingDecayed(lam: real, start: real)
    ensures Decayed(lam, start, []) == start
  {
    MulUnits(start);
    MulUnits(1.0 - lam);
  }
}
