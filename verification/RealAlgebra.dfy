/**
 Products as terms.  Proofs over sums hide `Mul` and use these laws, so that the
 verifier reasons linearly about products it does not look into.
 */
module RealAlgebra {
  function Mul(a: real, b: real): real { a * b }

  lemma MulAdd(a: real, b: real, c: real)
    ensures Mul(a, b + c) == Mul(a, b) + Mul(a, c)
    ensures Mul(b + c, a) == Mul(b, a) + Mul(c, a)
  {
  }

  lemma MulSub(a: real, b: real, c: real)
    ensures Mul(a, b - c) == Mul(a, b) - Mul(a, c)
    ensures Mul(b - c, a) == Mul(b, a) - Mul(c, a)
  {
  }

  lemma MulCommutes(a: real, b: real)
    ensures Mul(a, b) == Mul(b, a)
  {
  }

  lemma MulAssoc(a: real, b: real, c: real)
    ensures Mul(Mul(a, b), c) == Mul(a, Mul(b, c))
  {
  }

  lemma MulUnits(a: real)
    ensures Mul(a, 0.0) == 0.0 == Mul(0.0, a) && Mul(1.0, a) == a == Mul(a, 1.0)
  {
  }

  lemma MulCross(a: real, b: real, c: real, d: real)
    ensures Mul(Mul(a, b), Mul(c, d)) == Mul(Mul(a, c), Mul(b, d))
  {
    assert a * b * (c * d) == a * c * (b * d);
  }

  lemma MulSquare(d: real, x: real)
    ensures Mul(d + x, d + x) == Mul(d, d) + 2.0 * Mul(x, d) + Mul(x, x)
  {
  }

  lemma MulNonNegative(a: real, b: real)
    requires (a >= 0.0 && b >= 0.0) || (a <= 0.0 && b <= 0.0)
    ensures Mul(a, b) >= 0.0
  {
  }

  lemma SquareNonNegative(a: real)
    ensures Mul(a, a) >= 0.0
    ensures a != 0.0 ==> Mul(a, a) > 0.0
  {
    if a > 0.0 {
      MulPositive(a, a);
    } else if a < 0.0 {
      MulPositive(-a, -a);
      assert Mul(-a, -a) == Mul(a, a);
    }
  }

  lemma MulPositive(a: real, b: real)
    requires a > 0.0 && b > 0.0
    ensures Mul(a, b) > 0.0
  {
  }

  lemma DivSelf(t: real)
    requires t != 0.0
    ensures t / t == 1.0
  {
  }

  lemma DivAdd(a: real, b: real, t: real)
    requires t != 0.0
    ensures (a + b) / t == a / t + b / t
  {
  }

  lemma QuotientNonNegative(a: real, b: real)
    requires a >= 0.0 && b > 0.0
    ensures a / b >= 0.0
  {
  }

  lemma MulDiv(a: real, b: real)
    requires b != 0.0
    ensures Mul(a, b) / b == a
  {
  }
}
