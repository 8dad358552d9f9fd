/** The non-finite values of a floating-point quantity, around exact reals. */
module ExtendedReals {
  import opened RealAlgebra

  datatype Number = NaN | MinusInfinity | Finite(value: real) | PlusInfinity

  const ZERO := Finite(0.0)

  /** Comparisons with NaN are false. */
  predicate Less(a: Number, b: Number) {
    match (a, b)
    case (Finite(x), Finite(y)) => x < y
    case (Finite(_), PlusInfinity) => true
    case (MinusInfinity, Finite(_)) => true
    case (MinusInfinity, PlusInfinity) => true
    case _ => false
  }

  /** Positive and finite. */
  predicate Usable(a: Number) { Less(ZERO, a) && Less(a, PlusInfinity) }

  /** Opposite infinities cancel to NaN. */
  function Plus(a: Number, b: Number): Number {
    match (a, b)
    case (Finite(x), Finite(y)) => Finite(x + y)
    case (Finite(_), _) => b
    case (_, Finite(_)) => a
    case _ => if a == b then a else NaN
  }

  /** A number times a finite factor: infinity times zero is NaN. */
  function Times(a: Number, k: real): Number {
    match a
    case NaN => NaN
    case Finite(x) => Finite(Mul(x, k))
    case _ => if k == 0.0 then NaN else if k > 0.0 then a else if a.PlusInfinity? then MinusInfinity else PlusInfinity
  }

  /** Division by a positive number: finite over infinity is zero, infinity over infinity NaN. */
  function Over(a: Number, b: Number): Number
    requires Less(ZERO, b)
  {
    match a
    case NaN => NaN
    case Finite(x) => if b.PlusInfinity? then ZERO else Finite(x / b.value)
    case _ => if b.PlusInfinity? then NaN else a
  }
}
