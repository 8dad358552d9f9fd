/**
 Numbers on the wire: the shared field parsers and the encoder's scaled decimal price, which
 reads back as exactly the same mantissa and number of decimals.
 */
module FixNumbers {
  import opened Outcomes
  import opened FixText

  function Pow10(d: nat): (p: nat)
    ensures p > 0
  {
    if d == 0 then 1 else 10 * Pow10(d - 1)
  }

  // ----- what the parsers read ------------------------------------------------

  /** All characters but decimal points, read as digits. */
  function Digits(s: string): int {
    if s == [] then 0
    else
      var c, before := s[|s| - 1], Digits(s[..|s| - 1]);
      if c == '.' then before else before * 10 + (c as int - 48)
  }

  function SignedDigits(s: string): int {
    if s != [] && s[0] == '-' then -Digits(s[1..]) else Digits(s)
  }

  function Decimals(s: string): nat {
    var dot := IndexFrom(s, '.', 0);
    if dot == |s| then 0 else |s| - dot - 1
  }

  method PriceMantissa(buf: string, frm: nat, to: nat) returns (mantissa: int)
    requires frm <= to <= |buf|
    ensures mantissa == SignedDigits(buf[frm..to])
  {
    var negative := frm < to && buf[frm] == '-';
    mantissa := 0;
    var start := if negative then frm + 1 else frm;
    assert negative ==> buf[frm..to][1..] == buf[start..to];
    for i := start to to
      invariant mantissa == Digits(buf[start..i])
    {
      assert buf[start..i + 1][..i - start] == buf[start..i];
      if buf[i] != '.' { mantissa := mantissa * 10 + (buf[i] as int - 48); }
    }
    if negative { mantissa := -mantissa; }
  }

  method PriceDecimals(buf: string, frm: nat, to: nat) returns (decimals: nat)
    requires frm <= to <= |buf|
    ensures decimals == Decimals(buf[frm..to])
  {
    for i := frm to to
      invariant forall k :: frm <= k < i ==> buf[k] != '.'
    {
      if buf[i] == '.' {
        IndexIs(buf[frm..to], '.', 0, i - frm);
        return to - i - 1;
      }
    }
    return 0;
  }

  /** A quantity: digits, then at most a zero fraction; a minus sign or a real fraction is an error. */
  function Quantity(s: string): Result<int, string> {
    var dot := IndexFrom(s, '.', 0);
    if '-' in s[..dot] then Err("negative quantity field")
    else if exists k :: dot < k < |s| && s[k] != '0' then Err("fractional quantity not representable as long")
    else Ok(Digits(s[..dot]))
  }

  method ParseLong(buf: string, frm: nat, to: nat) returns (r: Result<int, string>)
    requires frm <= to <= |buf|
    ensures r == Quantity(buf[frm..to])
  {
    var v := 0;
    ghost var s := buf[frm..to];
    for i := frm to to
      invariant v == Digits(s[..i - frm])
      invariant forall k :: 0 <= k < i - frm ==> s[k] != '-' && s[k] != '.'
    {
      var b := buf[i];
      ghost var n := i - frm;
      assert s[..n + 1][..n] == s[..n];
      if b == '-' {
        assert s[n] in s[..IndexFrom(s, '.', 0)];
        return Err("negative quantity field");
      }
      if b == '.' {
        IndexIs(s, '.', 0, n);
        for j := i + 1 to to
          invariant forall k :: n < k < j - frm ==> s[k] == '0'
        {
          if buf[j] != '0' {
            assert s[j - frm] != '0';
            return Err("fractional quantity not representable as long");
          }
        }
        return Ok(v);
      }
      v := v * 10 + (b as int - 48);
    }
    assert s[..|s|] == s;
    return Ok(v);
  }

  /** A foreign identifier falls back instead of failing. */
  method ParseLongOrElse(buf: string, frm: nat, to: nat, fallback: int) returns (v: int)
    requires frm <= to <= |buf|
    ensures v == if frm < to && AllDigits(buf[frm..to]) then Digits(buf[frm..to]) else fallback
  {
    v := 0;
    for i := frm to to
      invariant v == Digits(buf[frm..i]) && AllDigits(buf[frm..i])
    {
      assert buf[frm..i + 1][..i - frm] == buf[frm..i];
      if buf[i] < '0' || buf[i] > '9' {
        assert !IsDigit(buf[frm..to][i - frm]);
        return fallback;
      }
      v := v * 10 + (buf[i] as int - 48);
    }
    if frm == to { v := fallback; }
  }

  // ----- the scaled decimal ---------------------------------------------------

  function Zeros(n: nat): (z: string)
    ensures |z| == n && forall i :: 0 <= i < n ==> z[i] == '0'
  {
    seq(n, _ => '0')
  }

  /** Left padding with zeros to a minimum width. */
  function ZeroFill(s: string, width: nat): string {
    if |s| >= width then s else Zeros(width - |s|) + s
  }

  lemma DivNonNegative(a: int, b: int)
    requires a >= 0 && b > 0
    ensures a / b >= 0
  {
  }

  /** `None` where the source raises. */
  function RenderPrice(mantissa: int, decimals: int): Option<string> {
    if mantissa < 0 || decimals < 0 then None
    else if decimals == 0 then Some(Dec(mantissa))
    else
      var scale := Pow10(decimals);
      DivNonNegative(mantissa, scale);
      Some(Dec(mantissa / scale) + "." + ZeroFill(Dec(mantissa % scale), decimals))
  }

  lemma {:induction false} DigitsOfDec(n: nat)
    ensures Digits(Dec(n)) == n
  {
    if n < 10 {
      assert Dec(n)[..0] == [];
    } else {
      DigitsOfDec(n / 10);
      assert Dec(n)[..|Dec(n)| - 1] == Dec(n / 10);
    }
  }

  /** Digits without a point, appended to anything: the value shifts by their number. */
  lemma {:induction false} DigitsJoin(a: string, b: string)
    requires '.' !in b
    ensures Digits(a + b) == Digits(a) * Pow10(|b|) + Digits(b)
  {
    if b == [] {
      assert a + b == a;
    } else {
      var n := |b| - 1;
      DigitsJoin(a, b[..n]);
      assert (a + b)[..|a| + n] == a + b[..n];
      Shift(Digits(a), Pow10(n), Digits(b[..n]));
    }
  }

  lemma Shift(x: int, p: int, y: int)
    ensures (x * p + y) * 10 == x * (10 * p) + y * 10
  {
  }

  lemma {:induction false} DigitsOfZeros(n: nat)
    ensures Digits(Zeros(n)) == 0
  {
    if n != 0 {
      DigitsOfZeros(n - 1);
      assert Zeros(n)[..n - 1] == Zeros(n - 1);
    }
  }

  lemma {:induction false} DecWidth(n: nat, d: nat)
    requires d > 0 && n < Pow10(d)
    ensures |Dec(n)| <= d && '.' !in Dec(n) && '-' !in Dec(n)
  {
    assert forall c :: c in Dec(n) ==> IsDigit(c);
    if n >= 10 {
      assert d > 1;
      DecWidth(n / 10, d - 1);
    }
  }

  lemma FillWidth(n: nat, d: nat)
    requires d > 0 && n < Pow10(d)
    ensures var f := ZeroFill(Dec(n), d);
            |f| == d && '.' !in f && '-' !in f && Digits(f) == n
  {
    DecWidth(n, d);
    DigitsOfDec(n);
    var z := Zeros(d - |Dec(n)|);
    DigitsOfZeros(d - |Dec(n)|);
    DigitsJoin(z, Dec(n));
    assert ZeroFill(Dec(n), d) == z + Dec(n);
  }

  lemma DecHasNoPoint(n: nat)
    ensures '.' !in Dec(n) && '-' !in Dec(n)
  {
    assert forall c :: c in Dec(n) ==> IsDigit(c);
  }

  lemma Recompose(m: int, p: int)
    requires p > 0
    ensures m / p * p + m % p == m
  {
  }

  /** Two digit strings around a point: the decimals are the second one's length. */
  lemma PointReads(a: string, b: string)
    requires a != [] && '.' !in a && '-' !in a && '.' !in b
    ensures var s := a + "." + b;
            Decimals(s) == |b| && SignedDigits(s) == Digits(a) * Pow10(|b|) + Digits(b)
  {
    var s := a + "." + b;
    DigitsJoin(a + ".", b);
    assert (a + ".")[..|a|] == a;
    IndexIs(s, '.', 0, |a|);
    assert s[0] == a[0];
  }

  lemma WholeReads(a: string)
    requires a != [] && '.' !in a && '-' !in a
    ensures Decimals(a) == 0 && SignedDigits(a) == Digits(a)
  {
  }

  /** Every non-negative price reads back as itself. */
  lemma {:induction false} PriceRoundTrip(mantissa: nat, decimals: nat)
    ensures RenderPrice(mantissa, decimals).Some?
    ensures var s := RenderPrice(mantissa, decimals).value;
            SignedDigits(s) == mantissa && Decimals(s) == decimals
  {
    DecHasNoPoint(mantissa);
    DigitsOfDec(mantissa);
    WholeReads(Dec(mantissa));
    if decimals > 0 {
      var scale := Pow10(decimals);
      DivNonNegative(mantissa, scale);
      hide Pow10;
      hide Dec;
      hide Digits;
      hide ZeroFill;
      hide SignedDigits;
      hide Decimals;
      DecHasNoPoint(mantissa / scale);
      DigitsOfDec(mantissa / scale);
      FillWidth(mantissa % scale, decimals);
      PointReads(Dec(mantissa / scale), ZeroFill(Dec(mantissa % scale), decimals));
      Recompose(mantissa, scale);
    }
  }

  /** A leading minus sign negates: the reader's domain is wider than the encoder's. */
  lemma {:induction false} NegativePriceReads(mantissa: nat, decimals: nat)
    ensures RenderPrice(mantissa, decimals).Some?
    ensures var s := "-" + RenderPrice(mantissa, decimals).value;
            SignedDigits(s) == 0 - mantissa as int && Decimals(s) == decimals
  {
    PriceRoundTrip(mantissa, decimals);
    var t := RenderPrice(mantissa, decimals).value;
    var s := "-" + t;
    assert s[1..] == t && t[0] != '-';
    var dot := IndexFrom(t, '.', 0);
    if dot < |t| {
      IndexIs(s, '.', 0, dot + 1);
    } else {
      assert forall k :: 0 <= k < |s| ==> s[k] != '.';
    }
  }

  /** Rendered quantities read back, with or without a zero fraction. */
  lemma {:induction false} QuantityRoundTrip(n: nat, zeros: nat)
    ensures Quantity(Dec(n)) == Ok(n) && Quantity(Dec(n) + "." + Zeros(zeros)) == Ok(n)
  {
    DecHasNoPoint(n);
    DigitsOfDec(n);
    var s := Dec(n);
    assert s[..|s|] == s;
    var t := s + "." + Zeros(zeros);
    IndexIs(t, '.', 0, |s|);
    assert t[..|s|] == s;
  }
}
