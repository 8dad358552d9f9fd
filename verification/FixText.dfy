/** The string operations the FIX codec leans on: decimal rendering, Python's `int`, searching, splitting. */
module FixText {
  import opened Outcomes

  const SOH: char := 1 as char

  /** A latin-1 character is one byte on the wire. */
  predicate Latin1(s: string) {
    forall i :: 0 <= i < |s| ==> s[i] as int < 256
  }

  // ----- rendering ----------------------------------------------------------

  function Digit(d: nat): (c: char)
    requires d < 10
    ensures '0' <= c <= '9' && c as int - 48 == d
  {
    (48 + d) as char
  }

  predicate IsDigit(c: char) { '0' <= c <= '9' }

  predicate AllDigits(s: string) { forall i :: 0 <= i < |s| ==> IsDigit(s[i]) }

  function Dec(n: nat): (s: string)
    ensures s != [] && AllDigits(s)
  {
    if n < 10 then [Digit(n)] else Dec(n / 10) + [Digit(n % 10)]
  }

  /** `%03d` below 1000. */
  function Dec3(n: nat): (s: string)
    requires n < 1000
    ensures |s| == 3 && AllDigits(s)
  {
    [Digit(n / 100), Digit(n / 10 % 10), Digit(n % 10)]
  }

  // ----- Python's int() on latin-1 text --------------------------------------

  predicate IsSpace(c: char) {
    c as int in {9, 10, 11, 12, 13, 28, 29, 30, 31, 32, 0x85, 0xa0}
  }

  function TrimLeft(s: string): string {
    if s != [] && IsSpace(s[0]) then TrimLeft(s[1..]) else s
  }

  function TrimRight(s: string): string {
    if s != [] && IsSpace(s[|s| - 1]) then TrimRight(s[..|s| - 1]) else s
  }

  /** Digits with single underscores between them. */
  function Number(s: string, acc: int, needDigit: bool): Option<int> {
    if s == [] then if needDigit then None else Some(acc)
    else if IsDigit(s[0]) then Number(s[1..], acc * 10 + (s[0] as int - 48), false)
    else if s[0] == '_' && !needDigit then Number(s[1..], acc, true)
    else None
  }

  function PyInt(s: string): Option<int> {
    var t := TrimRight(TrimLeft(s));
    if t == [] then None
    else if t[0] == '-' then
      match Number(t[1..], 0, true) case Some(v) => Some(-v) case None => None
    else if t[0] == '+' then Number(t[1..], 0, true)
    else Number(t, 0, true)
  }

  lemma {:induction false} NumberSnoc(s: string, c: char, acc: int, needDigit: bool)
    requires AllDigits(s) && IsDigit(c)
    ensures s != [] ==> Number(s, acc, needDigit).Some?
    ensures Number(s + [c], acc, needDigit)
         == Some((if s == [] then acc else Number(s, acc, needDigit).value) * 10 + (c as int - 48))
  {
    if s == [] {
      assert (s + [c])[1..] == [];
    } else {
      assert (s + [c])[1..] == s[1..] + [c];
      NumberSnoc(s[1..], c, acc * 10 + (s[0] as int - 48), false);
      if s[1..] == [] { assert Number(s[1..], acc * 10 + (s[0] as int - 48), false) == Some(acc * 10 + (s[0] as int - 48)); }
    }
  }

  lemma {:induction false} NumberDec(n: nat)
    ensures Number(Dec(n), 0, true) == Some(n)
  {
    if n < 10 {
      NumberSnoc([], Digit(n), 0, true);
      assert [] + [Digit(n)] == Dec(n);
    } else {
      NumberDec(n / 10);
      NumberSnoc(Dec(n / 10), Digit(n % 10), 0, true);
    }
  }

  /** A rendered number reads back as itself. */
  lemma {:induction false} IntOfDec(n: nat)
    ensures PyInt(Dec(n)) == Some(n)
  {
    NumberDec(n);
    var s := Dec(n);
    assert IsDigit(s[0]) && IsDigit(s[|s| - 1]);
  }

  /** So does one with a minus sign. */
  lemma IntOfMinusDec(n: nat)
    ensures PyInt("-" + Dec(n)) == Some(0 - n)
  {
    NumberDec(n);
    var s := "-" + Dec(n);
    assert s[1..] == Dec(n) && s[|s| - 1] == Dec(n)[|Dec(n)| - 1];
  }

  // ----- searching ----------------------------------------------------------

  /** First position of `c` at or after `from`; the length when there is none. */
  function IndexFrom(s: string, c: char, from: nat): (i: nat)
    requires from <= |s|
    ensures from <= i <= |s|
    ensures i < |s| ==> s[i] == c
    ensures forall k :: from <= k < i ==> s[k] != c
    decreases |s| - from
  {
    if from == |s| || s[from] == c then from else IndexFrom(s, c, from + 1)
  }

  lemma IndexIs(s: string, c: char, from: nat, i: nat)
    requires from <= i < |s| && s[i] == c && forall k :: from <= k < i ==> s[k] != c
    ensures IndexFrom(s, c, from) == i
  {
  }

  /** Text appended behind a hit does not move it. */
  lemma IndexStable(s: string, t: string, c: char, from: nat)
    requires s <= t && from <= |s| && IndexFrom(s, c, from) < |s|
    ensures IndexFrom(t, c, from) == IndexFrom(s, c, from)
  {
    var i := IndexFrom(s, c, from);
    assert forall k :: from <= k <= i ==> t[k] == s[k];
    IndexIs(t, c, from, i);
  }

  predicate OccursAt(s: string, pat: string, i: nat) {
    i + |pat| <= |s| && s[i..i + |pat|] == pat
  }

  /** First occurrence at or after `from`; the length when there is none. */
  function FindFrom(s: string, pat: string, from: nat): (i: nat)
    requires from <= |s|
    ensures from <= i <= |s|
    ensures i < |s| ==> OccursAt(s, pat, i)
    ensures forall k :: from <= k < i ==> !OccursAt(s, pat, k)
    decreases |s| - from
  {
    if from == |s| || OccursAt(s, pat, from) then from else FindFrom(s, pat, from + 1)
  }

  /** Last occurrence starting before `before`; -1 when there is none. */
  function FindLast(s: string, pat: string, before: nat): (i: int)
    ensures -1 <= i < before
    ensures i >= 0 ==> OccursAt(s, pat, i)
    ensures forall k :: i < k < before ==> !OccursAt(s, pat, k)
  {
    if before == 0 then -1
    else if OccursAt(s, pat, before - 1) then before - 1
    else FindLast(s, pat, before - 1)
  }

  // ----- splitting ----------------------------------------------------------

  function Split(s: string): (r: seq<string>)
    ensures r != []
  {
    var i := IndexFrom(s, SOH, 0);
    if i == |s| then [s] else [s[..i]] + Split(s[i + 1..])
  }

  /** The piece before a delimiter comes off whole. */
  lemma SplitCons(p: string, rest: string)
    requires SOH !in p
    ensures Split(p + [SOH] + rest) == [p] + Split(rest)
  {
    var s := p + [SOH] + rest;
    IndexIs(s, SOH, 0, |p|);
    assert s[..|p|] == p && s[|p| + 1..] == rest;
  }

  lemma SplitLast(p: string)
    requires SOH !in p
    ensures Split(p) == [p]
  {
  }
}
