/** Big-endian integers as `struct` packs and unpacks them. */
module BigEndian {
  type byte = x: int | 0 <= x < 256

  type Bytes = seq<byte>

  function Pow256(n: nat): (r: int)
    ensures r > 0
  {
    if n == 0 then 1 else 256 * Pow256(n - 1)
  }

  /** The low `n` bytes of `v`, two's complement when negative. */
  function Pack(v: int, n: nat): (r: Bytes)
    ensures |r| == n
    decreases n
  {
    if n == 0 then [] else Pack(v / 256, n - 1) + [v % 256]
  }

  function Unpack(s: Bytes): (r: int)
    ensures 0 <= r < Pow256(|s|)
  {
    if s == [] then 0 else Unpack(s[..|s| - 1]) * 256 + s[|s| - 1]
  }

  lemma {:induction false} UnpackPack(v: int, n: nat)
    ensures Unpack(Pack(v, n)) == v % Pow256(n)
    decreases n
  {
    if n != 0 {
      UnpackPack(v / 256, n - 1);
      assert Pack(v, n)[..n - 1] == Pack(v / 256, n - 1);
      ModSplit(v, Pow256(n - 1));
    }
  }

  /** Most significant byte first. */
  lemma {:induction false} PackAt(v: int, n: nat, k: nat)
    requires k < n
    ensures Pack(v, n)[k] == v / Pow256(n - 1 - k) % 256
    decreases n
  {
    if k < n - 1 {
      PackAt(v / 256, n - 1, k);
      DivSplit(v, Pow256(n - 2 - k));
    }
  }

  lemma ModSplit(v: int, p: int)
    requires p > 0
    ensures v % (256 * p) == (v / 256) % p * 256 + v % 256
  {
    var q, r := v / 256 / p, v / 256 % p;
    var low := r * 256 + v % 256;
    assert v == q * (256 * p) + low by {
      assert v / 256 == q * p + r;
      assert v == 256 * (q * p + r) + v % 256;
      assert 256 * (q * p) == q * (256 * p);
    }
    assert 0 <= low < 256 * p;
    ModUnique(v, 256 * p, q, low);
  }

  lemma MulAtLeast(d: int, m: int)
    requires m > 0
    ensures d >= 1 ==> d * m >= m
    ensures d <= -1 ==> d * m <= -m
  {
  }

  lemma ModUnique(v: int, m: int, q: int, low: int)
    requires m > 0 && v == q * m + low && 0 <= low < m
    ensures v % m == low
  {
    var d := v / m - q;
    assert v % m == v - (v / m) * m;
    assert v % m - low == -d * m;
    MulAtLeast(d, m);
  }

  lemma {:induction false} PackUnpack(s: Bytes)
    ensures Pack(Unpack(s), |s|) == s
  {
    if s != [] {
      PackUnpack(s[..|s| - 1]);
      assert s == s[..|s| - 1] + [s[|s| - 1]];
    }
  }

  /** The high bytes come from the quotient, the low bytes from the remainder. */
  lemma {:induction false} PackSplit(v: int, a: nat, b: nat)
    ensures Pack(v, a + b) == Pack(v / Pow256(b), a) + Pack(v % Pow256(b), b)
    decreases b
  {
    if b != 0 {
      var p := Pow256(b - 1);
      PackSplit(v / 256, a, b - 1);
      ModSplit(v, p);
      DivSplit(v, p);
      var low := v % (256 * p);
      assert low / 256 == (v / 256) % p && low % 256 == v % 256;
    }
  }

  lemma DivSplit(v: int, p: int)
    requires p > 0
    ensures v / 256 / p == v / (256 * p)
  {
    var q := v / 256 / p;
    ModSplit(v, p);
    var m := 256 * p;
    assert v == q * m + v % m by {
      assert v / 256 == q * p + (v / 256) % p;
      assert 256 * (q * p) == q * m;
    }
    assert (v / m - q) * m == 0 by {
      assert v == (v / m) * m + v % m;
    }
    MulAtLeast(v / m - q, m);
  }

  /** `m` written over `s` at `at`. */
  function Splice(s: Bytes, at: nat, m: Bytes): Bytes
    requires at + |m| <= |s|
  {
    s[..at] + m + s[at + |m|..]
  }

  /** Two adjacent writes are one. */
  lemma SpliceTwice(s: Bytes, at: nat, a: Bytes, b: Bytes)
    requires at + |a| + |b| <= |s|
    ensures Splice(Splice(s, at, a), at + |a|, b) == Splice(s, at, a + b)
  {
  }

  /** `struct.pack_into`: the packed value goes into the buffer, nothing else moves. */
  method Put(buf: array<byte>, at: nat, v: int, n: nat)
    requires at + n <= buf.Length
    modifies buf
    ensures buf[..] == Splice(old(buf[..]), at, Pack(v, n))
  {
    var rest, k := v, n;
    while k > 0
      invariant 0 <= k <= n
      invariant Pack(v, n) == Pack(rest, k) + buf[at + k..at + n]
      invariant buf[..at + k] == old(buf[..at + k]) && buf[at + n..] == old(buf[at + n..])
    {
      k := k - 1;
      ghost var done := buf[at + k + 1..at + n];
      buf[at + k] := rest % 256;
      assert buf[at + k..at + n] == [rest % 256] + done;
      assert Pack(rest, k + 1) == Pack(rest / 256, k) + [rest % 256];
      rest := rest / 256;
    }
    assert buf[..] == buf[..at] + buf[at..at + n] + buf[at + n..];
  }

  /** One byte stored. */
  method Set(buf: array<byte>, at: nat, b: byte)
    requires at < buf.Length
    modifies buf
    ensures buf[..] == Splice(old(buf[..]), at, [b])
  {
    buf[at] := b;
  }
}
