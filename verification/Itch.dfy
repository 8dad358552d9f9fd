/**
 The ITCH 5.0 subset that drives the book: encoders write a caller's buffer in
 place, the view reads fields back at fixed offsets (Nasdaq TotalView-ITCH 5.0,
 section 1.3 "Add Order Message", 1.4 "Modify Order Messages", 1.5 "Trade Messages").
 */
module Itch {
  import opened BigEndian

  const ADD: byte := 65
  const ADD_MPID: byte := 70
  const EXECUTED: byte := 69
  const CANCEL: byte := 88
  const DELETE: byte := 68
  const REPLACE: byte := 85
  const TRADE: byte := 80
  const BUY: byte := 66

  const HAS_SIDE := {ADD, ADD_MPID, TRADE}
  const HAS_SHARES := {ADD, ADD_MPID, TRADE, REPLACE}
  const HAS_ORDER_REF := {ADD, ADD_MPID, EXECUTED, CANCEL, DELETE, REPLACE, TRADE}

  /** Wire length of a message type; -1 outside the subset. */
  function Length(t: byte): int {
    if t == ADD then 36
    else if t == ADD_MPID then 40
    else if t == EXECUTED then 31
    else if t == CANCEL then 23
    else if t == DELETE then 19
    else if t == REPLACE then 35
    else if t == TRADE then 44
    else -1
  }

  // ----- symbols ------------------------------------------------------------

  function StockBytes(symbol: Bytes): Bytes {
    seq(8, i requires 0 <= i < 8 => if i < |symbol| then symbol[i] else 32)
  }

  method PackStock(symbol: Bytes) returns (v: int)
    ensures v == Unpack(StockBytes(symbol))
  {
    v := 0;
    for i := 0 to 8
      invariant v == Unpack(StockBytes(symbol)[..i])
    {
      assert StockBytes(symbol)[..i + 1][..i] == StockBytes(symbol)[..i];
      v := v * 256 + if i < |symbol| then symbol[i] else 32;
    }
    assert StockBytes(symbol)[..8] == StockBytes(symbol);
  }

  function StripRight(s: Bytes): Bytes {
    if s != [] && s[|s| - 1] == 32 then StripRight(s[..|s| - 1]) else s
  }

  function UnpackStock(packed: int): Bytes {
    StripRight(Pack(packed, 8))
  }

  lemma {:induction false} StripPadding(s: Bytes, padded: Bytes)
    requires s <= padded && forall i :: |s| <= i < |padded| ==> padded[i] == 32
    ensures StripRight(padded) == StripRight(s)
    decreases |padded|
  {
    if |padded| > |s| {
      StripPadding(s, padded[..|padded| - 1]);
    } else {
      assert padded == s;
    }
  }

  /** A symbol of at most eight bytes comes back without its trailing blanks. */
  lemma StockRoundTrip(symbol: Bytes)
    requires |symbol| <= 8
    ensures UnpackStock(Unpack(StockBytes(symbol))) == StripRight(symbol)
  {
    hide Pack;
    hide Unpack;
    PackUnpack(StockBytes(symbol));
    assert symbol <= StockBytes(symbol);
    StripPadding(symbol, StockBytes(symbol));
  }

  // ----- the messages -------------------------------------------------------

  function Header(t: byte, locate: int, ts: int): (h: Bytes)
    ensures |h| == 11
  {
    [t] + Pack(locate, 2) + [0, 0] + Pack(ts, 6)
  }

  function AddMessage(locate: int, ts: int, ref: int, side: byte, shares: int, stock: int, price: int): (m: Bytes)
    ensures |m| == Length(ADD)
  {
    Header(ADD, locate, ts) + Pack(ref, 8) + [side] + Pack(shares, 4) + Pack(stock, 8) + Pack(price, 4)
  }

  function ExecutedMessage(locate: int, ts: int, ref: int, shares: int, matchNumber: int): (m: Bytes)
    ensures |m| == Length(EXECUTED)
  {
    Header(EXECUTED, locate, ts) + Pack(ref, 8) + Pack(shares, 4) + Pack(matchNumber, 8)
  }

  function CancelMessage(locate: int, ts: int, ref: int, shares: int): (m: Bytes)
    ensures |m| == Length(CANCEL)
  {
    Header(CANCEL, locate, ts) + Pack(ref, 8) + Pack(shares, 4)
  }

  function DeleteMessage(locate: int, ts: int, ref: int): (m: Bytes)
    ensures |m| == Length(DELETE)
  {
    Header(DELETE, locate, ts) + Pack(ref, 8)
  }

  function ReplaceMessage(locate: int, ts: int, origRef: int, newRef: int, shares: int, price: int): (m: Bytes)
    ensures |m| == Length(REPLACE)
  {
    Header(REPLACE, locate, ts) + Pack(origRef, 8) + Pack(newRef, 8) + Pack(shares, 4) + Pack(price, 4)
  }

  function TradeMessage(
    locate: int, ts: int, ref: int, side: byte, shares: int, stock: int, price: int, matchNumber: int): (m: Bytes)
    ensures |m| == Length(TRADE)
  {
    Header(TRADE, locate, ts) + Pack(ref, 8) + [side] + Pack(shares, 4) + Pack(stock, 8) + Pack(price, 4)
    + Pack(matchNumber, 8)
  }

  // ----- encoders -----------------------------------------------------------

  predicate U32(v: int) { 0 <= v < 0x1_0000_0000 }

  predicate U64(v: int) { 0 <= v < 0x1_0000_0000_0000_0000 }

  lemma TimestampBytes(ts: int)
    ensures Pack(ts, 6) == [ts / 0x100_0000_0000 % 256, ts / 0x1_0000_0000 % 256] + Pack(ts % 0x1_0000_0000, 4)
  {
    PackSplit(ts, 2, 4);
    assert Pow256(4) == 0x1_0000_0000 by { assert Pow256(2) == 0x1_0000; }
    var high := ts / 0x1_0000_0000;
    assert high / 256 == ts / 0x100_0000_0000;
    assert Pack(high, 2) == Pack(high / 256, 1) + [high % 256];
    assert Pack(high / 256, 1) == Pack(high / 256 / 256, 0) + [high / 256 % 256];
  }

  method PutHeader(buf: array<byte>, off: nat, t: byte, locate: int, ts: int)
    requires off + 11 <= buf.Length
    modifies buf
    ensures buf[..] == Splice(old(buf[..]), off, Header(t, locate, ts))
  {
    hide Pack;
    hide Splice;
    hide Header;
    ghost var s := buf[..];
    Set(buf, off, t);
    Put(buf, off + 1, locate, 2);
    SpliceTwice(s, off, [t], Pack(locate, 2));
    ghost var front := [t] + Pack(locate, 2);
    Set(buf, off + 3, 0);
    SpliceTwice(s, off, front, [0]);
    Set(buf, off + 4, 0);
    SpliceTwice(s, off, front + [0], [0]);
    ghost var b5, b6 := ts / 0x100_0000_0000 % 256, ts / 0x1_0000_0000 % 256;
    Set(buf, off + 5, ts / 0x100_0000_0000 % 256);
    SpliceTwice(s, off, front + [0] + [0], [b5]);
    Set(buf, off + 6, ts / 0x1_0000_0000 % 256);
    SpliceTwice(s, off, front + [0] + [0] + [b5], [b6]);
    Put(buf, off + 7, ts % 0x1_0000_0000, 4);
    SpliceTwice(s, off, front + [0] + [0] + [b5] + [b6], Pack(ts % 0x1_0000_0000, 4));
    HeaderBytes(t, locate, ts);
  }

  /** The header in the pieces it is written in. */
  lemma HeaderBytes(t: byte, locate: int, ts: int)
    ensures var front, b5, b6 := [t] + Pack(locate, 2), ts / 0x100_0000_0000 % 256, ts / 0x1_0000_0000 % 256;
            Header(t, locate, ts) == front + [0] + [0] + [b5] + [b6] + Pack(ts % 0x1_0000_0000, 4)
  {
    hide Pack;
    TimestampBytes(ts);
    var front, low := [t] + Pack(locate, 2), Pack(ts % 0x1_0000_0000, 4);
    assert front + [0] + [0] == front + [0, 0];
    assert front + [0, 0] + [ts / 0x100_0000_0000 % 256] + [ts / 0x1_0000_0000 % 256] + low
        == front + [0, 0] + ([ts / 0x100_0000_0000 % 256, ts / 0x1_0000_0000 % 256] + low);
  }

  method EncodeAdd(
    buf: array<byte>, off: nat, locate: int, ts: int, ref: int, side: byte, shares: int, stock: int, price: int)
    returns (n: nat)
    requires off + Length(ADD) <= buf.Length
    requires U64(ref) && U32(shares) && U64(stock)
    modifies buf
    ensures n == Length(ADD)
    ensures buf[..] == Splice(old(buf[..]), off, AddMessage(locate, ts, ref, side, shares, stock, price))
  {
    hide Pack;
    hide Header;
    ghost var s, h := buf[..], Header(ADD, locate, ts);
    PutHeader(buf, off, ADD, locate, ts);
    Put(buf, off + 11, ref, 8);
    SpliceTwice(s, off, h, Pack(ref, 8));
    Set(buf, off + 19, side);
    SpliceTwice(s, off, h + Pack(ref, 8), [side]);
    Put(buf, off + 20, shares, 4);
    SpliceTwice(s, off, h + Pack(ref, 8) + [side], Pack(shares, 4));
    Put(buf, off + 24, stock, 8);
    SpliceTwice(s, off, h + Pack(ref, 8) + [side] + Pack(shares, 4), Pack(stock, 8));
    Put(buf, off + 32, price, 4);
    SpliceTwice(s, off, h + Pack(ref, 8) + [side] + Pack(shares, 4) + Pack(stock, 8), Pack(price, 4));
    return 36;
  }

  method EncodeExecuted(
    buf: array<byte>, off: nat, locate: int, ts: int, ref: int, shares: int, matchNumber: int) returns (n: nat)
    requires off + Length(EXECUTED) <= buf.Length
    requires U64(ref) && U32(shares) && U64(matchNumber)
    modifies buf
    ensures n == Length(EXECUTED)
    ensures buf[..] == Splice(old(buf[..]), off, ExecutedMessage(locate, ts, ref, shares, matchNumber))
  {
    hide Pack;
    hide Header;
    ghost var s, h := buf[..], Header(EXECUTED, locate, ts);
    PutHeader(buf, off, EXECUTED, locate, ts);
    Put(buf, off + 11, ref, 8);
    SpliceTwice(s, off, h, Pack(ref, 8));
    Put(buf, off + 19, shares, 4);
    SpliceTwice(s, off, h + Pack(ref, 8), Pack(shares, 4));
    Put(buf, off + 23, matchNumber, 8);
    SpliceTwice(s, off, h + Pack(ref, 8) + Pack(shares, 4), Pack(matchNumber, 8));
    return 31;
  }

  method EncodeCancel(buf: array<byte>, off: nat, locate: int, ts: int, ref: int, shares: int) returns (n: nat)
    requires off + Length(CANCEL) <= buf.Length
    requires U64(ref) && U32(shares)
    modifies buf
    ensures n == Length(CANCEL)
    ensures buf[..] == Splice(old(buf[..]), off, CancelMessage(locate, ts, ref, shares))
  {
    hide Pack;
    hide Header;
    ghost var s, h := buf[..], Header(CANCEL, locate, ts);
    PutHeader(buf, off, CANCEL, locate, ts);
    Put(buf, off + 11, ref, 8);
    SpliceTwice(s, off, h, Pack(ref, 8));
    Put(buf, off + 19, shares, 4);
    SpliceTwice(s, off, h + Pack(ref, 8), Pack(shares, 4));
    return 23;
  }

  method EncodeDelete(buf: array<byte>, off: nat, locate: int, ts: int, ref: int) returns (n: nat)
    requires off + Length(DELETE) <= buf.Length
    requires U64(ref)
    modifies buf
    ensures n == Length(DELETE)
    ensures buf[..] == Splice(old(buf[..]), off, DeleteMessage(locate, ts, ref))
  {
    hide Pack;
    hide Header;
    ghost var s, h := buf[..], Header(DELETE, locate, ts);
    PutHeader(buf, off, DELETE, locate, ts);
    Put(buf, off + 11, ref, 8);
    SpliceTwice(s, off, h, Pack(ref, 8));
    return 19;
  }

  method EncodeReplace(
    buf: array<byte>, off: nat, locate: int, ts: int, origRef: int, newRef: int, shares: int, price: int)
    returns (n: nat)
    requires off + Length(REPLACE) <= buf.Length
    requires U64(origRef) && U64(newRef) && U32(shares)
    modifies buf
    ensures n == Length(REPLACE)
    ensures buf[..] == Splice(old(buf[..]), off, ReplaceMessage(locate, ts, origRef, newRef, shares, price))
  {
    hide Pack;
    hide Header;
    ghost var s, h := buf[..], Header(REPLACE, locate, ts);
    PutHeader(buf, off, REPLACE, locate, ts);
    Put(buf, off + 11, origRef, 8);
    SpliceTwice(s, off, h, Pack(origRef, 8));
    Put(buf, off + 19, newRef, 8);
    SpliceTwice(s, off, h + Pack(origRef, 8), Pack(newRef, 8));
    Put(buf, off + 27, shares, 4);
    SpliceTwice(s, off, h + Pack(origRef, 8) + Pack(newRef, 8), Pack(shares, 4));
    Put(buf, off + 31, price, 4);
    SpliceTwice(s, off, h + Pack(origRef, 8) + Pack(newRef, 8) + Pack(shares, 4), Pack(price, 4));
    return 35;
  }

  method EncodeTrade(
    buf: array<byte>, off: nat, locate: int, ts: int, ref: int, side: byte, shares: int, stock: int, price: int,
    matchNumber: int) returns (n: nat)
    requires off + Length(TRADE) <= buf.Length
    requires U64(ref) && U32(shares) && U64(stock) && U64(matchNumber)
    modifies buf
    ensures n == Length(TRADE)
    ensures buf[..] == Splice(old(buf[..]), off, TradeMessage(locate, ts, ref, side, shares, stock, price, matchNumber))
  {
    hide Pack;
    hide Header;
    ghost var s, h := buf[..], Header(TRADE, locate, ts);
    PutHeader(buf, off, TRADE, locate, ts);
    Put(buf, off + 11, ref, 8);
    SpliceTwice(s, off, h, Pack(ref, 8));
    Set(buf, off + 19, side);
    SpliceTwice(s, off, h + Pack(ref, 8), [side]);
    Put(buf, off + 20, shares, 4);
    SpliceTwice(s, off, h + Pack(ref, 8) + [side], Pack(shares, 4));
    Put(buf, off + 24, stock, 8);
    SpliceTwice(s, off, h + Pack(ref, 8) + [side] + Pack(shares, 4), Pack(stock, 8));
    Put(buf, off + 32, price, 4);
    SpliceTwice(s, off, h + Pack(ref, 8) + [side] + Pack(shares, 4) + Pack(stock, 8), Pack(price, 4));
    Put(buf, off + 36, matchNumber, 8);
    SpliceTwice(s, off, h + Pack(ref, 8) + [side] + Pack(shares, 4) + Pack(stock, 8) + Pack(price, 4), Pack(matchNumber, 8));
    return 44;
  }

  // ----- the view -----------------------------------------------------------

  function Read(buf: Bytes, at: int, n: nat): int
    requires 0 <= at <= at + n <= |buf|
  {
    Unpack(buf[at..at + n])
  }

  /** Flyweight over one message of a caller-owned buffer; each getter reads the bytes where the type carries the field. */
  class ItchView {
    var buf: Bytes
    var off: nat

    constructor ()
      ensures buf == [] && off == 0
    {
      buf, off := [], 0;
    }

    method Wrap(buffer: Bytes, offset: nat)
      modifies this
      ensures buf == buffer && off == offset
    {
      buf, off := buffer, offset;
    }

    /** The whole message is inside the buffer. */
    predicate Readable()
      reads this
    {
      off < |buf| && Length(buf[off]) > 0 && off + Length(buf[off]) <= |buf|
    }

    function Type(): byte
      requires off < |buf|
      reads this
    {
      buf[off]
    }

    function StockLocate(): int requires Readable() reads this { Read(buf, off + 1, 2) }

    function TimestampNanos(): int requires Readable() reads this {
      Read(buf, off + 5, 2) * 0x1_0000_0000 + Read(buf, off + 7, 4)
    }

    function OrderRef(): int requires Readable() && Type() in HAS_ORDER_REF reads this { Read(buf, off + 11, 8) }

    function OrigRef(): int requires Readable() && Type() == REPLACE reads this { Read(buf, off + 11, 8) }

    function NewRef(): int requires Readable() && Type() == REPLACE reads this { Read(buf, off + 19, 8) }

    function SideByte(): byte requires Readable() && Type() in HAS_SIDE reads this { buf[off + 19] }

    function Shares(): int requires Readable() && Type() in HAS_SHARES reads this {
      if Type() == REPLACE then Read(buf, off + 27, 4) else Read(buf, off + 20, 4)
    }

    function DeltaShares(): int requires Readable() && Type() in {EXECUTED, CANCEL} reads this { Read(buf, off + 19, 4) }

    function Stock(): int requires Readable() && Type() in HAS_SIDE reads this { Read(buf, off + 24, 8) }

    function PriceTick(): int requires Readable() && Type() in HAS_SHARES reads this {
      var raw := if Type() == REPLACE then Read(buf, off + 31, 4) else Read(buf, off + 32, 4);
      if raw >= 0x8000_0000 then raw - 0x1_0000_0000 else raw
    }

    function MatchNumber(): int requires Readable() && Type() in {EXECUTED, TRADE} reads this {
      if Type() == TRADE then Read(buf, off + 36, 8) else Read(buf, off + 23, 8)
    }
  }
}
