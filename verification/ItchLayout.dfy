/**
 The wire layout, byte by byte (Nasdaq TotalView-ITCH 5.0, section 1.3 "Add Order Message", 1.4 "Modify
 Order Messages", 1.5 "Trade Messages"): which bytes of a message hold which field, whoever reads it.
 */
module ItchLayout {
  import opened BigEndian
  import opened Itch

  /** Message types and the buy indicator are letters; every length is that of the layouts below. */
  lemma TypeLetters()
    ensures ADD == 'A' as int && ADD_MPID == 'F' as int && EXECUTED == 'E' as int && CANCEL == 'X' as int
    ensures DELETE == 'D' as int && REPLACE == 'U' as int && TRADE == 'P' as int && BUY == 'B' as int
    ensures Length(ADD) == 36 && Length(ADD_MPID) == 40 && Length(EXECUTED) == 31 && Length(CANCEL) == 23
    ensures Length(DELETE) == 19 && Length(REPLACE) == 35 && Length(TRADE) == 44
  {
  }

  /** Type, locate, an empty tracking number, nanoseconds since midnight. */
  ghost predicate Starts(m: Bytes, t: byte, locate: int, ts: int) {
    |m| >= 11 && m[0] == t && m[1..3] == Pack(locate, 2) && m[3..5] == [0, 0] && m[5..11] == Pack(ts, 6)
  }

  lemma HeaderStarts(t: byte, locate: int, ts: int, rest: Bytes)
    ensures Starts(Header(t, locate, ts) + rest, t, locate, ts) && (Header(t, locate, ts) + rest)[11..] == rest
  {
    hide Pack;
    var a, b := Pack(locate, 2), Pack(ts, 6);
    var m := [t] + a + [0, 0] + b + rest;
    assert m[1..3] == a && m[3..5] == [0, 0] && m[5..11] == b && m[11..] == rest;
  }

  lemma AddLayout(locate: int, ts: int, ref: int, side: byte, shares: int, stock: int, price: int)
    ensures var m := AddMessage(locate, ts, ref, side, shares, stock, price);
            && Starts(m, ADD, locate, ts) && m[11..19] == Pack(ref, 8) && m[19] == side && m[20..24] == Pack(shares, 4)
            && m[24..32] == Pack(stock, 8) && m[32..36] == Pack(price, 4)
  {
    hide Pack;
    hide Starts;
    hide Header;
    var r, q, k, p := Pack(ref, 8), Pack(shares, 4), Pack(stock, 8), Pack(price, 4);
    var rest := r + [side] + q + k + p;
    HeaderStarts(ADD, locate, ts, rest);
    assert AddMessage(locate, ts, ref, side, shares, stock, price) == Header(ADD, locate, ts) + rest;
    assert rest[..8] == r && rest[8] == side && rest[9..13] == q && rest[13..21] == k && rest[21..25] == p;
  }

  lemma ExecutedLayout(locate: int, ts: int, ref: int, shares: int, matchNumber: int)
    ensures var m := ExecutedMessage(locate, ts, ref, shares, matchNumber);
            Starts(m, EXECUTED, locate, ts) && m[11..19] == Pack(ref, 8) && m[19..23] == Pack(shares, 4) && m[23..31] == Pack(matchNumber, 8)
  {
    hide Pack;
    hide Starts;
    hide Header;
    var r, q, k := Pack(ref, 8), Pack(shares, 4), Pack(matchNumber, 8);
    var rest := r + q + k;
    HeaderStarts(EXECUTED, locate, ts, rest);
    assert ExecutedMessage(locate, ts, ref, shares, matchNumber) == Header(EXECUTED, locate, ts) + rest;
    assert rest[..8] == r && rest[8..12] == q && rest[12..20] == k;
  }

  lemma CancelLayout(locate: int, ts: int, ref: int, shares: int)
    ensures var m := CancelMessage(locate, ts, ref, shares);
            Starts(m, CANCEL, locate, ts) && m[11..19] == Pack(ref, 8) && m[19..23] == Pack(shares, 4)
  {
    hide Pack;
    hide Starts;
    hide Header;
    var r, q := Pack(ref, 8), Pack(shares, 4);
    HeaderStarts(CANCEL, locate, ts, r + q);
    assert CancelMessage(locate, ts, ref, shares) == Header(CANCEL, locate, ts) + (r + q);
    assert (r + q)[..8] == r && (r + q)[8..12] == q;
  }

  lemma DeleteLayout(locate: int, ts: int, ref: int)
    ensures var m := DeleteMessage(locate, ts, ref); Starts(m, DELETE, locate, ts) && m[11..19] == Pack(ref, 8)
  {
    hide Pack;
    hide Starts;
    hide Header;
    HeaderStarts(DELETE, locate, ts, Pack(ref, 8));
  }

  lemma ReplaceLayout(locate: int, ts: int, origRef: int, newRef: int, shares: int, price: int)
    ensures var m := ReplaceMessage(locate, ts, origRef, newRef, shares, price);
            && Starts(m, REPLACE, locate, ts) && m[11..19] == Pack(origRef, 8) && m[19..27] == Pack(newRef, 8)
            && m[27..31] == Pack(shares, 4) && m[31..35] == Pack(price, 4)
  {
    hide Pack;
    hide Starts;
    hide Header;
    var o, r, q, p := Pack(origRef, 8), Pack(newRef, 8), Pack(shares, 4), Pack(price, 4);
    var rest := o + r + q + p;
    HeaderStarts(REPLACE, locate, ts, rest);
    assert ReplaceMessage(locate, ts, origRef, newRef, shares, price) == Header(REPLACE, locate, ts) + rest;
    assert rest[..8] == o && rest[8..16] == r && rest[16..20] == q && rest[20..24] == p;
  }

  lemma TradeLayout(locate: int, ts: int, ref: int, side: byte, shares: int, stock: int, price: int, matchNumber: int)
    ensures var m := TradeMessage(locate, ts, ref, side, shares, stock, price, matchNumber);
            && Starts(m, TRADE, locate, ts) && m[11..19] == Pack(ref, 8) && m[19] == side && m[20..24] == Pack(shares, 4)
            && m[24..32] == Pack(stock, 8) && m[32..36] == Pack(price, 4) && m[36..44] == Pack(matchNumber, 8)
  {
    hide Pack;
    hide Starts;
    hide Header;
    var r, q, k, p, n := Pack(ref, 8), Pack(shares, 4), Pack(stock, 8), Pack(price, 4), Pack(matchNumber, 8);
    var rest := r + [side] + q + k + p + n;
    HeaderStarts(TRADE, locate, ts, rest);
    assert TradeMessage(locate, ts, ref, side, shares, stock, price, matchNumber) == Header(TRADE, locate, ts) + rest;
    assert rest[..8] == r && rest[8] == side && rest[9..13] == q && rest[13..21] == k && rest[21..25] == p && rest[25..33] == n;
  }
}
