/** Every encoder read back through the view returns its arguments, wherever the message sits in the buffer. */
module ItchRoundTrip {
  import opened SeqFacts
  import opened BigEndian
  import opened Itch

  predicate U16(v: int) { 0 <= v < 0x1_0000 }

  predicate U48(v: int) { 0 <= v < 0x1_0000_0000_0000 }

  predicate I32(v: int) { -0x8000_0000 <= v < 0x8000_0000 }

  /** `m` lies at the view's offset. */
  predicate At(v: ItchView, m: Bytes)
    reads v
  {
    v.off + |m| <= |v.buf| && v.buf[v.off..v.off + |m|] == m
  }

  lemma Powers()
    ensures Pow256(2) == 0x1_0000 && Pow256(4) == 0x1_0000_0000
    ensures Pow256(6) == 0x1_0000_0000_0000 && Pow256(8) == 0x1_0000_0000_0000_0000
  {
    assert Pow256(1) == 256 && Pow256(3) == 0x100_0000 && Pow256(5) == 0x100_0000_0000;
    assert Pow256(7) == 0x100_0000_0000_0000;
  }

  /** A field packed inside the message reads back modulo its width. */
  lemma FieldAt(v: ItchView, m: Bytes, front: Bytes, x: int, n: nat, back: Bytes)
    requires At(v, m) && m == front + Pack(x, n) + back
    ensures Read(v.buf, v.off + |front|, n) == x % Pow256(n)
  {
    hide Pack;
    var at := v.off + |front|;
    SubSlice(v.buf, v.off, v.off + |m|, |front|, |front| + n);
    Middle(front, Pack(x, n), back);
    UnpackPack(x, n);
  }

  lemma {:induction false} HeaderFields(v: ItchView, m: Bytes, t: byte, locate: int, ts: int, back: Bytes)
    requires At(v, m) && m == Header(t, locate, ts) + back && Length(t) == |m|
    ensures v.Readable() && v.Type() == t
    ensures v.StockLocate() == locate % 0x1_0000
    ensures v.TimestampNanos() == ts % 0x1_0000_0000_0000
  {
    hide Pack;
    Powers();
    assert v.buf[v.off] == m[0] == t;
    FieldAt(v, m, [t], locate, 2, [0, 0] + Pack(ts, 6) + back);
    PackSplit(ts, 2, 4);
    var high, low := ts / 0x1_0000_0000, ts % 0x1_0000_0000;
    var front := [t] + Pack(locate, 2) + [0, 0];
    assert m == front + Pack(high, 2) + (Pack(low, 4) + back);
    FieldAt(v, m, front, high, 2, Pack(low, 4) + back);
    assert m == front + Pack(high, 2) + Pack(low, 4) + back;
    FieldAt(v, m, front + Pack(high, 2), low, 4, back);
  }

  lemma {:induction false} AddRoundTrip(
    v: ItchView, locate: int, ts: int, ref: int, side: byte, shares: int, stock: int, price: int)
    requires At(v, AddMessage(locate, ts, ref, side, shares, stock, price))
    requires U16(locate) && U48(ts) && U64(ref) && U32(shares) && U64(stock) && I32(price)
    ensures v.Readable() && v.Type() == ADD && v.StockLocate() == locate && v.TimestampNanos() == ts
    ensures v.OrderRef() == ref && v.SideByte() == side && v.Shares() == shares
    ensures v.Stock() == stock && v.PriceTick() == price
  {
    hide Pack;
    hide Header;
    Powers();
    hide Pow256;
    hide Read;
    var m, h := AddMessage(locate, ts, ref, side, shares, stock, price), Header(ADD, locate, ts);
    var r, q, k, p := Pack(ref, 8), Pack(shares, 4), Pack(stock, 8), Pack(price, 4);
    assert m == h + (r + [side] + q + k + p);
    HeaderFields(v, m, ADD, locate, ts, r + [side] + q + k + p);
    assert m == h + r + ([side] + q + k + p);
    FieldAt(v, m, h, ref, 8, [side] + q + k + p);
    assert v.buf[v.off + 19] == m[19] == side;
    assert m == h + r + [side] + q + (k + p);
    FieldAt(v, m, h + r + [side], shares, 4, k + p);
    FieldAt(v, m, h + r + [side] + q, stock, 8, p);
    assert m == h + r + [side] + q + k + p + [];
    FieldAt(v, m, h + r + [side] + q + k, price, 4, []);
  }

  lemma {:induction false} ExecutedRoundTrip(v: ItchView, locate: int, ts: int, ref: int, shares: int, matchNumber: int)
    requires At(v, ExecutedMessage(locate, ts, ref, shares, matchNumber))
    requires U16(locate) && U48(ts) && U64(ref) && U32(shares) && U64(matchNumber)
    ensures v.Readable() && v.Type() == EXECUTED && v.StockLocate() == locate && v.TimestampNanos() == ts
    ensures v.OrderRef() == ref && v.DeltaShares() == shares && v.MatchNumber() == matchNumber
  {
    hide Pack;
    hide Header;
    Powers();
    hide Pow256;
    hide Read;
    var m, h := ExecutedMessage(locate, ts, ref, shares, matchNumber), Header(EXECUTED, locate, ts);
    var r, q, k := Pack(ref, 8), Pack(shares, 4), Pack(matchNumber, 8);
    assert m == h + (r + q + k);
    HeaderFields(v, m, EXECUTED, locate, ts, r + q + k);
    assert m == h + r + (q + k);
    FieldAt(v, m, h, ref, 8, q + k);
    FieldAt(v, m, h + r, shares, 4, k);
    assert m == h + r + q + k + [];
    FieldAt(v, m, h + r + q, matchNumber, 8, []);
  }

  lemma {:induction false} CancelRoundTrip(v: ItchView, locate: int, ts: int, ref: int, shares: int)
    requires At(v, CancelMessage(locate, ts, ref, shares))
    requires U16(locate) && U48(ts) && U64(ref) && U32(shares)
    ensures v.Readable() && v.Type() == CANCEL && v.StockLocate() == locate && v.TimestampNanos() == ts
    ensures v.OrderRef() == ref && v.DeltaShares() == shares
  {
    hide Pack;
    hide Header;
    Powers();
    hide Pow256;
    hide Read;
    var m, h := CancelMessage(locate, ts, ref, shares), Header(CANCEL, locate, ts);
    var r, q := Pack(ref, 8), Pack(shares, 4);
    assert m == h + (r + q);
    HeaderFields(v, m, CANCEL, locate, ts, r + q);
    FieldAt(v, m, h, ref, 8, q);
    assert m == h + r + q + [];
    FieldAt(v, m, h + r, shares, 4, []);
  }

  lemma {:induction false} DeleteRoundTrip(v: ItchView, locate: int, ts: int, ref: int)
    requires At(v, DeleteMessage(locate, ts, ref))
    requires U16(locate) && U48(ts) && U64(ref)
    ensures v.Readable() && v.Type() == DELETE && v.StockLocate() == locate && v.TimestampNanos() == ts
    ensures v.OrderRef() == ref
  {
    hide Pack;
    hide Header;
    Powers();
    hide Pow256;
    hide Read;
    var m, h, r := DeleteMessage(locate, ts, ref), Header(DELETE, locate, ts), Pack(ref, 8);
    HeaderFields(v, m, DELETE, locate, ts, r);
    assert m == h + r + [];
    FieldAt(v, m, h, ref, 8, []);
  }

  lemma {:induction false} ReplaceRoundTrip(
    v: ItchView, locate: int, ts: int, origRef: int, newRef: int, shares: int, price: int)
    requires At(v, ReplaceMessage(locate, ts, origRef, newRef, shares, price))
    requires U16(locate) && U48(ts) && U64(origRef) && U64(newRef) && U32(shares) && I32(price)
    ensures v.Readable() && v.Type() == REPLACE && v.StockLocate() == locate && v.TimestampNanos() == ts
    ensures v.OrigRef() == origRef && v.NewRef() == newRef && v.Shares() == shares && v.PriceTick() == price
  {
    hide Pack;
    hide Header;
    Powers();
    hide Pow256;
    hide Read;
    var m, h := ReplaceMessage(locate, ts, origRef, newRef, shares, price), Header(REPLACE, locate, ts);
    var o, r, q, p := Pack(origRef, 8), Pack(newRef, 8), Pack(shares, 4), Pack(price, 4);
    assert m == h + (o + r + q + p);
    HeaderFields(v, m, REPLACE, locate, ts, o + r + q + p);
    assert m == h + o + (r + q + p);
    FieldAt(v, m, h, origRef, 8, r + q + p);
    assert m == h + o + r + (q + p);
    FieldAt(v, m, h + o, newRef, 8, q + p);
    FieldAt(v, m, h + o + r, shares, 4, p);
    assert m == h + o + r + q + p + [];
    FieldAt(v, m, h + o + r + q, price, 4, []);
  }

  lemma {:induction false} TradeRoundTrip(
    v: ItchView, locate: int, ts: int, ref: int, side: byte, shares: int, stock: int, price: int, matchNumber: int)
    requires At(v, TradeMessage(locate, ts, ref, side, shares, stock, price, matchNumber))
    requires U16(locate) && U48(ts) && U64(ref) && U32(shares) && U64(stock) && I32(price) && U64(matchNumber)
    ensures v.Readable() && v.Type() == TRADE && v.StockLocate() == locate && v.TimestampNanos() == ts
    ensures v.OrderRef() == ref && v.SideByte() == side && v.Shares() == shares
    ensures v.Stock() == stock && v.PriceTick() == price && v.MatchNumber() == matchNumber
  {
    hide Pack;
    hide Header;
    Powers();
    hide Pow256;
    hide Read;
    var m, h := TradeMessage(locate, ts, ref, side, shares, stock, price, matchNumber), Header(TRADE, locate, ts);
    var r, q, k, p, n := Pack(ref, 8), Pack(shares, 4), Pack(stock, 8), Pack(price, 4), Pack(matchNumber, 8);
    assert m == h + (r + [side] + q + k + p + n);
    HeaderFields(v, m, TRADE, locate, ts, r + [side] + q + k + p + n);
    assert m == h + r + ([side] + q + k + p + n);
    FieldAt(v, m, h, ref, 8, [side] + q + k + p + n);
    assert v.buf[v.off + 19] == m[19] == side;
    assert m == h + r + [side] + q + (k + p + n);
    FieldAt(v, m, h + r + [side], shares, 4, k + p + n);
    assert m == h + r + [side] + q + k + (p + n);
    FieldAt(v, m, h + r + [side] + q, stock, 8, p + n);
    FieldAt(v, m, h + r + [side] + q + k, price, 4, n);
    assert m == h + r + [side] + q + k + p + n + [];
    FieldAt(v, m, h + r + [side] + q + k + p, matchNumber, 8, []);
  }

  // ----- which prices survive -------------------------------------------------

  /** The encoder masks any price to 32 bits, so it reads back as itself exactly when it is a signed 32-bit tick. */
  lemma PriceSurvivesExactly(v: ItchView, m: Bytes, front: Bytes, price: int, back: Bytes)
    requires At(v, m) && m == front + Pack(price, 4) + back
    requires v.Readable() && v.Type() in HAS_SHARES && |front| == if v.Type() == REPLACE then 31 else 32
    ensures v.PriceTick() == price <==> I32(price)
    ensures I32(v.PriceTick()) && (v.PriceTick() - price) % 0x1_0000_0000 == 0
  {
    hide Pack;
    Powers();
    FieldAt(v, m, front, price, 4, back);
  }

  lemma AddPriceSurvives(v: ItchView, locate: int, ts: int, ref: int, side: byte, shares: int, stock: int, price: int)
    requires At(v, AddMessage(locate, ts, ref, side, shares, stock, price))
    ensures v.Readable() && v.Type() == ADD && (v.PriceTick() == price <==> I32(price))
  {
    hide Pack;
    hide Header;
    var m, h := AddMessage(locate, ts, ref, side, shares, stock, price), Header(ADD, locate, ts);
    var body := Pack(ref, 8) + [side] + Pack(shares, 4) + Pack(stock, 8);
    assert m == h + (body + Pack(price, 4));
    HeaderFields(v, m, ADD, locate, ts, body + Pack(price, 4));
    assert m == h + body + Pack(price, 4) + [];
    PriceSurvivesExactly(v, m, h + body, price, []);
  }

  lemma ReplacePriceSurvives(v: ItchView, locate: int, ts: int, origRef: int, newRef: int, shares: int, price: int)
    requires At(v, ReplaceMessage(locate, ts, origRef, newRef, shares, price))
    ensures v.Readable() && v.Type() == REPLACE && (v.PriceTick() == price <==> I32(price))
  {
    hide Pack;
    hide Header;
    var m, h := ReplaceMessage(locate, ts, origRef, newRef, shares, price), Header(REPLACE, locate, ts);
    var body := Pack(origRef, 8) + Pack(newRef, 8) + Pack(shares, 4);
    assert m == h + (body + Pack(price, 4));
    HeaderFields(v, m, REPLACE, locate, ts, body + Pack(price, 4));
    assert m == h + body + Pack(price, 4) + [];
    PriceSurvivesExactly(v, m, h + body, price, []);
  }

  lemma TradePriceSurvives(
    v: ItchView, locate: int, ts: int, ref: int, side: byte, shares: int, stock: int, price: int, matchNumber: int)
    requires At(v, TradeMessage(locate, ts, ref, side, shares, stock, price, matchNumber))
    ensures v.Readable() && v.Type() == TRADE && (v.PriceTick() == price <==> I32(price))
  {
    hide Pack;
    hide Header;
    var m, h := TradeMessage(locate, ts, ref, side, shares, stock, price, matchNumber), Header(TRADE, locate, ts);
    var body, n := Pack(ref, 8) + [side] + Pack(shares, 4) + Pack(stock, 8), Pack(matchNumber, 8);
    assert m == h + (body + Pack(price, 4) + n);
    HeaderFields(v, m, TRADE, locate, ts, body + Pack(price, 4) + n);
    assert m == h + body + Pack(price, 4) + n;
    PriceSurvivesExactly(v, m, h + body, price, n);
  }
}
