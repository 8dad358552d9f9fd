/** The wire feed and the direct calls are the same events. */
module L3Feed {
  import opened BigEndian
  import opened Itch
  import opened ItchRoundTrip
  import opened L3Spec
  import L3Book

  /** Share counts read off the wire are never negative, whatever the bytes. */
  lemma WireIsUnsigned(v: ItchView)
    requires v.Readable()
    ensures Unsigned(L3Book.EventOf(v))
  {
  }

  lemma AddIsAdd(v: ItchView, locate: int, ts: int, ref: int, side: byte, shares: int, stock: int, price: int)
    requires At(v, AddMessage(locate, ts, ref, side, shares, stock, price))
    requires U16(locate) && U48(ts) && U64(ref) && U32(shares) && U64(stock) && I32(price)
    ensures v.Readable() && v.StockLocate() == locate
    ensures L3Book.EventOf(v) == Add(ref, if side == BUY then Buy else Sell, shares, price)
  {
    AddRoundTrip(v, locate, ts, ref, side, shares, stock, price);
  }

  lemma ExecutedIsExecute(v: ItchView, locate: int, ts: int, ref: int, shares: int, matchNumber: int)
    requires At(v, ExecutedMessage(locate, ts, ref, shares, matchNumber))
    requires U16(locate) && U48(ts) && U64(ref) && U32(shares) && U64(matchNumber)
    ensures v.Readable() && v.StockLocate() == locate && L3Book.EventOf(v) == Execute(ref, shares)
  {
    ExecutedRoundTrip(v, locate, ts, ref, shares, matchNumber);
  }

  lemma CancelIsCancel(v: ItchView, locate: int, ts: int, ref: int, shares: int)
    requires At(v, CancelMessage(locate, ts, ref, shares))
    requires U16(locate) && U48(ts) && U64(ref) && U32(shares)
    ensures v.Readable() && v.StockLocate() == locate && L3Book.EventOf(v) == Cancel(ref, shares)
  {
    CancelRoundTrip(v, locate, ts, ref, shares);
  }

  lemma DeleteIsDelete(v: ItchView, locate: int, ts: int, ref: int)
    requires At(v, DeleteMessage(locate, ts, ref))
    requires U16(locate) && U48(ts) && U64(ref)
    ensures v.Readable() && v.StockLocate() == locate && L3Book.EventOf(v) == Delete(ref)
  {
    DeleteRoundTrip(v, locate, ts, ref);
  }

  lemma ReplaceIsReplace(v: ItchView, locate: int, ts: int, origRef: int, newRef: int, shares: int, price: int)
    requires At(v, ReplaceMessage(locate, ts, origRef, newRef, shares, price))
    requires U16(locate) && U48(ts) && U64(origRef) && U64(newRef) && U32(shares) && I32(price)
    ensures v.Readable() && v.StockLocate() == locate
    ensures L3Book.EventOf(v) == Replace(origRef, newRef, shares, price)
  {
    ReplaceRoundTrip(v, locate, ts, origRef, newRef, shares, price);
  }

  lemma TradeIsTrade(
    v: ItchView, locate: int, ts: int, ref: int, side: byte, shares: int, stock: int, price: int, matchNumber: int)
    requires At(v, TradeMessage(locate, ts, ref, side, shares, stock, price, matchNumber))
    requires U16(locate) && U48(ts) && U64(ref) && U32(shares) && U64(stock) && I32(price) && U64(matchNumber)
    ensures v.Readable() && v.StockLocate() == locate && L3Book.EventOf(v) == Trade(price)
  {
    TradeRoundTrip(v, locate, ts, ref, side, shares, stock, price, matchNumber);
  }
}
