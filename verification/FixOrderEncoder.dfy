/**
 NewOrderSingle encoding.  The message is assembled piece by piece, with the date part of its
 timestamps cached per UTC day; what comes out is the framing of the order's field list, so the
 codec's parser gives back exactly those fields and the price parsers exactly that price.
 */
module FixOrderEncoder {
  import opened Outcomes
  import opened FixText
  import opened FixMessage
  import opened FixRoundTrip
  import opened FixNumbers

  const DAY_MILLIS: int := 86_400_000

  datatype Side = Buy | Sell

  /** One order as the caller describes it; `price` is absent for a market order. */
  datatype Order = Order(
    seqNum: int, clOrdId: int, symbolId: nat, side: Side, quantity: int, price: Option<(int, int)>, epochMillis: int)

  function Str(n: int): string { if n < 0 then "-" + Dec(-n) else Dec(n) }

  function Two(n: nat): (s: string)
    requires n < 100
    ensures |s| == 2 && AllDigits(s)
  {
    [Digit(n / 10), Digit(n % 10)]
  }

  /** HH:mm:ss.SSS */
  function TimeOfDay(millis: int): (s: string)
    requires 0 <= millis < DAY_MILLIS
    ensures |s| == 12
  {
    Two(millis / 3_600_000) + ":" + Two(millis / 60_000 % 60) + ":" + Two(millis / 1_000 % 60) + "." + Dec3(millis % 1_000)
  }

  /** The date of its own UTC day, then the time of that day. */
  function Timestamp(dateOf: int -> string, epochMillis: int): string {
    dateOf(epochMillis / DAY_MILLIS) + "-" + TimeOfDay(epochMillis - epochMillis / DAY_MILLIS * DAY_MILLIS)
  }

  lemma TwoReads(n: nat)
    requires n < 100
    ensures Digits(Two(n)) == n
  {
    var s := Two(n);
    assert s[..1][..0] == [] && s[..|s| - 1] == s[..1];
    assert Digits(s[..1]) == n / 10;
  }

  lemma ThreeReads(n: nat)
    requires n < 1000
    ensures Digits(Dec3(n)) == n
  {
    var s := Dec3(n);
    assert s[..2][..1] == s[..1] && s[..1][..0] == [] && s[..|s| - 1] == s[..2];
    assert Digits(s[..1]) == n / 100;
    assert Digits(s[..2]) == n / 100 * 10 + n / 10 % 10;
  }

  lemma MillisParts(x: int)
    requires 0 <= x < DAY_MILLIS
    ensures x / 3_600_000 * 3_600_000 + x / 60_000 % 60 * 60_000 + x / 1_000 % 60 * 1_000 + x % 1_000 == x
    ensures 0 <= x / 3_600_000 < 24
  {
    assert x / 60_000 == x / 1_000 / 60 && x / 3_600_000 == x / 60_000 / 60;
  }

  lemma TimeSlices(h: string, m: string, s: string, ms: string)
    requires |h| == |m| == |s| == 2 && |ms| == 3
    requires AllDigits(h) && AllDigits(m) && AllDigits(s) && AllDigits(ms)
    ensures var t := h + ":" + m + ":" + s + "." + ms;
            t[0..2] == h && t[3..5] == m && t[6..8] == s && t[9..12] == ms && SOH !in t
  {
  }

  /** The rendered time of day determines the millisecond. */
  lemma TimeOfDayReads(millis: int)
    requires 0 <= millis < DAY_MILLIS
    ensures var s := TimeOfDay(millis);
            Digits(s[0..2]) * 3_600_000 + Digits(s[3..5]) * 60_000 + Digits(s[6..8]) * 1_000 + Digits(s[9..12]) == millis
    ensures SOH !in TimeOfDay(millis)
  {
    hide Digits;
    hide Two;
    hide Dec3;
    MillisParts(millis);
    TwoReads(millis / 3_600_000);
    TwoReads(millis / 60_000 % 60);
    TwoReads(millis / 1_000 % 60);
    ThreeReads(millis % 1_000);
    TimeSlices(Two(millis / 3_600_000), Two(millis / 60_000 % 60), Two(millis / 1_000 % 60), Dec3(millis % 1_000));
  }

  // ----- the order's fields ---------------------------------------------------

  function PriceText(price: (int, int)): string
    requires price.0 >= 0 && price.1 >= 0
  {
    PriceRoundTrip(price.0, price.1);
    RenderPrice(price.0, price.1).value
  }

  function CommonFields(sender: string, target: string, symbol: string, time: string, o: Order): (f: seq<Field>)
    ensures Renderable(f)
  {
    [Field(35, "D"), Field(49, sender), Field(56, target), Field(34, Str(o.seqNum)), Field(52, time),
     Field(11, Str(o.clOrdId)), Field(55, symbol), Field(54, if o.side.Buy? then "1" else "2"),
     Field(38, Str(o.quantity)), Field(40, if o.price.None? then "1" else "2")]
  }

  function OrderFields(sender: string, target: string, symbol: string, dateOf: int -> string, o: Order): (f: seq<Field>)
    requires o.price.Some? ==> o.price.value.0 >= 0 && o.price.value.1 >= 0
    ensures Renderable(f)
  {
    var time := Timestamp(dateOf, o.epochMillis);
    CommonFields(sender, target, symbol, time, o)
    + (if o.price.Some? then [Field(44, PriceText(o.price.value))] else [])
    + [Field(60, time)]
  }

  lemma StrHasNoSoh(n: int)
    ensures SOH !in Str(n)
  {
    DecHasNo(if n < 0 then -n else n, SOH);
  }

  lemma FillHasNoSoh(n: nat, width: nat)
    ensures SOH !in ZeroFill(Dec(n), width)
  {
    DecHasNo(n, SOH);
  }

  lemma PriceHasNoSoh(mantissa: nat, decimals: nat)
    ensures RenderPrice(mantissa, decimals).Some? && SOH !in RenderPrice(mantissa, decimals).value
  {
    hide Dec;
    hide Pow10;
    hide ZeroFill;
    DecHasNo(mantissa, SOH);
    if decimals > 0 {
      var scale := Pow10(decimals);
      DivNonNegative(mantissa, scale);
      DecHasNo(mantissa / scale, SOH);
      FillHasNoSoh(mantissa % scale, decimals);
    }
  }

  /** Session and symbol texts free of the delimiter, and dates too. */
  ghost predicate Plain(sender: string, target: string, symbol: string, dateOf: int -> string, o: Order) {
    SOH !in sender && SOH !in target && SOH !in symbol && SOH !in dateOf(o.epochMillis / DAY_MILLIS)
  }

  lemma CommonIsWellFormed(sender: string, target: string, symbol: string, time: string, o: Order)
    requires SOH !in sender && SOH !in target && SOH !in symbol && SOH !in time
    ensures var f := CommonFields(sender, target, symbol, time, o);
            WellFormed(f) && forall i :: 0 <= i < |f| ==> f[i].tag != 44 && f[i].tag != 60
  {
    StrHasNoSoh(o.seqNum);
    StrHasNoSoh(o.clOrdId);
    StrHasNoSoh(o.quantity);
    hide Str;
  }

  lemma WellFormedOneMore(fields: seq<Field>, f: Field)
    requires WellFormed(fields) && f.tag >= 0 && f.tag !in {8, 9, 10} && SOH !in f.value
    requires forall i :: 0 <= i < |fields| ==> fields[i].tag != f.tag
    ensures WellFormed(fields + [f])
  {
  }

  lemma OrderIsWellFormed(sender: string, target: string, symbol: string, dateOf: int -> string, o: Order)
    requires o.price.Some? ==> o.price.value.0 >= 0 && o.price.value.1 >= 0
    requires Plain(sender, target, symbol, dateOf, o)
    ensures WellFormed(OrderFields(sender, target, symbol, dateOf, o))
  {
    TimestampPlain(dateOf, o.epochMillis);
    hide Timestamp;
    hide PriceText;
    hide WellFormed;
    var time := Timestamp(dateOf, o.epochMillis);
    var common := CommonFields(sender, target, symbol, time, o);
    CommonIsWellFormed(sender, target, symbol, time, o);
    hide CommonFields;
    if o.price.Some? {
      PriceTextPlain(o.price.value);
      WellFormedOneMore(common, Field(44, PriceText(o.price.value)));
      WellFormedOneMore(common + [Field(44, PriceText(o.price.value))], Field(60, time));
    } else {
      WellFormedOneMore(common, Field(60, time));
      assert common + [] == common;
    }
  }

  lemma TimestampPlain(dateOf: int -> string, epochMillis: int)
    requires SOH !in dateOf(epochMillis / DAY_MILLIS)
    ensures SOH !in Timestamp(dateOf, epochMillis)
  {
    TimeOfDayReads(epochMillis - epochMillis / DAY_MILLIS * DAY_MILLIS);
  }

  lemma PriceTextPlain(price: (int, int))
    requires price.0 >= 0 && price.1 >= 0
    ensures SOH !in PriceText(price) && SignedDigits(PriceText(price)) == price.0 && Decimals(PriceText(price)) == price.1
  {
    PriceRoundTrip(price.0, price.1);
    PriceHasNoSoh(price.0, price.1);
  }

  // ----- what the counterparty reads ------------------------------------------

  /** The millisecond of the day a rendered time names. */
  function Millis(t: string): int
    requires |t| == 12
  {
    Digits(t[0..2]) * 3_600_000 + Digits(t[3..5]) * 60_000 + Digits(t[6..8]) * 1_000 + Digits(t[9..12])
  }

  /** A UTC timestamp text names this instant: the date of its day, a dash, the time of that day. */
  ghost predicate Names(text: string, dateOf: int -> string, epochMillis: int) {
    var n := |text| - 12;
    && n >= 1 && text[..n - 1] == dateOf(epochMillis / DAY_MILLIS) && text[n - 1] == '-'
    && epochMillis / DAY_MILLIS * DAY_MILLIS + Millis(text[n..]) == epochMillis
  }

  /** What a received field list tells about an order, tag by tag. */
  ghost predicate Tells(fields: seq<Field>, sender: string, target: string, symbol: string, dateOf: int -> string, o: Order) {
    && ValueAt(fields, 35) == Some("D") && ValueAt(fields, 49) == Some(sender) && ValueAt(fields, 56) == Some(target)
    && ValueAt(fields, 55) == Some(symbol)
    && (o.side == Buy <==> ValueAt(fields, 54) == Some("1")) && (o.side == Sell <==> ValueAt(fields, 54) == Some("2"))
    && (o.price == None <==> ValueAt(fields, 40) == Some("1")) && (o.price != None <==> ValueAt(fields, 40) == Some("2"))
    && (o.price == None <==> ValueAt(fields, 44) == None)
    && (o.price != None ==> ValueAt(fields, 44) != None
                            && o.price.value == (SignedDigits(ValueAt(fields, 44).value), Decimals(ValueAt(fields, 44).value)))
    && Reads(fields, 34, o.seqNum) && Reads(fields, 11, o.clOrdId) && Reads(fields, 38, o.quantity)
    && ValueAt(fields, 52) != None && Names(ValueAt(fields, 52).value, dateOf, o.epochMillis)
    && ValueAt(fields, 60) != None && Names(ValueAt(fields, 60).value, dateOf, o.epochMillis)
  }

  /** A tag holds the text of a number. */
  predicate Reads(fields: seq<Field>, tag: int, n: int) {
    ValueAt(fields, tag) != None && PyInt(ValueAt(fields, tag).value) == Some(n)
  }

  lemma StrReads(n: int)
    ensures PyInt(Str(n)) == Some(n)
  {
    if n < 0 { IntOfMinusDec(-n); } else { IntOfDec(n); }
  }

  lemma TimestampNames(dateOf: int -> string, epochMillis: int)
    ensures Names(Timestamp(dateOf, epochMillis), dateOf, epochMillis)
  {
    var day := epochMillis / DAY_MILLIS;
    var rest := epochMillis - day * DAY_MILLIS;
    TimeOfDayReads(rest);
    var text, time := Timestamp(dateOf, epochMillis), TimeOfDay(rest);
    assert text == dateOf(day) + "-" + time;
    hide TimeOfDay;
    hide Digits;
    hide Timestamp;
    var n := |text| - 12;
    assert text[..n - 1] == dateOf(day) && text[n..] == time;
  }

  /** The tags of an order's frame, in order. */
  lemma OrderTags(sender: string, target: string, symbol: string, dateOf: int -> string, o: Order)
    requires o.price.Some? ==> o.price.value.0 >= 0 && o.price.value.1 >= 0
    ensures var f, time := Framed(OrderFields(sender, target, symbol, dateOf, o)), Timestamp(dateOf, o.epochMillis);
            && |f| == (if o.price.Some? then 15 else 14)
            && f[0].tag == 8 && f[1].tag == 9 && f[2] == Field(35, "D") && f[3] == Field(49, sender) && f[4] == Field(56, target)
            && f[5] == Field(34, Str(o.seqNum)) && f[6] == Field(52, time) && f[7] == Field(11, Str(o.clOrdId))
            && f[8] == Field(55, symbol) && f[9] == Field(54, if o.side.Buy? then "1" else "2")
            && f[10] == Field(38, Str(o.quantity)) && f[11] == Field(40, if o.price.None? then "1" else "2")
            && (o.price.Some? ==> f[12] == Field(44, PriceText(o.price.value)) && f[13] == Field(60, time) && f[14].tag == 10)
            && (o.price.None? ==> f[12] == Field(60, time) && f[13].tag == 10)
  {
    hide Timestamp;
    hide Str;
    hide PriceText;
    hide RenderAll;
    hide Dec;
    hide CheckSum;
    hide Payload;
  }

  /** An order's frame as a dictionary. */
  lemma OrderValues(f: seq<Field>, kind: string, sender: string, target: string, seqText: string, time: string, idText: string,
                    symbol: string, sideText: string, qtyText: string, typeText: string, price: Option<string>)
    requires |f| == (if price.Some? then 15 else 14)
    requires f[0].tag == 8 && f[1].tag == 9 && f[2] == Field(35, kind) && f[3] == Field(49, sender)
    requires f[4] == Field(56, target) && f[5] == Field(34, seqText) && f[6] == Field(52, time)
    requires f[7] == Field(11, idText) && f[8] == Field(55, symbol) && f[9] == Field(54, sideText)
    requires f[10] == Field(38, qtyText) && f[11] == Field(40, typeText)
    requires price.Some? ==> f[12] == Field(44, price.value) && f[13] == Field(60, time) && f[14].tag == 10
    requires price.None? ==> f[12] == Field(60, time) && f[13].tag == 10
    ensures ValueAt(f, 35) == Some(kind) && ValueAt(f, 49) == Some(sender) && ValueAt(f, 56) == Some(target)
    ensures ValueAt(f, 34) == Some(seqText) && ValueAt(f, 52) == Some(time) && ValueAt(f, 11) == Some(idText)
    ensures ValueAt(f, 55) == Some(symbol) && ValueAt(f, 54) == Some(sideText) && ValueAt(f, 38) == Some(qtyText)
    ensures ValueAt(f, 40) == Some(typeText) && ValueAt(f, 60) == Some(time) && ValueAt(f, 44) == price
  {
    hide ValueAt;
    ValuesByTag(f);
    if price.None? { ValueMissing(f, 44); }
    assert f[2].tag == 35 && f[3].tag == 49 && f[4].tag == 56 && f[5].tag == 34 && f[6].tag == 52 && f[7].tag == 11;
    assert f[8].tag == 55 && f[9].tag == 54 && f[10].tag == 38 && f[11].tag == 40;
  }

  lemma OrderFrameValues(sender: string, target: string, symbol: string, dateOf: int -> string, o: Order)
    requires o.price.Some? ==> o.price.value.0 >= 0 && o.price.value.1 >= 0
    ensures var f, time := Framed(OrderFields(sender, target, symbol, dateOf, o)), Timestamp(dateOf, o.epochMillis);
            && ValueAt(f, 35) == Some("D") && ValueAt(f, 49) == Some(sender) && ValueAt(f, 56) == Some(target)
            && ValueAt(f, 34) == Some(Str(o.seqNum)) && ValueAt(f, 52) == Some(time) && ValueAt(f, 11) == Some(Str(o.clOrdId))
            && ValueAt(f, 55) == Some(symbol) && ValueAt(f, 54) == Some(if o.side.Buy? then "1" else "2")
            && ValueAt(f, 38) == Some(Str(o.quantity)) && ValueAt(f, 40) == Some(if o.price.None? then "1" else "2")
            && ValueAt(f, 60) == Some(time)
            && ValueAt(f, 44) == if o.price.Some? then Some(PriceText(o.price.value)) else None
  {
    OrderTags(sender, target, symbol, dateOf, o);
    hide OrderFields;
    hide Framed;
    hide Timestamp;
    hide PriceText;
    hide Str;
    hide ValueAt;
    OrderValues(Framed(OrderFields(sender, target, symbol, dateOf, o)),
                "D", sender, target, Str(o.seqNum), Timestamp(dateOf, o.epochMillis), Str(o.clOrdId), symbol,
                if o.side.Buy? then "1" else "2", Str(o.quantity), if o.price.None? then "1" else "2",
                if o.price.Some? then Some(PriceText(o.price.value)) else None);
  }

  /** Parsed back, the message tells exactly the order it was encoded from. */
  lemma OrderTells(sender: string, target: string, symbol: string, dateOf: int -> string, o: Order)
    requires o.price.Some? ==> o.price.value.0 >= 0 && o.price.value.1 >= 0
    ensures Tells(Framed(OrderFields(sender, target, symbol, dateOf, o)), sender, target, symbol, dateOf, o)
  {
    hide OrderFields;
    hide Framed;
    hide Timestamp;
    hide PriceText;
    hide Str;
    hide PyInt;
    hide SignedDigits;
    hide Decimals;
    hide ValueAt;
    hide Names;
    OrderFrameValues(sender, target, symbol, dateOf, o);
    TimestampNames(dateOf, o.epochMillis);
    StrReads(o.seqNum);
    StrReads(o.clOrdId);
    StrReads(o.quantity);
    if o.price.Some? { PriceTextPlain(o.price.value); }
  }

  // ----- assembling -----------------------------------------------------------

  lemma TagTexts()
    ensures Dec(34) == "34" && Dec(35) == "35" && Dec(49) == "49" && Dec(56) == "56"
    ensures Dec(52) == "52" && Dec(11) == "11" && Dec(55) == "55" && Dec(54) == "54"
    ensures Dec(38) == "38" && Dec(40) == "40" && Dec(44) == "44" && Dec(60) == "60"
  {
  }

  lemma PriceErrors(mantissa: int, decimals: int)
    ensures RenderPrice(mantissa, decimals).None? <==> mantissa < 0 || decimals < 0
    ensures mantissa >= 0 && decimals >= 0 ==> RenderPrice(mantissa, decimals) == Some(PriceText((mantissa, decimals)))
  {
  }

  lemma FrameParts(body: string, payload: string)
    requires payload == "8=FIX.4.4" + [SOH] + "9=" + Dec(|body|) + [SOH] + body
    ensures payload + "10=" + Dec3(ByteSum(payload) % 256) + [SOH] == Frame(body)
  {
    hide Dec;
    hide ByteSum;
    assert payload == Payload(body);
  }

  lemma RenderLast(fields: seq<Field>, f: Field)
    requires Renderable(fields) && f.tag >= 0
    ensures RenderAll(fields + [f]) == RenderAll(fields) + Render(f)
  {
    hide Render;
    RenderAppend(fields, [f]);
    assert RenderAll([f]) == Render(f) + RenderAll([]);
  }

  /** Four header fields, the last one's value still missing. */
  lemma HeaderStart(sender: string, target: string, seqText: string)
    ensures Render(Field(35, "D")) + Render(Field(49, sender)) + Render(Field(56, target)) + "34=" + seqText + [SOH]
         == RenderAll([Field(35, "D"), Field(49, sender), Field(56, target), Field(34, seqText)])
  {
    var a, b, c, d := Field(35, "D"), Field(49, sender), Field(56, target), Field(34, seqText);
    RenderFour(a, b, c, d);
    SeqRendered(seqText);
    hide Render;
    hide RenderAll;
    HeaderJoin(Render(a) + Render(b) + Render(c), seqText);
  }

  lemma SeqRendered(seqText: string)
    ensures Render(Field(34, seqText)) == "34=" + seqText + [SOH]
  {
    TagTexts();
    hide Dec;
  }

  lemma RenderFour(a: Field, b: Field, c: Field, d: Field)
    requires a.tag >= 0 && b.tag >= 0 && c.tag >= 0 && d.tag >= 0
    ensures RenderAll([a, b, c, d]) == Render(a) + Render(b) + Render(c) + Render(d)
  {
    hide Render;
    RenderCons(a, [b, c, d]);
    RenderCons(b, [c, d]);
    RenderCons(c, [d]);
    RenderCons(d, []);
    assert [a] + [b, c, d] == [a, b, c, d] && [b] + [c, d] == [b, c, d] && [c] + [d] == [c, d] && [d] + [] == [d];
    FourJoined(Render(a), Render(b), Render(c), Render(d));
  }

  lemma RenderCons(f: Field, rest: seq<Field>)
    requires f.tag >= 0 && Renderable(rest)
    ensures RenderAll([f] + rest) == Render(f) + RenderAll(rest)
  {
    assert ([f] + rest)[1..] == rest;
  }

  lemma FourJoined(a: string, b: string, c: string, d: string)
    ensures a + (b + (c + (d + []))) == a + b + c + d
  {
  }

  lemma HeaderJoin(head: string, text: string)
    ensures head + "34=" + text + [SOH] == head + ("34=" + text + [SOH])
  {
  }

  /** One more `tag=value` piece. */
  method Put(body: string, tagText: string, value: string, ghost tag: nat, ghost fields: seq<Field>)
    returns (body': string, ghost fields': seq<Field>)
    requires Renderable(fields) && body == RenderAll(fields) && tagText == Dec(tag)
    ensures Renderable(fields') && body' == RenderAll(fields') && fields' == fields + [Field(tag, value)]
  {
    hide RenderAll;
    hide Dec;
    RenderLast(fields, Field(tag, value));
    body' := body + (tagText + "=" + value + [SOH]);
    fields' := fields + [Field(tag, value)];
  }

  // ----- the encoder ----------------------------------------------------------

  class FixOrderEncoder {
    const sender: string
    const target: string
    const dateOf: int -> string
    const header34: string
    var symbols: seq<Option<string>>
    var datePrefix: string
    var cachedEpochDay: Option<int>
    var last: string

    /** The cached prefix is the date of the cached day. */
    ghost predicate Valid()
      reads this
    {
      && header34 == Render(Field(35, "D")) + Render(Field(49, sender)) + Render(Field(56, target)) + "34="
      && (cachedEpochDay.Some? ==> datePrefix == dateOf(cachedEpochDay.value) + "-")
    }

    constructor (sender: string, target: string, maxSymbols: nat, dateOf: int -> string)
      requires sender != "" && target != "" && maxSymbols > 0
      ensures Valid() && |symbols| == maxSymbols && forall i :: 0 <= i < maxSymbols ==> symbols[i] == None
      ensures this.sender == sender && this.target == target && this.dateOf == dateOf && last == ""
    {
      this.sender, this.target, this.dateOf := sender, target, dateOf;
      header34 := "35=D" + [SOH] + "49=" + sender + [SOH] + "56=" + target + [SOH] + "34=";
      symbols := seq(maxSymbols, _ => None);
      datePrefix, cachedEpochDay, last := "", None, "";
      new;
      TagTexts();
      assert Render(Field(35, "D")) == "35=D" + [SOH];
    }

    method RegisterSymbol(symbolId: nat, symbol: string)
      requires Valid() && symbolId < |symbols|
      modifies this`symbols
      ensures Valid() && symbols == old(symbols)[symbolId := Some(symbol)]
    {
      symbols := symbols[symbolId := Some(symbol)];
    }

    /** Renders the date only when the UTC day rolls. */
    method RefreshDate(epochMillis: int)
      requires Valid()
      modifies this`datePrefix, this`cachedEpochDay
      ensures Valid() && cachedEpochDay == Some(epochMillis / DAY_MILLIS)
    {
      var epochDay := epochMillis / DAY_MILLIS;
      if Some(epochDay) != cachedEpochDay {
        datePrefix := dateOf(epochDay) + "-";
        cachedEpochDay := Some(epochDay);
      }
    }

    /** With the cache refreshed, the timestamp is the one rendered from scratch. */
    method RenderTimestamp(epochMillis: int) returns (t: string)
      requires Valid() && cachedEpochDay == Some(epochMillis / DAY_MILLIS)
      ensures t == Timestamp(dateOf, epochMillis)
    {
      var millisOfDay := epochMillis - cachedEpochDay.value * DAY_MILLIS;
      t := datePrefix + TimeOfDay(millisOfDay);
      assert t == Timestamp(dateOf, epochMillis) by { JoinDate(dateOf(epochMillis / DAY_MILLIS), TimeOfDay(millisOfDay)); }
    }

    lemma JoinDate(date: string, time: string)
      ensures date + "-" + time == (date + "-") + time
    {
    }

    /** The fields every order has, piece by piece. */
    method AssembleCommon(o: Order, symbol: string, time: string) returns (body: string)
      requires Valid()
      ensures body == RenderAll(CommonFields(sender, target, symbol, time, o))
    {
      hide Str;
      hide Dec;
      hide RenderAll;
      hide Render;
      TagTexts();
      HeaderStart(sender, target, Str(o.seqNum));
      ghost var fields := [Field(35, "D"), Field(49, sender), Field(56, target), Field(34, Str(o.seqNum))];
      body := header34 + Str(o.seqNum) + [SOH];
      body, fields := Put(body, "52", time, 52, fields);
      body, fields := Put(body, "11", Str(o.clOrdId), 11, fields);
      body, fields := Put(body, "55", symbol, 55, fields);
      body, fields := Put(body, "54", if o.side.Buy? then "1" else "2", 54, fields);
      body, fields := Put(body, "38", Str(o.quantity), 38, fields);
      body, fields := Put(body, "40", if o.price.None? then "1" else "2", 40, fields);
      assert fields == CommonFields(sender, target, symbol, time, o);
    }

    /** The whole body: a limit order adds its price, every order its transaction time. */
    method Assemble(o: Order, symbol: string, time: string, priceText: string) returns (body: string)
      requires Valid() && time == Timestamp(dateOf, o.epochMillis)
      requires o.price.Some? ==> o.price.value.0 >= 0 && o.price.value.1 >= 0 && priceText == PriceText(o.price.value)
      ensures body == RenderAll(OrderFields(sender, target, symbol, dateOf, o))
    {
      hide Timestamp;
      hide Dec;
      hide RenderAll;
      hide CommonFields;
      hide PriceText;
      TagTexts();
      ghost var fields := CommonFields(sender, target, symbol, time, o);
      body := AssembleCommon(o, symbol, time);
      if o.price.Some? {
        body, fields := Put(body, "44", priceText, 44, fields);
      }
      body, fields := Put(body, "60", time, 60, fields);
      assert fields == OrderFields(sender, target, symbol, dateOf, o);
    }

    /** The message for an order, or the source's error with the previous message kept. */
    method Encode(o: Order) returns (r: Result<nat, string>)
      requires Valid() && o.symbolId < |symbols|
      modifies this
      ensures Valid() && symbols == old(symbols)
      ensures r.Ok? <==> symbols[o.symbolId].Some? && (o.price.Some? ==> o.price.value.0 >= 0 && o.price.value.1 >= 0)
      ensures r.Err? ==> last == old(last)
      ensures r.Ok? ==>
                && r.value == |last|
                && last == Frame(RenderAll(OrderFields(sender, target, symbols[o.symbolId].value, dateOf, o)))
      ensures r.Ok? && Plain(sender, target, symbols[o.symbolId].value, dateOf, o) ==>
                && Parse(last) == Ok(Framed(OrderFields(sender, target, symbols[o.symbolId].value, dateOf, o)))
                && Tells(Parse(last).value, sender, target, symbols[o.symbolId].value, dateOf, o)
    {
      hide Timestamp;
      hide Str;
      hide Frame;
      hide RenderAll;
      hide Parse;
      hide OrderFields;
      hide RenderPrice;
      hide Tells;
      hide Framed;
      if symbols[o.symbolId].None? { return Err("symbol id not registered"); }
      var symbol := symbols[o.symbolId].value;
      RefreshDate(o.epochMillis);
      var time := RenderTimestamp(o.epochMillis);
      var priceText := "";
      if o.price.Some? {
        var p := RenderPrice(o.price.value.0, o.price.value.1);
        PriceErrors(o.price.value.0, o.price.value.1);
        if p.None? { return Err("mantissa and decimals must be >= 0"); }
        priceText := p.value;
      }
      var body := Assemble(o, symbol, time, priceText);
      var head := "8=FIX.4.4" + [SOH] + "9=" + Dec(|body|) + [SOH];
      var payload := head + body;
      FrameParts(body, payload);
      last := payload + "10=" + Dec3(ByteSum(payload) % 256) + [SOH];
      ghost var fields := OrderFields(sender, target, symbol, dateOf, o);
      if Plain(sender, target, symbol, dateOf, o) {
        OrderIsWellFormed(sender, target, symbol, dateOf, o);
        OrderTells(sender, target, symbol, dateOf, o);
        FrameRoundTrip(fields);
      }
      return Ok(|last|);
    }
  }
}
