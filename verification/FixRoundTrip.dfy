/** `Parse` undoes `Encode`: the frame is accepted and every field comes back, in order. */
module FixRoundTrip {
  import opened Outcomes
  import opened SeqFacts
  import opened IntegerSums
  import opened FixText
  import opened FixMessage

  /** Distinct tags, none of them a framing tag, and no delimiter inside a value. */
  predicate WellFormed(fields: seq<Field>) {
    && (forall i :: 0 <= i < |fields| ==>
          fields[i].tag >= 0 && fields[i].tag !in {8, 9, 10} && SOH !in fields[i].value)
    && (forall i, j :: 0 <= i < j < |fields| ==> fields[i].tag != fields[j].tag)
  }

  /** What a parse of the framed fields must give back. */
  function Framed(fields: seq<Field>): seq<Field>
    requires Renderable(fields)
  {
    var after := RenderAll(fields);
    [Field(8, BEGIN_STRING), Field(9, Dec(|after|))] + fields + [Field(10, CheckSum(Payload(after)))]
  }

  lemma {:induction false} DecHasNo(n: nat, c: char)
    requires !IsDigit(c)
    ensures c !in Dec(n)
  {
  }

  /** One rendered pair, without its delimiter, parses to its field. */
  lemma {:induction false} PairRoundTrip(f: Field)
    requires f.tag >= 0
    ensures ParsePair(Dec(f.tag) + "=" + f.value) == Ok(f)
  {
    var pair, n := Dec(f.tag) + "=" + f.value, |Dec(f.tag)|;
    DecHasNo(f.tag, '=');
    IndexIs(pair, '=', 0, n);
    assert pair[..n] == Dec(f.tag) && pair[n + 1..] == f.value;
    IntOfDec(f.tag);
  }

  function Pairs(fields: seq<Field>): seq<string>
    requires Renderable(fields)
  {
    if fields == [] then [] else [Dec(fields[0].tag) + "=" + fields[0].value] + Pairs(fields[1..])
  }

  lemma RenderFirst(fields: seq<Field>)
    requires Renderable(fields) && fields != []
    ensures RenderAll(fields) == Dec(fields[0].tag) + "=" + fields[0].value + [SOH] + RenderAll(fields[1..])
    ensures Pairs(fields) == [Dec(fields[0].tag) + "=" + fields[0].value] + Pairs(fields[1..])
  {
    hide Dec;
  }

  lemma {:induction false} SplitRendered(fields: seq<Field>, rest: string)
    requires Renderable(fields) && forall i :: 0 <= i < |fields| ==> SOH !in fields[i].value
    ensures Split(RenderAll(fields) + rest) == Pairs(fields) + Split(rest)
  {
    if fields == [] {
      assert RenderAll(fields) + rest == rest;
    } else {
      var f := fields[0];
      var p := Dec(f.tag) + "=" + f.value;
      DecHasNo(f.tag, SOH);
      hide Dec;
      hide Split;
      hide RenderAll;
      hide Pairs;
      SplitRendered(fields[1..], rest);
      RenderFirst(fields);
      AppendAssoc(p + [SOH], RenderAll(fields[1..]), rest);
      SplitCons(p, RenderAll(fields[1..]) + rest);
      AppendAssoc([p], Pairs(fields[1..]), Split(rest));
    }
  }

  /** Fresh tags are appended one by one. */
  lemma {:induction false} ParseRendered(fields: seq<Field>, done: seq<Field>)
    requires Renderable(fields)
    requires forall i, j :: 0 <= i < j < |done + fields| ==> (done + fields)[i].tag != (done + fields)[j].tag
    ensures ParsePairs(Pairs(fields), done) == Ok(done + fields)
    decreases |fields|
  {
    if fields == [] {
      assert done + fields == done;
    } else {
      PairRoundTrip(fields[0]);
      var all := done + fields;
      var i := TagIndex(done, fields[0].tag);
      assert all[|done|] == fields[0];
      assert forall k :: 0 <= k < |done| ==> all[k] == done[k] && done[k].tag != fields[0].tag;
      assert i == |done|;
      assert Assign(done, fields[0].tag, fields[0].value) == done + [fields[0]];
      assert done + [fields[0]] + fields[1..] == all;
      ParseRendered(fields[1..], done + [fields[0]]);
    }
  }

  /** The trailer's own delimiter is the last one before `10=`. */
  lemma {:induction false} TrailerFound(payload: string, check: string)
    requires payload != [] && payload[|payload| - 1] == SOH && |check| == 3 && AllDigits(check)
    ensures var raw := payload + "10=" + check + [SOH];
            FindLast(raw, TRAILER, |raw|) == |payload| - 1
  {
    var raw, n := payload + "10=" + check + [SOH], |payload| - 1;
    assert raw[n..n + 4] == TRAILER;
    forall k | n < k < |raw|
      ensures !OccursAt(raw, TRAILER, k)
    {
      OccursFirst(raw, TRAILER, k);
    }
    LastIs(raw, TRAILER, |raw|, n);
  }

  lemma OccursFirst(s: string, pat: string, k: nat)
    requires pat != [] && k < |s|
    ensures OccursAt(s, pat, k) ==> s[k] == pat[0]
  {
    if OccursAt(s, pat, k) { assert s[k..k + |pat|][0] == s[k]; }
  }

  lemma {:induction false} LastIs(s: string, pat: string, before: nat, i: nat)
    requires i < before && OccursAt(s, pat, i) && forall k :: i < k < before ==> !OccursAt(s, pat, k)
    ensures FindLast(s, pat, before) == i
    decreases before
  {
    if i != before - 1 { LastIs(s, pat, before - 1, i); }
  }

  /** Where a frame's head puts what, whatever follows it. */
  lemma HeadParts(len: string, rest: string)
    requires SOH !in len
    ensures var w, at := HEAD + "9=" + len + [SOH] + rest, 12 + |len|;
            && |HEAD| == 10 && |w| == at + 1 + |rest| && w[..10] == HEAD && w[10..12] == "9=" && w[12..at] == len
            && w[9] == SOH && w[10] == '9' && w[11] == '=' && w[at] == SOH
            && (forall k :: 0 <= k < 9 ==> w[k] != SOH) && (forall k :: 10 <= k < at ==> w[k] != SOH)
  {
    var w := HEAD + "9=" + len + [SOH] + rest;
    forall k | 12 <= k < 12 + |len| ensures w[k] != SOH { assert w[k] == len[k - 12]; }
  }

  /** Tag 9 is where it should be, so the measured body is exactly `afterLength`. */
  lemma {:induction false} BodyMeasured(afterLength: string, tail: string)
    ensures var head := HEAD + "9=" + Dec(|afterLength|) + [SOH];
            var raw := head + afterLength + tail;
            && FindFrom(raw, "9=", 0) == 10
            && IndexFrom(raw, SOH, 10) + 1 == |head|
  {
    DecHasNo(|afterLength|, SOH);
    var len := Dec(|afterLength|);
    hide Dec;
    HeadParts(len, afterLength + tail);
    var raw := HEAD + "9=" + len + [SOH] + (afterLength + tail);
    AppendAssoc(HEAD + "9=" + len + [SOH], afterLength, tail);
    forall k | 0 <= k < 10
      ensures !OccursAt(raw, "9=", k)
    {
      OccursFirst(raw, "9=", k);
      assert raw[k] == raw[..10][k];
    }
    FirstIs(raw, "9=", 0, 10);
    IndexIs(raw, SOH, 10, 12 + |len|);
  }

  lemma {:induction false} FirstIs(s: string, pat: string, from: nat, i: nat)
    requires from <= i < |s| && OccursAt(s, pat, i) && forall k :: from <= k < i ==> !OccursAt(s, pat, k)
    ensures FindFrom(s, pat, from) == i
    decreases i - from
  {
    if from != i { FirstIs(s, pat, from + 1, i); }
  }

  /** Rendering a frame's fields, trailer included, gives back its text. */
  lemma {:induction false} FramingRendered(fields: seq<Field>, len: string, check: string)
    requires Renderable(fields)
    ensures RenderAll([Field(8, BEGIN_STRING), Field(9, len)] + fields + [Field(10, check)])
         == HEAD + "9=" + len + [SOH] + RenderAll(fields) + "10=" + check + [SOH]
  {
    hide RenderAll;
    hide Dec;
    var f8, f9, f10 := Field(8, BEGIN_STRING), Field(9, len), Field(10, check);
    assert RenderAll([f8, f9] + fields + [f10]) == RenderAll([f8, f9]) + RenderAll(fields) + RenderAll([f10]) by {
      RenderAppend([f8, f9] + fields, [f10]);
      RenderAppend([f8, f9], fields);
    }
    assert RenderAll([f8, f9]) == Render(f8) + Render(f9) by {
      assert [f8] + [f9] == [f8, f9];
      RenderAppend([f8], [f9]);
      RenderOne(f8);
      RenderOne(f9);
    }
    RenderOne(f10);
    FramingTags();
  }

  lemma RenderOne(f: Field)
    requires f.tag >= 0
    ensures RenderAll([f]) == Render(f)
  {
  }

  lemma FramingTags()
    ensures Dec(8) == "8" && Dec(9) == "9" && Dec(10) == "10"
  {
    assert Dec(10) == Dec(1) + [Digit(0)];
  }

  lemma {:induction false} FrameIsRendered(fields: seq<Field>)
    requires Renderable(fields)
    ensures RenderAll(Framed(fields)) == Frame(RenderAll(fields))
  {
    hide RenderAll;
    hide CheckSum;
    hide Dec;
    var after := RenderAll(fields);
    FramingRendered(fields, Dec(|after|), CheckSum(Payload(after)));
  }

  lemma {:induction false} RenderAppend(a: seq<Field>, b: seq<Field>)
    requires Renderable(a) && Renderable(b)
    ensures RenderAll(a + b) == RenderAll(a) + RenderAll(b)
  {
    if a == [] {
      assert a + b == b;
    } else {
      assert (a + b)[1..] == a[1..] + b;
      RenderAppend(a[1..], b);
    }
  }

  /** The text starts as it must, and the trailer at `at` holds its checksum. */
  predicate TrailerOk(raw: string, at: nat) {
    && HEAD <= raw && at + 4 <= |raw| - 1 && raw[|raw| - 1] == SOH
    && FindLast(raw, TRAILER, |raw|) == at && CheckSum(raw[..at + 1]) == raw[at + 4..|raw| - 1]
  }

  predicate ReadsAs(raw: string, fields: seq<Field>) {
    raw != [] && ParsePairs(Split(raw[..|raw| - 1]), []) == Ok(fields)
  }

  /** The parser's steps, once each check is known to pass. */
  lemma ParseSteps(raw: string, at: nat, fields: seq<Field>)
    requires TrailerOk(raw, at) && ReadsAs(raw, fields)
    ensures Parse(raw) == CheckLength(raw, at, fields)
  {
    hide CheckSum;
    hide FindLast;
    hide ParsePairs;
    hide Split;
    hide CheckLength;
  }

  /** Where the parser finds the trailer of a frame, and what it compares there. */
  lemma {:induction false} FrameChecked(after: string)
    requires after == [] || after[|after| - 1] == SOH
    ensures |Payload(after)| > 0 && TrailerOk(Frame(after), |Payload(after)| - 1)
  {
    hide Dec;
    hide CheckSum;
    hide FindLast;
    var payload, check := Payload(after), CheckSum(Payload(after));
    var raw := Frame(after);
    TrailerFound(payload, check);
    assert raw == payload + "10=" + check + [SOH];
    assert raw[..|payload|] == payload && raw[|payload| + 3..|raw| - 1] == check;
  }

  lemma {:induction false} FramePairs(fields: seq<Field>)
    requires WellFormed(fields)
    ensures ReadsAs(Frame(RenderAll(fields)), Framed(fields))
  {
    FramedIsDistinct(fields);
    var raw, all := Frame(RenderAll(fields)), Framed(fields);
    assert RenderAll(all) == raw by { FrameIsRendered(fields); }
    hide *;
    SplitFramed(all, raw);
    assert [] + all == all;
    ParseRendered(all, []);
    PairsRead(raw, all);
  }

  lemma PairsRead(raw: string, all: seq<Field>)
    requires Renderable(all) && raw != [] && Split(raw[..|raw| - 1]) == Pairs(all) && ParsePairs(Pairs(all), []) == Ok(all)
    ensures ReadsAs(raw, all)
  {
    hide Split;
    hide ParsePairs;
    hide Pairs;
  }

  /** The framing fields' tags clash with nothing, and no value holds the delimiter. */
  lemma FramedIsDistinct(fields: seq<Field>)
    requires WellFormed(fields)
    ensures var all := Framed(fields);
            && Renderable(all) && all != []
            && (forall i :: 0 <= i < |all| ==> SOH !in all[i].value)
            && (forall i, j :: 0 <= i < j < |all| ==> all[i].tag != all[j].tag)
  {
    hide Dec;
    hide CheckSum;
    hide RenderAll;
    hide Payload;
    DecHasNo(|RenderAll(fields)|, SOH);
    assert forall c :: c in CheckSum(Payload(RenderAll(fields))) ==> IsDigit(c);
  }

  /** Any well-formed field list survives framing and parsing. */
  lemma {:induction false} FrameRoundTrip(fields: seq<Field>)
    requires WellFormed(fields)
    ensures Parse(Frame(RenderAll(fields))) == Ok(Framed(fields))
  {
    hide *;
    RenderableIs(fields);
    var raw, at, all := Frame(RenderAll(fields)), |Payload(RenderAll(fields))| - 1, Framed(fields);
    assert 0 <= at < |raw| && raw[|raw| - 1] == SOH && TrailerOk(raw, at) by { RenderedChecked(fields); }
    assert ReadsAs(raw, all) by { FramePairs(fields); }
    assert CheckLength(raw, at, all) == Ok(all) by { LengthChecked(fields, raw); }
    ParseSteps(raw, at, all);
  }

  lemma RenderedChecked(fields: seq<Field>)
    requires Renderable(fields)
    ensures 0 < |Payload(RenderAll(fields))| <= |Frame(RenderAll(fields))|
    ensures var raw := Frame(RenderAll(fields));
            raw[|raw| - 1] == SOH && TrailerOk(raw, |Payload(RenderAll(fields))| - 1)
  {
    hide Frame;
    hide Payload;
    hide RenderAll;
    RenderEndsWithSoh(fields);
    FrameChecked(RenderAll(fields));
  }

  lemma RenderableIs(fields: seq<Field>)
    requires WellFormed(fields)
    ensures Renderable(fields)
  {
  }

  lemma {:induction false} LengthChecked(fields: seq<Field>, raw: string)
    requires WellFormed(fields) && raw == Frame(RenderAll(fields))
    ensures CheckLength(raw, |Payload(RenderAll(fields))| - 1, Framed(fields)) == Ok(Framed(fields))
  {
    hide RenderAll;
    hide CheckSum;
    hide Dec;
    var after, all := RenderAll(fields), Framed(fields);
    var tail := "10=" + CheckSum(Payload(after)) + [SOH];
    assert raw == HEAD + "9=" + Dec(|after|) + [SOH] + after + tail;
    BodyMeasured(after, tail);
    assert all[0].tag == 8 && all[1].tag == BODY_LENGTH;
    assert TagIndex(all, BODY_LENGTH) == 1;
    IntOfDec(|after|);
  }

  lemma {:induction false} RenderEndsWithSoh(fields: seq<Field>)
    requires Renderable(fields)
    ensures RenderAll(fields) == [] || RenderAll(fields)[|RenderAll(fields)| - 1] == SOH
  {
    if fields != [] && fields[1..] != [] { RenderEndsWithSoh(fields[1..]); }
  }

  /** Splitting the whole text without its last delimiter gives one piece per field. */
  lemma {:induction false} SplitFramed(fields: seq<Field>, raw: string)
    requires Renderable(fields) && fields != [] && raw == RenderAll(fields)
    requires forall i :: 0 <= i < |fields| ==> SOH !in fields[i].value
    ensures raw != [] && Split(raw[..|raw| - 1]) == Pairs(fields)
  {
    var n := |fields| - 1;
    var last := fields[n];
    var p := Dec(last.tag) + "=" + last.value;
    assert fields == fields[..n] + [last];
    RenderAppend(fields[..n], [last]);
    assert RenderAll([last]) == Render(last);
    assert raw[..|raw| - 1] == RenderAll(fields[..n]) + p;
    SplitRendered(fields[..n], p);
    DecHasNo(last.tag, SOH);
    SplitLast(p);
    PairsAppend(fields[..n], [last]);
    assert Pairs([last]) == [p];
  }

  lemma {:induction false} PairsAppend(a: seq<Field>, b: seq<Field>)
    requires Renderable(a) && Renderable(b)
    ensures Pairs(a + b) == Pairs(a) + Pairs(b)
  {
    if a == [] {
      assert a + b == b;
    } else {
      assert (a + b)[1..] == a[1..] + b;
      PairsAppend(a[1..], b);
    }
  }

  /** The main result: whatever is encoded parses back to exactly its header and body fields. */
  lemma {:induction false} EncodeRoundTrip(h: Header, body: seq<Field>)
    requires Renderable(body) && WellFormed(HeaderFields(h) + body) && Encode(h, body).Ok?
    ensures Parse(Encode(h, body).value) == Ok(Framed(HeaderFields(h) + body))
  {
    FrameRoundTrip(HeaderFields(h) + body);
  }

  // ----- what a session message tells -----------------------------------------

  lemma {:induction false} FramedValues(fields: seq<Field>, k: nat)
    requires WellFormed(fields) && k < |fields|
    ensures ValueAt(Framed(fields), fields[k].tag) == Some(fields[k].value)
  {
    hide RenderAll;
    hide Dec;
    hide CheckSum;
    hide Payload;
    var f := Framed(fields);
    assert f[k + 2] == fields[k];
    assert forall j :: 2 <= j < k + 2 ==> f[j] == fields[j - 2];
    ValueIs(f, k + 2);
  }

  lemma {:induction false} FramedMissing(fields: seq<Field>, tag: int)
    requires Renderable(fields) && tag !in {8, 9, 10} && forall k :: 0 <= k < |fields| ==> fields[k].tag != tag
    ensures ValueAt(Framed(fields), tag) == None
  {
    hide RenderAll;
    hide Dec;
    hide CheckSum;
    hide Payload;
    ValueMissing(Framed(fields), tag);
  }

  /** Read back by tag, an encoded message carries its session header and every body field. */
  lemma {:induction false} EncodedTells(h: Header, body: seq<Field>)
    requires Renderable(body) && WellFormed(HeaderFields(h) + body) && Encode(h, body).Ok?
    ensures Parse(Encode(h, body).value).Ok?
    ensures var f := Parse(Encode(h, body).value).value;
            && ValueAt(f, 35) == Some(h.msgType) && ValueAt(f, 49) == Some(h.sender) && ValueAt(f, 56) == Some(h.target)
            && ValueAt(f, 34) == Some(Dec(h.seqNum)) && ValueAt(f, 52) == Some(h.sendingTime)
            && (h.possDup ==> ValueAt(f, 43) == Some("Y")) && (h.origSendingTime != None ==> ValueAt(f, 122) == h.origSendingTime)
            && forall k :: 0 <= k < |body| ==> ValueAt(f, body[k].tag) == Some(body[k].value)
  {
    hide Framed;
    hide Encode;
    hide Parse;
    hide ValueAt;
    hide WellFormed;
    hide HeaderFields;
    EncodeRoundTrip(h, body);
    HeaderTells(h, body);
    BodyTells(HeaderFields(h), body);
  }

  lemma BodyTells(header: seq<Field>, body: seq<Field>)
    requires WellFormed(header + body)
    ensures forall k :: 0 <= k < |body| ==> ValueAt(Framed(header + body), body[k].tag) == Some(body[k].value)
  {
    hide Framed;
    hide ValueAt;
    var n := |header|;
    forall k | 0 <= k < |body| ensures ValueAt(Framed(header + body), body[k].tag) == Some(body[k].value) {
      assert (header + body)[n + k] == body[k];
      FramedValues(header + body, n + k);
    }
  }

  lemma HeaderTells(h: Header, body: seq<Field>)
    requires Renderable(body) && WellFormed(HeaderFields(h) + body)
    ensures var f := Framed(HeaderFields(h) + body);
            && ValueAt(f, 35) == Some(h.msgType) && ValueAt(f, 49) == Some(h.sender) && ValueAt(f, 56) == Some(h.target)
            && ValueAt(f, 34) == Some(Dec(h.seqNum)) && ValueAt(f, 52) == Some(h.sendingTime)
            && (h.possDup ==> ValueAt(f, 43) == Some("Y")) && (h.origSendingTime != None ==> ValueAt(f, 122) == h.origSendingTime)
  {
    hide Framed;
    hide ValueAt;
    hide WellFormed;
    hide Dec;
    var fields := HeaderFields(h);
    var all := fields + body;
    var k := if h.possDup then 5 else 4;
    assert fields[0] == Field(35, h.msgType) && fields[1] == Field(49, h.sender) && fields[2] == Field(56, h.target);
    assert fields[3] == Field(34, Dec(h.seqNum)) && fields[k] == Field(52, h.sendingTime);
    assert h.possDup ==> fields[4] == Field(43, "Y");
    assert h.origSendingTime.Some? ==> |fields| == k + 2 && fields[k + 1] == Field(122, h.origSendingTime.value);
    assert forall j :: 0 <= j < |fields| ==> all[j] == fields[j];
    hide HeaderFields;
    FramedValues(all, 0);
    FramedValues(all, 1);
    FramedValues(all, 2);
    FramedValues(all, 3);
    FramedValues(all, k);
    if h.possDup { FramedValues(all, 4); }
    if h.origSendingTime.Some? { FramedValues(all, k + 1); }
  }

  /** A marked duplicate is the only one marked, and only a resent message names its first sending time. */
  lemma {:induction false} UnmarkedIsUnmarked(h: Header, body: seq<Field>)
    requires Renderable(body) && WellFormed(HeaderFields(h) + body)
    requires forall k :: 0 <= k < |body| ==> body[k].tag != 43 && body[k].tag != 122
    ensures !h.possDup ==> ValueAt(Framed(HeaderFields(h) + body), 43) == None
    ensures h.origSendingTime == None ==> ValueAt(Framed(HeaderFields(h) + body), 122) == None
  {
    if !h.possDup { FramedMissing(HeaderFields(h) + body, 43); }
    if h.origSendingTime.None? { FramedMissing(HeaderFields(h) + body, 122); }
  }

  // ----- the frame against the standard ---------------------------------------

  function Codes(s: string): (c: seq<int>)
    ensures |c| == |s| && forall i :: 0 <= i < |s| ==> c[i] == s[i] as int
  {
    seq(|s|, i requires 0 <= i < |s| => s[i] as int)
  }

  lemma {:induction false} ByteSumIs(s: string)
    ensures ByteSum(s) == Sum(Codes(s), |s|)
  {
    if s != [] {
      var n := |s| - 1;
      ByteSumIs(s[..n]);
      SumOfPrefix(Codes(s[..n]), Codes(s), n);
    }
  }

  lemma {:induction false} SumOfPrefix(x: seq<int>, y: seq<int>, n: nat)
    requires n <= |x| && n <= |y| && forall i :: 0 <= i < n ==> x[i] == y[i]
    ensures Sum(x, n) == Sum(y, n)
  {
    if n != 0 { SumOfPrefix(x, y, n - 1); }
  }

  /** Three digits as a number. */
  function Hundreds(a: char, b: char, c: char): int { (a as int - 48) * 100 + (b as int - 48) * 10 + (c as int - 48) }

  lemma ThreeDigits(n: nat)
    requires n < 1000
    ensures Hundreds(Dec3(n)[0], Dec3(n)[1], Dec3(n)[2]) == n
  {
  }

  /**
   FIX 4.4 Volume 2, "Checksum Calculation": the last field is tag 10, and its three digits are the sum of all
   bytes before it, modulo 256.  Tag 9 counts the bytes between its own delimiter and that last field.
   */
  lemma FrameIsStandard(after: string)
    ensures var wire := Frame(after); var n := |wire|;
            && n >= 7 && wire[n - 7..n - 4] == "10=" && wire[n - 1] == SOH
            && Hundreds(wire[n - 4], wire[n - 3], wire[n - 2]) == Sum(Codes(wire[..n - 7]), n - 7) % 256
            && wire[..n - 7] == "8=FIX.4.4" + [SOH] + "9=" + Dec(|after|) + [SOH] + after
  {
    var p := Payload(after);
    PayloadText(after);
    ByteSumIs(p);
    ThreeDigits(ByteSum(p) % 256);
    WireEnds(p, CheckSum(p));
    assert CheckSum(p) == Dec3(ByteSum(p) % 256);
    hide ByteSum;
    hide Dec;
    hide Dec3;
    hide Payload;
    hide CheckSum;
    hide Hundreds;
  }

  lemma HeadText()
    ensures HEAD == "8=FIX.4.4" + [SOH]
  {
  }

  lemma PayloadText(after: string)
    ensures Payload(after) == "8=FIX.4.4" + [SOH] + "9=" + Dec(|after|) + [SOH] + after
  {
    HeadText();
    hide Dec;
    var len, head := Dec(|after|), "8=FIX.4.4" + [SOH];
    assert Payload(after) == head + "9=" + len + [SOH] + after;
  }

  lemma WireEnds(p: string, check: string)
    requires |check| == 3
    ensures var wire := p + "10=" + check + [SOH]; var n := |wire|;
            && n == |p| + 7 && wire[..n - 7] == p && wire[n - 7..n - 4] == "10=" && wire[n - 1] == SOH
            && wire[n - 4] == check[0] && wire[n - 3] == check[1] && wire[n - 2] == check[2]
  {
    var wire := p + "10=" + check + [SOH];
    assert wire[|p|..|p| + 3] == "10=" && wire[|p| + 3..|p| + 6] == check;
    assert wire[|p| + 3] == check[0] && wire[|p| + 4] == check[1] && wire[|p| + 5] == check[2];
  }
}
