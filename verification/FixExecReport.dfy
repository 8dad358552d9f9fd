/**
 The execution-report flyweight.  One pass over a framed message fills the getters; on a rendered
 field list it reads each interesting field's value as the shared parsers would, up to the first
 message type that is not an execution report.
 */
module FixExecReport {
  import opened Outcomes
  import opened FixText
  import opened FixMessage
  import opened FixRoundTrip
  import opened FixNumbers
  import opened SeqFacts

  /** Tags: 35 type, 11 order id, 150 and 39 states, 54 side, 32/14/151 quantities, 31 price, 55 symbol. */
  datatype Report = Report(
    clOrdId: int, execType: int, ordStatus: int, side: int, lastQty: int, cumQty: int, leavesQty: int,
    lastPxMantissa: int, lastPxDecimals: nat, symbolOffset: int, symbolLength: int)

  const BLANK := Report(-1, 0, 0, 0, 0, 0, 0, 0, 0, -1, 0)

  type Outcome = Result<Report, string>

  /** A tag's characters as a number. */
  function TagOf(s: string): int {
    if s == [] then 0 else TagOf(s[..|s| - 1]) * 10 + (s[|s| - 1] as int - 48)
  }

  function OrElse(s: string, fallback: int): int {
    if s != [] && AllDigits(s) then Digits(s) else fallback
  }

  /** What one field does to the report; `first` is the character where its value starts. */
  function Read(r: Report, tag: int, at: nat, value: string, first: Option<char>): Outcome {
    if tag == 11 then Ok(r.(clOrdId := OrElse(value, -1)))
    else if tag == 150 || tag == 39 || tag == 54 then
      if first.None? then Err("index out of range")
      else
        var code := first.value as int;
        Ok(if tag == 150 then r.(execType := code) else if tag == 39 then r.(ordStatus := code) else r.(side := code))
    else if tag == 32 || tag == 14 || tag == 151 then
      match Quantity(value) {
        case Err(e) => Err(e)
        case Ok(q) => Ok(if tag == 32 then r.(lastQty := q) else if tag == 14 then r.(cumQty := q) else r.(leavesQty := q))
      }
    else if tag == 31 then Ok(r.(lastPxMantissa := SignedDigits(value), lastPxDecimals := Decimals(value)))
    else if tag == 55 then Ok(r.(symbolOffset := at, symbolLength := |value|))
    else Ok(r)
  }

  /** End of a run that stops at `c` or at `end`. */
  function StopAt(buf: string, c: char, p: nat, end: nat): (i: nat)
    requires end <= |buf|
    ensures p <= i && (p <= end ==> i <= end) && (p > end ==> i == p)
    ensures p <= i < end ==> buf[i] == c
    ensures forall k :: p <= k < i ==> buf[k] != c
    decreases end - p
  {
    if p >= end || buf[p] == c then p else StopAt(buf, c, p + 1, end)
  }

  function Slice(buf: string, frm: nat, to: nat): string {
    if frm <= to <= |buf| then buf[frm..to] else []
  }

  function At(buf: string, i: nat): Option<char> { if i < |buf| then Some(buf[i]) else None }

  datatype Stepped = Halt(outcome: Result<(bool, Report), string>) | Go(next: nat, report: Report, seen: bool)

  /** What a field with its value in `[from, to)` leads to. */
  function Dispatch(buf: string, tag: int, from: nat, to: nat, r: Report, seen: bool): Stepped {
    if tag == 35 then
      if to - from == 1 && At(buf, from) == Some('8') then Go(to + 1, r, true) else Halt(Ok((false, r)))
    else
      match Read(r, tag, from, Slice(buf, from, to), At(buf, from)) {
        case Err(e) => Halt(Err(e))
        case Ok(r') => Go(to + 1, r', seen)
      }
  }

  /** One field of the scan. */
  function Step(buf: string, p: nat, end: nat, r: Report, seen: bool): (s: Stepped)
    requires p < end <= |buf|
    ensures s.Go? ==> s.next > p
  {
    var eq := StopAt(buf, '=', p, end);
    Dispatch(buf, TagOf(buf[p..eq]), eq + 1, StopAt(buf, SOH, eq + 1, end), r, seen)
  }

  /** The scan from `p`: whether an execution report was seen, and the report. */
  function Scan(buf: string, p: nat, end: nat, r: Report, seen: bool): Result<(bool, Report), string>
    requires end <= |buf|
    decreases end - p
  {
    if p >= end then Ok((seen, r))
    else
      match Step(buf, p, end, r, seen) {
        case Halt(outcome) => outcome
        case Go(next, r', seen') => Scan(buf, next, end, r', seen')
      }
  }

  /** The verdict and, unless the scan raised, the getters are the scan's. */
  predicate Agrees(r: Result<bool, string>, report: Report, scan: Result<(bool, Report), string>) {
    match scan
    case Ok(pair) => r == Ok(pair.0) && report == pair.1
    case Err(e) => r == Err(e)
  }

  lemma ScanStep(buf: string, p: nat, end: nat, r: Report, seen: bool)
    requires p < end <= |buf|
    ensures var s := Step(buf, p, end, r, seen);
            Scan(buf, p, end, r, seen) == if s.Halt? then s.outcome else Scan(buf, s.next, end, s.report, s.seen)
  {
    hide Step;
  }

  lemma ScanEnd(buf: string, p: nat, end: nat, r: Report, seen: bool)
    requires end <= |buf| && p >= end
    ensures Scan(buf, p, end, r, seen) == Ok((seen, r))
  {
  }

  class FixExecReportView {
    var buf: string
    var report: Report

    constructor ()
      ensures report == BLANK && buf == ""
    {
      buf, report := "", BLANK;
    }

    /** Parses one framed message; the getters are undefined after an error. */
    method Wrap(buffer: string, offset: nat, length: nat) returns (r: Result<bool, string>)
      requires offset + length <= |buffer|
      modifies this
      ensures buf == buffer
      ensures Agrees(r, report, Scan(buffer, offset, offset + length, BLANK, false))
    {
      buf := buffer;
      r, report := ScanFields(buffer, offset, offset + length);
    }

    /** The single pass. */
    method ScanFields(buffer: string, offset: nat, end: nat) returns (r: Result<bool, string>, rep: Report)
      requires offset <= end <= |buffer|
      ensures Agrees(r, rep, Scan(buffer, offset, end, BLANK, false))
    {
      hide Step;
      hide Scan;
      var execReport, p := false, offset;
      rep := BLANK;
      while p < end
        invariant Scan(buffer, p, end, rep, execReport) == Scan(buffer, offset, end, BLANK, false)
        decreases end - p
      {
        ScanStep(buffer, p, end, rep, execReport);
        var step := TakeField(buffer, p, end, rep, execReport);
        if step.Halt? {
          r, rep := Verdict(step.outcome, rep);
          return;
        }
        p, rep, execReport := step.next, step.report, step.seen;
      }
      ScanEnd(buffer, p, end, rep, execReport);
      r := Ok(execReport);
    }

    method Verdict(outcome: Result<(bool, Report), string>, last: Report) returns (r: Result<bool, string>, rep: Report)
      ensures Agrees(r, rep, outcome)
    {
      if outcome.Ok? { return Ok(outcome.value.0), outcome.value.1; }
      return Err(outcome.error), last;
    }

    /** Scans one field and dispatches on its tag. */
    method TakeField(buffer: string, p: nat, end: nat, rep: Report, execReport: bool) returns (s: Stepped)
      requires p < end <= |buffer|
      ensures s == Step(buffer, p, end, rep, execReport)
    {
      hide Read;
      var tag, eq := ScanTag(buffer, p, end);
      var from := eq + 1;
      var to := SkipTo(buffer, SOH, from, end);
      if tag == 35 {
        if to - from == 1 && buffer[from] == '8' { return Go(to + 1, rep, true); }
        return Halt(Ok((false, rep)));
      }
      var next := Read(rep, tag, from, Slice(buffer, from, to), At(buffer, from));
      if next.Err? { return Halt(Err(next.error)); }
      return Go(to + 1, next.value, execReport);
    }

    method ScanTag(buffer: string, p: nat, end: nat) returns (tag: int, eq: nat)
      requires p < end <= |buffer|
      ensures eq == StopAt(buffer, '=', p, end) && tag == TagOf(buffer[p..eq])
    {
      tag, eq := 0, p;
      while eq < end && buffer[eq] != '='
        invariant p <= eq <= end && StopAt(buffer, '=', eq, end) == StopAt(buffer, '=', p, end)
        invariant tag == TagOf(buffer[p..eq])
      {
        assert buffer[p..eq + 1][..eq - p] == buffer[p..eq];
        tag := tag * 10 + (buffer[eq] as int - 48);
        eq := eq + 1;
      }
    }

    method SkipTo(buffer: string, c: char, from: nat, end: nat) returns (to: nat)
      requires end <= |buffer|
      ensures to == StopAt(buffer, c, from, end)
    {
      to := from;
      while to < end && buffer[to] != c
        invariant from <= to && (from <= end ==> to <= end) && StopAt(buffer, c, to, end) == StopAt(buffer, c, from, end)
      {
        to := to + 1;
      }
    }

    /** The symbol in place against a registered one. */
    method SymbolEquals(symbol: string) returns (same: bool)
      requires report.symbolOffset >= 0 ==> 0 <= report.symbolLength && report.symbolOffset + report.symbolLength <= |buf|
      ensures same <==>
                (report.symbolOffset >= 0 && symbol == buf[report.symbolOffset..report.symbolOffset + report.symbolLength])
    {
      if report.symbolOffset < 0 || |symbol| != report.symbolLength { return false; }
      return buf[report.symbolOffset..report.symbolOffset + report.symbolLength] == symbol;
    }
  }

  // ----- rendered messages ----------------------------------------------------

  /** The step a field at position `at` leads to. */
  function FieldStep(at: nat, f: Field, r: Report, seen: bool): Stepped
    requires f.tag >= 0
  {
    var from, next := at + |Dec(f.tag)| + 1, at + |Dec(f.tag)| + |f.value| + 2;
    if f.tag == 35 then
      if f.value == "8" then Go(next, r, true) else Halt(Ok((false, r)))
    else
      match Read(r, f.tag, from, f.value, Some(if f.value == [] then SOH else f.value[0])) {
        case Err(e) => Halt(Err(e))
        case Ok(r') => Go(next, r', seen)
      }
  }

  /** The fold over fields, each with the position of its value. */
  function ReadAll(fields: seq<Field>, at: nat, r: Report, seen: bool): Result<(bool, Report), string>
    requires Renderable(fields)
  {
    if fields == [] then Ok((seen, r))
    else
      match FieldStep(at, fields[0], r, seen) {
        case Halt(outcome) => outcome
        case Go(next, r', seen') => ReadAll(fields[1..], next, r', seen')
      }
  }

  lemma {:induction false} TagOfDec(n: nat)
    ensures TagOf(Dec(n)) == n
  {
    if n < 10 {
      assert Dec(n)[..0] == [];
    } else {
      TagOfDec(n / 10);
      assert Dec(n)[..|Dec(n)| - 1] == Dec(n / 10);
    }
  }

  lemma {:induction false} StopIs(buf: string, c: char, p: nat, end: nat, i: nat)
    requires p <= i < end <= |buf| && buf[i] == c && forall k :: p <= k < i ==> buf[k] != c
    ensures StopAt(buf, c, p, end) == i
  {
  }

  /** One rendered field inside a buffer: where its tag and value start and stop. */
  lemma FieldBounds(buf: string, p: nat, end: nat, f: Field)
    requires f.tag >= 0 && SOH !in f.value && end <= |buf| && p + |Render(f)| <= end && buf[p..p + |Render(f)|] == Render(f)
    ensures var eq := p + |Dec(f.tag)|;
            && StopAt(buf, '=', p, end) == eq && buf[p..eq] == Dec(f.tag)
            && StopAt(buf, SOH, eq + 1, end) == eq + 1 + |f.value|
            && buf[eq + 1..eq + 1 + |f.value|] == f.value && buf[eq + 1 + |f.value|] == SOH
            && eq + 2 + |f.value| == p + |Render(f)|
  {
    DecHasNo(f.tag, '=');
    TextBounds(buf, p, end, Dec(f.tag), f.value);
  }

  lemma TextBounds(buf: string, p: nat, end: nat, t: string, v: string)
    requires '=' !in t && SOH !in v && p + |t| + |v| + 2 <= end <= |buf|
    requires buf[p..p + |t| + |v| + 2] == t + "=" + v + [SOH]
    ensures var eq := p + |t|;
            && StopAt(buf, '=', p, end) == eq && buf[p..eq] == t
            && StopAt(buf, SOH, eq + 1, end) == eq + 1 + |v|
            && buf[eq + 1..eq + 1 + |v|] == v && buf[eq + 1 + |v|] == SOH
  {
    var eq, piece := p + |t|, buf[p..p + |t| + |v| + 2];
    PieceAt(buf, p, piece);
    Pieces(t, v, piece);
    StopIs(buf, '=', p, end, eq);
    StopIs(buf, SOH, eq + 1, end, eq + 1 + |v|);
  }

  lemma PieceAt(buf: string, p: nat, piece: string)
    requires p + |piece| <= |buf| && buf[p..p + |piece|] == piece
    ensures forall k {:trigger piece[k]} {:trigger buf[p + k]} :: 0 <= k < |piece| ==> buf[p + k] == piece[k]
    ensures forall i, j :: 0 <= i <= j <= |piece| ==> buf[p + i..p + j] == piece[i..j]
  {
  }

  lemma Pieces(t: string, v: string, piece: string)
    requires piece == t + "=" + v + [SOH]
    ensures |piece| == |t| + |v| + 2 && piece[0..|t|] == t && piece[|t| + 1..|t| + 1 + |v|] == v
    ensures piece[|t|] == '=' && piece[|t| + 1 + |v|] == SOH
    ensures forall k :: 0 <= k < |t| ==> piece[k] == t[k]
    ensures forall k :: 0 <= k < |v| ==> piece[|t| + 1 + k] == v[k]
  {
  }

  /** The scan of a rendered field list is the fold over its fields. */
  lemma {:induction false} ScanRendered(buf: string, p: nat, end: nat, fields: seq<Field>, r: Report, seen: bool)
    requires Renderable(fields) && end <= |buf| && p + |RenderAll(fields)| == end && buf[p..end] == RenderAll(fields)
    requires forall i :: 0 <= i < |fields| ==> SOH !in fields[i].value
    ensures Scan(buf, p, end, r, seen) == ReadAll(fields, p, r, seen)
    decreases |fields|
  {
    hide Render;
    hide Step;
    hide Read;
    hide Dec;
    if fields != [] {
      var f, rest := fields[0], fields[1..];
      RenderShape(f);
      var next := p + |Render(f)|;
      assert buf[p..end][..|Render(f)|] == buf[p..next] && buf[p..end][|Render(f)|..] == buf[next..end];
      ScanOne(buf, p, end, f, r, seen);
      var step := FieldStep(p, f, r, seen);
      if step.Go? { ScanRendered(buf, next, end, rest, step.report, step.seen); }
    }
  }

  lemma RenderShape(f: Field)
    requires f.tag >= 0
    ensures |Render(f)| == |Dec(f.tag)| + |f.value| + 2
  {
  }

  /** One step of the scan over a rendered field. */
  lemma ScanOne(buf: string, p: nat, end: nat, f: Field, r: Report, seen: bool)
    requires f.tag >= 0 && SOH !in f.value && end <= |buf| && p + |Render(f)| <= end && buf[p..p + |Render(f)|] == Render(f)
    ensures p < end && Step(buf, p, end, r, seen) == FieldStep(p, f, r, seen)
  {
    hide Render;
    hide StopAt;
    hide Read;
    hide Dec;
    hide TagOf;
    hide Dispatch;
    RenderShape(f);
    FieldBounds(buf, p, end, f);
    TagOfDec(f.tag);
    var from := p + |Dec(f.tag)| + 1;
    DispatchField(buf, f.tag, from, f.value, r, seen);
  }

  /** Dispatching on a value found in the buffer is dispatching on the value. */
  lemma DispatchField(buf: string, tag: int, from: nat, value: string, r: Report, seen: bool)
    requires from + |value| < |buf| && buf[from..from + |value|] == value && buf[from + |value|] == SOH
    ensures var to, read := from + |value|, Read(r, tag, from, value, Some(if value == [] then SOH else value[0]));
            Dispatch(buf, tag, from, to, r, seen) ==
            if tag == 35 then (if value == "8" then Go(to + 1, r, true) else Halt(Ok((false, r))))
            else if read.Ok? then Go(to + 1, read.value, seen)
            else Halt(Err(read.error))
  {
    FirstChar(buf, from, value);
    assert Slice(buf, from, from + |value|) == value;
    hide Read;
    hide At;
    hide Slice;
  }

  lemma FirstChar(buf: string, from: nat, value: string)
    requires from + |value| < |buf| && buf[from..from + |value|] == value && buf[from + |value|] == SOH
    ensures At(buf, from) == Some(if value == [] then SOH else value[0])
    ensures value == "8" <==> |value| == 1 && At(buf, from) == Some('8')
  {
    if value != [] { assert buf[from] == buf[from..from + |value|][0]; }
  }

  // ----- what the getters return ----------------------------------------------

  /** The getter, or pair of getters, a tag feeds. */
  function Getter(r: Report, tag: int): (int, int) {
    if tag == 11 then (r.clOrdId, 0)
    else if tag == 150 then (r.execType, 0)
    else if tag == 39 then (r.ordStatus, 0)
    else if tag == 54 then (r.side, 0)
    else if tag == 32 then (r.lastQty, 0)
    else if tag == 14 then (r.cumQty, 0)
    else if tag == 151 then (r.leavesQty, 0)
    else if tag == 31 then (r.lastPxMantissa, r.lastPxDecimals)
    else if tag == 55 then (r.symbolOffset, r.symbolLength)
    else (0, 0)
  }

  /** A field writes its own getter, whatever was there, and no other. */
  lemma ReadIsLocal(r: Report, q: Report, tag: int, at: nat, value: string, first: Option<char>, other: int)
    ensures var a, b := Read(r, tag, at, value, first), Read(q, tag, at, value, first);
            && (a.Ok? <==> b.Ok?)
            && (a.Ok? ==> Getter(a.value, tag) == Getter(b.value, tag))
            && (a.Ok? && other != tag ==> Getter(a.value, other) == Getter(r, other))
  {
    hide Quantity;
    hide Digits;
    hide SignedDigits;
  }

  lemma {:induction false} Unread(fields: seq<Field>, at: nat, r: Report, seen: bool, tag: int)
    requires Renderable(fields) && forall i :: 0 <= i < |fields| ==> fields[i].tag != tag
    requires ReadAll(fields, at, r, seen).Ok?
    ensures Getter(ReadAll(fields, at, r, seen).value.1, tag) == Getter(r, tag)
    decreases |fields|
  {
    hide Read;
    hide Getter;
    if fields != [] {
      var f := fields[0];
      ReadIsLocal(r, r, f.tag, at + |Dec(f.tag)| + 1, f.value, Some(if f.value == [] then SOH else f.value[0]), tag);
      var step := FieldStep(at, f, r, seen);
      if step.Go? { Unread(fields[1..], step.next, step.report, step.seen, tag); }
    }
  }

  /** In an accepted report every getter returns what its field alone would read to. */
  lemma {:induction false} GetterIsField(fields: seq<Field>, at: nat, r: Report, seen: bool, k: nat) returns (from: nat)
    requires Renderable(fields) && k < |fields| && fields[k].tag != 35
    requires forall i, j :: 0 <= i < j < |fields| ==> fields[i].tag != fields[j].tag
    requires ReadAll(fields, at, r, seen).Ok? && ReadAll(fields, at, r, seen).value.0
    ensures var f := fields[k];
            var alone := Read(BLANK, f.tag, from, f.value, Some(if f.value == [] then SOH else f.value[0]));
            alone.Ok? && Getter(ReadAll(fields, at, r, seen).value.1, f.tag) == Getter(alone.value, f.tag)
    ensures from == at + |RenderAll(fields[..k])| + |Dec(fields[k].tag)| + 1
    decreases |fields|
  {
    hide Read;
    hide Getter;
    hide Dec;
    var f := fields[0];
    var first := Some(if f.value == [] then SOH else f.value[0]);
    var step := FieldStep(at, f, r, seen);
    from := at + |Dec(f.tag)| + 1;
    ReadIsLocal(r, BLANK, f.tag, from, f.value, first, f.tag);
    if k == 0 {
      Unread(fields[1..], step.next, step.report, step.seen, f.tag);
    } else {
      from := GetterIsField(fields[1..], step.next, step.report, step.seen, k - 1);
      assert fields[1..][..k - 1] == fields[..k][1..];
      RenderShape(f);
    }
  }

  /** A value inside a rendered field list, where `GetterIsField` says it starts. */
  lemma {:induction false} PlaceOf(fields: seq<Field>, k: nat)
    requires Renderable(fields) && k < |fields|
    ensures var from := |RenderAll(fields[..k])| + |Dec(fields[k].tag)| + 1;
            from + |fields[k].value| <= |RenderAll(fields)| && RenderAll(fields)[from..from + |fields[k].value|] == fields[k].value
    decreases |fields|
  {
    hide Dec;
    var f, rest := fields[0], RenderAll(fields[1..]);
    if k == 0 {
      assert fields[..0] == [];
      var t, v := Dec(f.tag), f.value;
      assert RenderAll(fields) == (t + "=") + v + ([SOH] + rest);
    } else {
      PlaceOf(fields[1..], k - 1);
      assert fields[1..][..k - 1] == fields[..k][1..];
      RenderShape(f);
      hide Render;
    }
  }

  /** What `SymbolEquals` compares with after an accepted report: the rendered symbol, or nothing when there is none. */
  lemma {:induction false} SymbolIsRendered(buf: string, p: nat, end: nat, fields: seq<Field>, symbol: string)
    requires Renderable(fields) && end <= |buf| && p + |RenderAll(fields)| == end && buf[p..end] == RenderAll(fields)
    requires forall i :: 0 <= i < |fields| ==> SOH !in fields[i].value
    requires forall i, j :: 0 <= i < j < |fields| ==> fields[i].tag != fields[j].tag
    requires var scan := Scan(buf, p, end, BLANK, false); scan.Ok? && scan.value.0
    ensures var r := Scan(buf, p, end, BLANK, false).value.1;
            && (r.symbolOffset >= 0 ==> 0 <= r.symbolLength && r.symbolOffset + r.symbolLength <= |buf|)
            && ((r.symbolOffset >= 0 && symbol == buf[r.symbolOffset..r.symbolOffset + r.symbolLength])
                == (exists k :: 0 <= k < |fields| && fields[k].tag == 55 && fields[k].value == symbol))
  {
    hide Scan;
    hide ReadAll;
    hide Dec;
    hide Quantity;
    hide RenderAll;
    hide Renderable;
    ScanRendered(buf, p, end, fields, BLANK, false);
    if k :| 0 <= k < |fields| && fields[k].tag == 55 {
      var from := GetterIsField(fields, p, BLANK, false, k);
      PlaceOf(fields, k);
      var n := |fields[k].value|;
      SubSlice(buf, p, end, from - p, from - p + n);
    } else {
      Unread(fields, p, BLANK, false, 55);
    }
  }

  /** What an accepted report says, getter by getter: numbers in the encoder's renderings, codes as their first character. */
  lemma {:induction false} ReportReads(fields: seq<Field>, at: nat, r: Report, seen: bool, k: nat, n: nat, decimals: nat)
    requires Renderable(fields) && k < |fields|
    requires forall i, j :: 0 <= i < j < |fields| ==> fields[i].tag != fields[j].tag
    requires ReadAll(fields, at, r, seen).Ok? && ReadAll(fields, at, r, seen).value.0
    ensures RenderPrice(n, decimals).Some?
    ensures var f, rep := fields[k], ReadAll(fields, at, r, seen).value.1;
            && (f.value == Dec(n) ==>
                  && (f.tag == 11 ==> rep.clOrdId == n) && (f.tag == 32 ==> rep.lastQty == n)
                  && (f.tag == 14 ==> rep.cumQty == n) && (f.tag == 151 ==> rep.leavesQty == n))
            && (f.tag == 31 && f.value == RenderPrice(n, decimals).value ==>
                  rep.lastPxMantissa == n && rep.lastPxDecimals == decimals)
            && (f.value != [] ==>
                  && (f.tag == 150 ==> rep.execType == f.value[0] as int) && (f.tag == 39 ==> rep.ordStatus == f.value[0] as int)
                  && (f.tag == 54 ==> rep.side == f.value[0] as int))
  {
    hide ReadAll;
    hide RenderPrice;
    hide Quantity;
    hide SignedDigits;
    hide Decimals;
    PriceRoundTrip(n, decimals);
    QuantityRoundTrip(n, 0);
    DigitsOfDec(n);
    var f := fields[k];
    if f.tag != 35 {
      var from := GetterIsField(fields, at, r, seen, k);
    }
  }
}
