/**
 The incremental framer: bytes are fed in any fragmentation, complete messages
 are polled out.  `FrameOf` is what one poll decides from the buffer.
 */
module FixDecoder {
  import opened Outcomes
  import opened FixText
  import opened FixMessage

  const BODY_LENGTH_CAP := 0x10_0000

  /** `OutOfRange` is the index error of looking one or two bytes past a delimiter at the buffer's end. */
  datatype Verdict = NeedMore | Corrupt | OutOfRange | Complete(total: nat)

  /** The declared length, digit by digit; `None` on a bad digit or once it passes the cap. */
  function BodyLength(digits: string, acc: nat): Option<nat> {
    if digits == [] then Some(acc)
    else if !IsDigit(digits[0]) then None
    else
      var next := acc * 10 + (digits[0] as int - 48);
      if next > BODY_LENGTH_CAP then None else BodyLength(digits[1..], next)
  }

  function FrameOf(buf: string): (v: Verdict)
    ensures v.Complete? ==> 0 < v.total <= |buf|
  {
    if |buf| < 20 then NeedMore
    else
      var soh := IndexFrom(buf, SOH, 0);
      if soh == |buf| then NeedMore
      else if soh + 1 == |buf| then OutOfRange
      else if buf[soh + 1] != '9' then Corrupt
      else if soh + 2 == |buf| then OutOfRange
      else if buf[soh + 2] != '=' then Corrupt
      else
        var end := IndexFrom(buf, SOH, soh + 3);
        if end == |buf| then NeedMore
        else if end == soh + 3 then Corrupt
        else
          match BodyLength(buf[soh + 3..end], 0)
          case None => Corrupt
          case Some(bodyLen) =>
            var total := end + 1 + bodyLen + 7;
            if |buf| < total then NeedMore else Complete(total)
  }

  datatype Polled = Nothing | Message(fields: seq<Field>) | BadMessage(error: FixError) | StreamCorrupt | IndexError

  class FixDecoder {
    var buffer: string

    constructor ()
      ensures buffer == []
    {
      buffer := [];
    }

    method Feed(data: string, offset: nat, count: nat)
      requires offset + count <= |data|
      modifies this
      ensures buffer == old(buffer) + data[offset..offset + count]
    {
      buffer := buffer + data[offset..offset + count];
    }

    /** The digit loop: fails on the first byte that is no digit and as soon as the cap is passed. */
    method ReadLength(from: nat, end: nat) returns (r: Option<nat>)
      requires from <= end <= |buffer|
      ensures r == BodyLength(buffer[from..end], 0)
    {
      var bodyLen := 0;
      for i := from to end
        invariant bodyLen >= 0
        invariant BodyLength(buffer[from..end], 0) == BodyLength(buffer[i..end], bodyLen)
      {
        assert buffer[i..end][1..] == buffer[i + 1..end];
        var digit := buffer[i] as int - 48;
        if digit < 0 || digit > 9 { return None; }
        bodyLen := bodyLen * 10 + digit;
        if bodyLen > BODY_LENGTH_CAP { return None; }
      }
      return Some(bodyLen);
    }

    /** The next complete message, or nothing and the buffer as it was. */
    method Poll() returns (r: Polled)
      modifies this
      ensures match FrameOf(old(buffer))
              case NeedMore => r == Nothing && buffer == old(buffer)
              case Corrupt => r == StreamCorrupt && buffer == old(buffer)
              case OutOfRange => r == IndexError && buffer == old(buffer)
              case Complete(total) =>
                && buffer == old(buffer)[total..]
                && match Parse(old(buffer)[..total])
                   case Ok(fields) => r == Message(fields)
                   case Err(e) => r == BadMessage(e)
    {
      hide Parse;
      hide BodyLength;
      if |buffer| < 20 { return Nothing; }
      var soh := IndexFrom(buffer, SOH, 0);
      if soh == |buffer| { return Nothing; }
      if soh + 1 == |buffer| { return IndexError; }
      if buffer[soh + 1] != '9' { return StreamCorrupt; }
      if soh + 2 == |buffer| { return IndexError; }
      if buffer[soh + 2] != '=' { return StreamCorrupt; }
      var end := IndexFrom(buffer, SOH, soh + 3);
      if end == |buffer| { return Nothing; }
      if end == soh + 3 { return StreamCorrupt; }
      var declared := ReadLength(soh + 3, end);
      if declared.None? { return StreamCorrupt; }
      var bodyLen := declared.value;
      var total := end + 1 + bodyLen + 7;
      if |buffer| < total { return Nothing; }
      var message := buffer[..total];
      buffer := buffer[total..];
      var parsed := ParseMessage(message);
      match parsed
      case Ok(fields) => return Message(fields);
      case Err(e) => return BadMessage(e);
    }
  }

  // ----- a session: feed a chunk, poll until nothing comes -------------------

  datatype Status = Open | Failed(why: Polled)

  datatype Session = Session(out: seq<seq<Field>>, buf: string, status: Status)

  /** Polling a buffer dry. */
  function Drain(buf: string): Session
    decreases |buf|
  {
    match FrameOf(buf)
    case NeedMore => Session([], buf, Open)
    case Corrupt => Session([], buf, Failed(StreamCorrupt))
    case OutOfRange => Session([], buf, Failed(IndexError))
    case Complete(total) =>
      match Parse(buf[..total])
      case Err(e) => Session([], buf[total..], Failed(BadMessage(e)))
      case Ok(fields) =>
        var rest := Drain(buf[total..]);
        rest.(out := [fields] + rest.out)
  }

  /** One chunk arrives; a failed session takes no more. */
  function OnChunk(s: Session, chunk: string): Session {
    if s.status.Failed? then s.(buf := s.buf + chunk)
    else
      var d := Drain(s.buf + chunk);
      d.(out := s.out + d.out)
  }

  function OnChunks(chunks: seq<string>): Session {
    if chunks == [] then Drain([])
    else OnChunk(OnChunks(chunks[..|chunks| - 1]), chunks[|chunks| - 1])
  }

  function Concat(chunks: seq<string>): string {
    if chunks == [] then [] else Concat(chunks[..|chunks| - 1]) + chunks[|chunks| - 1]
  }

  /** The loop a session runs over one decoder is `Drain`. */
  method PollAll(d: FixDecoder) returns (s: Session)
    modifies d
    ensures s == Drain(old(d.buffer)) && d.buffer == s.buf
  {
    hide FrameOf;
    hide Parse;
    var out: seq<seq<Field>> := [];
    ghost var start := d.buffer;
    while true
      invariant var now := Drain(d.buffer); Drain(start) == now.(out := out + now.out)
      decreases |d.buffer|
    {
      var p := d.Poll();
      match p
      case Nothing => return Session(out, d.buffer, Open);
      case Message(fields) => out := out + [fields];
      case BadMessage(_) => return Session(out, d.buffer, Failed(p));
      case StreamCorrupt => return Session(out, d.buffer, Failed(p));
      case IndexError => return Session(out, d.buffer, Failed(p));
    }
  }

  // ----- what more bytes can change ------------------------------------------

  /** A verdict other than "need more" survives any bytes that follow. */
  lemma {:induction false} VerdictStable(buf: string, more: string)
    requires FrameOf(buf).Complete? || FrameOf(buf).Corrupt?
    ensures FrameOf(buf + more) == FrameOf(buf)
  {
    hide BodyLength;
    hide IndexFrom;
    var all := buf + more;
    var soh := IndexFrom(buf, SOH, 0);
    IndexStable(buf, all, SOH, 0);
    if buf[soh + 1] == '9' && buf[soh + 2] == '=' {
      var end := IndexFrom(buf, SOH, soh + 3);
      IndexStable(buf, all, SOH, soh + 3);
      assert all[soh + 3..end] == buf[soh + 3..end];
    }
  }

  /** At least 20 bytes whose first delimiter is the last, or the last but one before a `9`. */
  predicate EndsOnDelimiter(buf: string) {
    && |buf| >= 20
    && (IndexFrom(buf, SOH, 0) == |buf| - 1 || (IndexFrom(buf, SOH, 0) == |buf| - 2 && buf[|buf| - 1] == '9'))
  }

  /** When exactly one poll reads past the end. */
  lemma {:induction false} IndexErrorExactly(buf: string)
    ensures FrameOf(buf) == OutOfRange <==> EndsOnDelimiter(buf)
  {
  }

  /** Draining a stream in two pieces is draining it in one. */
  lemma {:induction false} DrainAppend(buf: string, more: string)
    requires Drain(buf).status == Open
    ensures var first := Drain(buf);
            var rest := Drain(first.buf + more);
            Drain(buf + more) == rest.(out := first.out + rest.out)
    decreases |buf|
  {
    hide FrameOf;
    hide Parse;
    var v := FrameOf(buf);
    if v.Complete? {
      VerdictStable(buf, more);
      var n := v.total;
      assert (buf + more)[..n] == buf[..n] && (buf + more)[n..] == buf[n..] + more;
      DrainAppend(buf[n..], more);
    }
  }

  lemma {:induction false} DrainFailed(buf: string, more: string)
    requires Drain(buf).status.Failed? && Drain(buf).status != Failed(IndexError)
    ensures Drain(buf + more) == Drain(buf).(buf := Drain(buf).buf + more)
    decreases |buf|
  {
    hide FrameOf;
    hide Parse;
    VerdictStable(buf, more);
    var v := FrameOf(buf);
    if v.Complete? {
      var n := v.total;
      assert (buf + more)[..n] == buf[..n] && (buf + more)[n..] == buf[n..] + more;
      if Parse(buf[..n]).Ok? { DrainFailed(buf[n..], more); }
    }
  }

  // ----- segmentation ---------------------------------------------------------

  /** The bytes behind the last well-formed message; `None` behind a message that does not parse. */
  function Undrained(stream: string): Option<string>
    decreases |stream|
  {
    match FrameOf(stream)
    case Complete(total) => if Parse(stream[..total]).Ok? then Undrained(stream[total..]) else None
    case _ => Some(stream)
  }

  /** Whether a stream cut here is polled past its end. */
  predicate Trap(stream: string) {
    var rest := Undrained(stream);
    rest.Some? && EndsOnDelimiter(rest.value)
  }

  /** What may still follow a trap without showing that it was one. */
  predicate Harmless(rest: string, after: string) {
    after == [] || (after == ['9'] && rest != [] && rest[|rest| - 1] == SOH)
  }

  /** A cut that makes a difference: the bytes before it end in a trap, and those behind it would have resolved it. */
  predicate BadCut(before: string, after: string) {
    Trap(before) && !Harmless(Undrained(before).value, after)
  }

  lemma {:induction false} TrapExactly(stream: string)
    ensures Drain(stream).status == Failed(IndexError) <==> Trap(stream)
    ensures Trap(stream) ==> Drain(stream).buf == Undrained(stream).value
    decreases |stream|
  {
    hide FrameOf;
    hide Parse;
    hide EndsOnDelimiter;
    IndexErrorExactly(stream);
    var v := FrameOf(stream);
    if v.Complete? && Parse(stream[..v.total]).Ok? { TrapExactly(stream[v.total..]); }
  }

  /** Whatever follows a trap, the stream fed whole stops there too if and only if what follows is harmless. */
  lemma {:induction false} BehindTrap(before: string, after: string)
    requires Trap(before)
    ensures (Drain(before + after) == Stuck(before, after)) == Harmless(Undrained(before).value, after)
    decreases |before|
  {
    hide FrameOf;
    hide Parse;
    hide EndsOnDelimiter;
    hide Harmless;
    var v := FrameOf(before);
    if v.Complete? {
      VerdictStable(before, after);
      var n := v.total;
      assert (before + after)[..n] == before[..n] && (before + after)[n..] == before[n..] + after;
      var rest := Drain(before[n..]);
      BehindTrap(before[n..], after);
      var whole := Drain(before[n..] + after);
      assert (whole == rest.(buf := rest.buf + after)) == Harmless(Undrained(before).value, after);
      assert Drain(before) == rest.(out := [Parse(before[..n]).value] + rest.out);
      assert Drain(before + after) == whole.(out := [Parse(before[..n]).value] + whole.out);
      SamePrefix([Parse(before[..n]).value], whole, rest.(buf := rest.buf + after));
    } else {
      FrameBehindTrap(before, after);
      IndexErrorExactly(before);
    }
  }

  lemma SamePrefix(first: seq<seq<Field>>, a: Session, b: Session)
    ensures (a == b) == (a.(out := first + a.out) == b.(out := first + b.out))
  {
    assert (first + a.out)[|first|..] == a.out && (first + b.out)[|first|..] == b.out;
  }

  lemma {:induction false} FrameBehindTrap(before: string, after: string)
    requires EndsOnDelimiter(before)
    ensures FrameOf(before + after) == OutOfRange <==> Harmless(before, after)
  {
    IndexStable(before, before + after, SOH, 0);
  }

  lemma {:induction false} ConcatJoin(chunks: seq<string>, k: nat)
    requires k <= |chunks|
    ensures Concat(chunks) == Concat(chunks[..k]) + Concat(chunks[k..])
    decreases |chunks|
  {
    if k == |chunks| {
      assert chunks[..k] == chunks;
    } else {
      var n := |chunks| - 1;
      ConcatJoin(chunks[..n], k);
      assert chunks[..n][..k] == chunks[..k];
      assert chunks[k..][..n - k] == chunks[..n][k..] && chunks[k..][n - k] == chunks[n];
    }
  }

  /**
   Segmentation is invisible for every byte stream, valid or corrupt: cut it anywhere,
   and messages, failure and remaining buffer are those of the stream fed whole --
   as long as no cut leaves a trap.
   */
  lemma {:induction false} SegmentationInvisible(chunks: seq<string>)
    requires !Trapped(chunks)
    ensures OnChunks(chunks) == Drain(Concat(chunks))
  {
    if chunks != [] {
      var n := |chunks| - 1;
      var front, last := chunks[..n], chunks[n];
      TrappedFront(chunks);
      SegmentationInvisible(front);
      TrapExactly(Concat(front));
      if Drain(Concat(front)).status == Open {
        DrainAppend(Concat(front), last);
      } else {
        DrainFailed(Concat(front), last);
      }
    }
  }

  /** Whether some cut leaves a trap. */
  predicate Trapped(chunks: seq<string>) { exists k :: 0 <= k < |chunks| && Trap(Concat(chunks[..k])) }

  lemma TrappedFront(chunks: seq<string>)
    requires chunks != []
    ensures var n := |chunks| - 1; Trapped(chunks) <==> Trapped(chunks[..n]) || Trap(Concat(chunks[..n]))
  {
    hide Trap;
    hide Concat;
    var n := |chunks| - 1;
    assert forall j :: 0 <= j <= n ==> chunks[..n][..j] == chunks[..j];
  }

  /** A session that meets a trap stays in the first one. */
  lemma {:induction false} FirstTrap(chunks: seq<string>) returns (k: nat)
    requires Trapped(chunks)
    ensures k < |chunks| && Trap(Concat(chunks[..k])) && !Trapped(chunks[..k])
    ensures OnChunks(chunks) == Stuck(Concat(chunks[..k]), Concat(chunks[k..]))
  {
    hide Trap;
    hide Stuck;
    hide Drain;
    assert chunks != [];
    hide Trapped;
    hide Concat;
    var n := |chunks| - 1;
    var front, last := chunks[..n], chunks[n];
    TrappedFront(chunks);
    if Trapped(front) {
      k := FirstTrap(front);
      assert front[..k] == chunks[..k];
      ConcatTail(chunks, k);
      StaysStuck(Concat(chunks[..k]), Concat(front[k..]), last);
    } else {
      k := n;
      SegmentationInvisible(front);
      ConcatTail(chunks, n);
      assert front[n..] == [] && [] + last == last;
      ConcatNothing();
      StaysStuck(Concat(front), [], last);
    }
  }

  lemma ConcatNothing()
    ensures Concat([]) == []
  {
  }

  lemma ConcatTail(chunks: seq<string>, k: nat)
    requires k < |chunks|
    ensures var n := |chunks| - 1; Concat(chunks[k..]) == Concat(chunks[..n][k..]) + chunks[n]
  {
    var n := |chunks| - 1;
    assert chunks[k..][..n - k] == chunks[..n][k..] && chunks[k..][n - k] == chunks[n];
  }

  /** A stream drained into a trap, and the bytes that came in afterwards. */
  function Stuck(before: string, after: string): Session {
    var d := Drain(before);
    d.(buf := d.buf + after)
  }

  lemma StaysStuck(before: string, after: string, chunk: string)
    requires Trap(before)
    ensures OnChunk(Stuck(before, after), chunk) == Stuck(before, after + chunk)
    ensures Stuck(before, []) == Drain(before) && Stuck(before, []).status == Failed(IndexError)
  {
    TrapExactly(before);
    hide Drain;
    hide Trap;
    var d := Drain(before);
    assert d.buf + after + chunk == d.buf + (after + chunk) && d.buf + [] == d.buf;
  }

  /** The exact condition: a segmentation goes unnoticed if and only if none of its cuts is bad. */
  lemma {:induction false} SegmentationExactly(chunks: seq<string>)
    ensures (OnChunks(chunks) == Drain(Concat(chunks)))
         == (forall k :: 0 <= k < |chunks| ==> !BadCut(Concat(chunks[..k]), Concat(chunks[k..])))
  {
    if Trapped(chunks) {
      var first := FirstTrap(chunks);
      var before, after := Concat(chunks[..first]), Concat(chunks[first..]);
      ConcatJoin(chunks, first);
      BehindTrap(before, after);
      if Harmless(Undrained(before).value, after) {
        forall j | 0 <= j < |chunks| ensures !BadCut(Concat(chunks[..j]), Concat(chunks[j..])) {
          if j > first { LaterCut(chunks, first, j); }
          if j < first { assert chunks[..first][..j] == chunks[..j]; }
        }
      }
    } else {
      SegmentationInvisible(chunks);
    }
  }

  /** Behind a harmless trap every later cut is harmless. */
  lemma {:induction false} LaterCut(chunks: seq<string>, k: nat, j: nat)
    requires k < j < |chunks| && Trap(Concat(chunks[..k]))
    requires Harmless(Undrained(Concat(chunks[..k])).value, Concat(chunks[k..]))
    ensures !BadCut(Concat(chunks[..j]), Concat(chunks[j..]))
  {
    hide Trap;
    hide Undrained;
    ConcatJoin(chunks[..j], k);
    ConcatJoin(chunks[k..], j - k);
    assert chunks[..j][..k] == chunks[..k] && chunks[..j][k..] == chunks[k..][..j - k];
    assert chunks[k..][j - k..] == chunks[j..];
    var mid := Concat(chunks[k..j]);
    assert chunks[..j][k..] == chunks[k..j];
    assert mid == [] || Concat(chunks[j..]) == [];
    if mid == [] { assert Concat(chunks[..j]) == Concat(chunks[..k]); }
  }

  /** Whether the two at least end alike: a trap met on the way must be one the whole stream ends in. */
  lemma {:induction false} SameStatusExactly(chunks: seq<string>)
    ensures (OnChunks(chunks).status == Drain(Concat(chunks)).status)
         == (Trapped(chunks) ==> Trap(Concat(chunks)))
  {
    hide Trap;
    TrapExactly(Concat(chunks));
    if Trapped(chunks) {
      var first := FirstTrap(chunks);
      TrapExactly(Concat(chunks[..first]));
    } else {
      SegmentationInvisible(chunks);
    }
  }

  /** Without that proviso it is false: the same 23 bytes fail when a chunk ends on their delimiter. */
  lemma {:induction false} CutAfterDelimiterFails(a: string)
    requires |a| == 19 && SOH !in a
    ensures var b := ['9', '=', '0'];
            && OnChunks([a + [SOH], b]).status == Failed(IndexError)
            && OnChunks([a + [SOH] + b]).status == Open
  {
    var b := ['9', '=', '0'];
    var first := a + [SOH];
    IndexIs(first, SOH, 0, 19);
    assert [first, b][..1] == [first] && [first][..0] == [];
    assert [] + first == first;
    assert OnChunks([first]) == OnChunk(OnChunks([]), first);
    var whole := first + b;
    IndexIs(whole, SOH, 0, 19);
    assert [] + whole == whole;
    assert [whole][..0] == [];
    assert OnChunks([whole]) == OnChunk(OnChunks([]), whole);
    assert IndexFrom(whole, SOH, 22) == |whole|;
    assert FrameOf(whole) == NeedMore;
  }
}
