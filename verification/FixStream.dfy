/** Encoded messages through the framer: every way of cutting the stream yields exactly those messages. */
module FixStream {
  import opened Outcomes
  import opened FixText
  import opened FixMessage
  import opened FixDecoder
  import opened FixRoundTrip

  /** A message the framer accepts: well-formed fields whose rendering fits the length cap. */
  predicate Sendable(fields: seq<Field>) {
    WellFormed(fields) && |RenderAll(fields)| <= BODY_LENGTH_CAP
  }

  predicate AllSendable(messages: seq<seq<Field>>) { forall i :: 0 <= i < |messages| ==> Sendable(messages[i]) }

  function Wire(messages: seq<seq<Field>>): string
    requires AllSendable(messages)
  {
    if messages == [] then [] else Frame(RenderAll(messages[0])) + Wire(messages[1..])
  }

  function Received(messages: seq<seq<Field>>): seq<seq<Field>>
    requires AllSendable(messages)
  {
    if messages == [] then [] else [Framed(messages[0])] + Received(messages[1..])
  }

  lemma {:induction false} LengthSnoc(s: string, c: char, acc: nat)
    requires IsDigit(c) && BodyLength(s, acc).Some?
    requires BodyLength(s, acc).value * 10 + (c as int - 48) <= BODY_LENGTH_CAP
    ensures BodyLength(s + [c], acc) == Some(BodyLength(s, acc).value * 10 + (c as int - 48))
  {
    if s == [] {
      assert (s + [c])[1..] == [];
    } else {
      assert (s + [c])[1..] == s[1..] + [c];
      LengthSnoc(s[1..], c, acc * 10 + (s[0] as int - 48));
    }
  }

  lemma {:induction false} LengthOfDec(n: nat)
    requires n <= BODY_LENGTH_CAP
    ensures BodyLength(Dec(n), 0) == Some(n)
  {
    if n < 10 {
      LengthSnoc([], Digit(n), 0);
      assert [] + [Digit(n)] == Dec(n);
    } else {
      LengthOfDec(n / 10);
      LengthSnoc(Dec(n / 10), Digit(n % 10), 0);
    }
  }

  /** Where the two delimiters of a frame's head stand. */
  lemma {:induction false} HeadShape(after: string)
    ensures var wire, n := Frame(after), 12 + |Dec(|after|)|;
            && IndexFrom(wire, SOH, 0) == 9 && wire[10] == '9' && wire[11] == '='
            && IndexFrom(wire, SOH, 12) == n && wire[12..n] == Dec(|after|)
            && |wire| == n + 1 + |after| + 7
  {
    hide CheckSum;
    hide Dec;
    var len, tail := Dec(|after|), "10=" + CheckSum(Payload(after)) + [SOH];
    DecHasNo(|after|, SOH);
    HeadParts(len, after + tail);
    var wire := HEAD + "9=" + len + [SOH] + (after + tail);
    FrameText(after);
    IndexIs(wire, SOH, 0, 9);
    IndexIs(wire, SOH, 12, 12 + |len|);
  }

  lemma FrameText(after: string)
    ensures var tail := "10=" + CheckSum(Payload(after)) + [SOH];
            Frame(after) == HEAD + "9=" + Dec(|after|) + [SOH] + (after + tail)
  {
    hide CheckSum;
    hide Dec;
    Regroup(HEAD + "9=" + Dec(|after|) + [SOH], after, "10=", CheckSum(Payload(after)), [SOH]);
  }

  lemma Regroup(a: string, b: string, c: string, d: string, e: string)
    ensures a + b + c + d + e == a + (b + (c + d + e))
  {
  }

  /** A whole frame is recognised at its exact length. */
  lemma {:induction false} FrameComplete(after: string)
    requires |after| <= BODY_LENGTH_CAP
    ensures FrameOf(Frame(after)) == Complete(|Frame(after)|)
  {
    HeadShape(after);
    LengthOfDec(|after|);
  }

  /** A proper prefix of a frame is never a message and never an error. */
  lemma {:induction false} PrefixNeedsMore(p: string, after: string)
    requires |after| <= BODY_LENGTH_CAP && p <= Frame(after) && p != Frame(after)
    ensures FrameOf(p) == NeedMore && Drain(p) == Session([], p, Open)
  {
    var wire := Frame(after);
    HeadShape(after);
    FrameComplete(after);
    var more := wire[|p|..];
    assert wire == p + more;
    if |p| >= 20 {
      assert p[9] == wire[9];
      IndexIs(p, SOH, 0, 9);
      if FrameOf(p).Complete? || FrameOf(p).Corrupt? {
        VerdictStable(p, more);
        assert false;
      }
    }
  }

  /** The first frame comes off, the rest of the stream stays. */
  lemma {:induction false} DrainFrame(fields: seq<Field>, rest: string)
    requires Sendable(fields)
    ensures var d := Drain(rest);
            Drain(Frame(RenderAll(fields)) + rest) == d.(out := [Framed(fields)] + d.out)
  {
    hide FrameOf;
    hide Parse;
    var wire := Frame(RenderAll(fields));
    FrameComplete(RenderAll(fields));
    VerdictStable(wire, rest);
    FrameRoundTrip(fields);
    assert (wire + rest)[..|wire|] == wire && (wire + rest)[|wire|..] == rest;
  }

  lemma {:induction false} DrainWire(messages: seq<seq<Field>>)
    requires AllSendable(messages)
    ensures Drain(Wire(messages)) == Session(Received(messages), [], Open)
  {
    if messages != [] {
      DrainWire(messages[1..]);
      DrainFrame(messages[0], Wire(messages[1..]));
    }
  }

  lemma {:induction false} PrefixOpen(messages: seq<seq<Field>>, p: string)
    requires AllSendable(messages)
    requires p <= Wire(messages)
    ensures Drain(p).status == Open
  {
    if messages != [] {
      var wire, rest := Frame(RenderAll(messages[0])), Wire(messages[1..]);
      if |p| >= |wire| {
        var q := p[|wire|..];
        assert p == wire + q;
        assert q == rest[..|q|];
        PrefixOpen(messages[1..], q);
        DrainFrame(messages[0], q);
      } else {
        assert p == wire[..|p|];
        PrefixNeedsMore(p, RenderAll(messages[0]));
      }
    }
  }

  lemma {:induction false} ConcatPrefix(chunks: seq<string>, k: nat)
    requires k <= |chunks|
    ensures Concat(chunks[..k]) <= Concat(chunks)
  {
    if k == |chunks| {
      assert chunks[..k] == chunks;
    } else {
      var front := chunks[..|chunks| - 1];
      assert front[..k] == chunks[..k];
      ConcatPrefix(front, k);
    }
  }

  /** The main result: however the stream is cut into chunks, exactly the messages sent come out, in order. */
  lemma {:induction false} AnySegmentation(messages: seq<seq<Field>>, chunks: seq<string>)
    requires AllSendable(messages)
    requires Concat(chunks) == Wire(messages)
    ensures OnChunks(chunks) == Session(Received(messages), [], Open)
  {
    forall k | 0 <= k < |chunks| ensures !Trap(Concat(chunks[..k])) {
      ConcatPrefix(chunks, k);
      PrefixOpen(messages, Concat(chunks[..k]));
      TrapExactly(Concat(chunks[..k]));
    }
    SegmentationInvisible(chunks);
    DrainWire(messages);
  }
}
