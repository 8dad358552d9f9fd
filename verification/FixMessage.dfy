/**
 The FIX 4.4 message codec: `Encode` frames header and body with BodyLength and
 CheckSum, `ParseMessage` checks the frame and rebuilds the field dictionary
 (FIX 4.4 Volume 1, "FIX Tag=Value Syntax"; Volume 2, "Checksum Calculation").
 */
module FixMessage {
  import opened Outcomes
  import opened FixText

  const BEGIN_STRING := "FIX.4.4"
  const BODY_LENGTH := 9
  const HEAD := "8=" + BEGIN_STRING + [SOH]
  const TRAILER := [SOH] + "10="

  datatype Field = Field(tag: int, value: string)

  datatype FixError =
    | MissingBeginString | MissingCheckSum | ChecksumMismatch
    | MalformedField | NotAnInteger | MissingBodyLength | BodyLengthMismatch | NotLatin1

  function ByteSum(s: string): nat {
    if s == [] then 0 else ByteSum(s[..|s| - 1]) + s[|s| - 1] as int
  }

  // ----- the dictionary, in insertion order ----------------------------------

  function TagIndex(fields: seq<Field>, tag: int): (i: nat)
    ensures i <= |fields|
    ensures i < |fields| ==> fields[i].tag == tag
    ensures forall k :: 0 <= k < i ==> fields[k].tag != tag
  {
    if fields == [] || fields[0].tag == tag then 0 else TagIndex(fields[1..], tag) + 1
  }

  /** The value of a tag, if it is there. */
  function ValueAt(fields: seq<Field>, tag: int): Option<string> {
    var i := TagIndex(fields, tag);
    if i < |fields| then Some(fields[i].value) else None
  }

  lemma ValueIs(fields: seq<Field>, k: nat)
    requires k < |fields| && forall j :: 0 <= j < k ==> fields[j].tag != fields[k].tag
    ensures ValueAt(fields, fields[k].tag) == Some(fields[k].value)
  {
  }

  lemma ValuesByTag(fields: seq<Field>)
    requires forall j, k :: 0 <= j < k < |fields| ==> fields[j].tag != fields[k].tag
    ensures forall k :: 0 <= k < |fields| ==> ValueAt(fields, fields[k].tag) == Some(fields[k].value)
  {
    hide ValueAt;
    forall k | 0 <= k < |fields| ensures ValueAt(fields, fields[k].tag) == Some(fields[k].value) { ValueIs(fields, k); }
  }

  lemma ValueMissing(fields: seq<Field>, tag: int)
    requires forall j :: 0 <= j < |fields| ==> fields[j].tag != tag
    ensures ValueAt(fields, tag) == None
  {
  }

  /** Assigning a known key replaces its value in place; a new key goes last. */
  function Assign(fields: seq<Field>, tag: int, value: string): seq<Field> {
    var i := TagIndex(fields, tag);
    if i < |fields| then fields[i := Field(tag, value)] else fields + [Field(tag, value)]
  }

  function ParsePair(pair: string): Result<Field, FixError> {
    var eq := IndexFrom(pair, '=', 0);
    if eq == 0 || eq == |pair| then Err(MalformedField)
    else
      match PyInt(pair[..eq])
      case None => Err(NotAnInteger)
      case Some(tag) => Ok(Field(tag, pair[eq + 1..]))
  }

  function ParsePairs(pairs: seq<string>, fields: seq<Field>): Result<seq<Field>, FixError>
    decreases |pairs|
  {
    if pairs == [] then Ok(fields)
    else
      match ParsePair(pairs[0])
      case Err(e) => Err(e)
      case Ok(f) => ParsePairs(pairs[1..], Assign(fields, f.tag, f.value))
  }

  // ----- parsing ------------------------------------------------------------

  /** The declared BodyLength against the bytes between tag 9 and the trailer. */
  function CheckLength(raw: string, checksumAt: nat, fields: seq<Field>): Result<seq<Field>, FixError>
    requires raw != [] && raw[|raw| - 1] == SOH
  {
    var nine := FindFrom(raw, "9=", 0);
    if nine == |raw| then Err(MissingBodyLength)
    else
      var bodyStart := IndexFrom(raw, SOH, nine) + 1;
      var i := TagIndex(fields, BODY_LENGTH);
      if i == |fields| then Err(MissingBodyLength)
      else
        match PyInt(fields[i].value)
        case None => Err(NotAnInteger)
        case Some(declared) => if declared != checksumAt + 1 - bodyStart then Err(BodyLengthMismatch) else Ok(fields)
  }

  function Parse(raw: string): Result<seq<Field>, FixError> {
    if !(HEAD <= raw) then Err(MissingBeginString)
    else
      var at := FindLast(raw, TRAILER, |raw|);
      if at < 0 || raw[|raw| - 1] != SOH then Err(MissingCheckSum)
      else
        assert raw[at + 3] == raw[at..at + 4][3] == TRAILER[3] == '=';
        var declared := raw[at + 4..|raw| - 1];
        if CheckSum(raw[..at + 1]) != declared then Err(ChecksumMismatch)
        else
          match ParsePairs(Split(raw[..|raw| - 1]), [])
          case Err(e) => Err(e)
          case Ok(fields) => CheckLength(raw, at, fields)
  }

  /** The parser as it runs: one loop adds up the bytes, one fills the dictionary. */
  method ParseMessage(raw: string) returns (r: Result<seq<Field>, FixError>)
    ensures r == Parse(raw)
  {
    hide ParsePairs;
    hide Split;
    hide FindLast;
    hide CheckLength;
    if !(HEAD <= raw) { return Err(MissingBeginString); }
    var at := FindLast(raw, TRAILER, |raw|);
    if at < 0 || raw[|raw| - 1] != SOH { return Err(MissingCheckSum); }
    assert raw[at + 3] == raw[at..at + 4][3] == TRAILER[3] == '=';
    var total := SumBytes(raw[..at + 1]);
    if Dec3(total % 256) != raw[at + 4..|raw| - 1] { return Err(ChecksumMismatch); }
    var fields := ReadPairs(Split(raw[..|raw| - 1]));
    if fields.Err? { return fields; }
    return CheckLength(raw, at, fields.value);
  }

  method SumBytes(raw: string) returns (total: nat)
    ensures total == ByteSum(raw)
  {
    total := 0;
    for i := 0 to |raw|
      invariant total == ByteSum(raw[..i])
    {
      assert raw[..i + 1][..i] == raw[..i];
      total := total + raw[i] as int;
    }
    assert raw[..|raw|] == raw;
  }

  method ReadPairs(pairs: seq<string>) returns (r: Result<seq<Field>, FixError>)
    ensures r == ParsePairs(pairs, [])
  {
    var fields := [];
    for i := 0 to |pairs|
      invariant ParsePairs(pairs, []) == ParsePairs(pairs[i..], fields)
    {
      var pair := ParsePair(pairs[i]);
      if pair.Err? { return Err(pair.error); }
      assert pairs[i..][1..] == pairs[i + 1..];
      fields := Assign(fields, pair.value.tag, pair.value.value);
    }
    return Ok(fields);
  }

  // ----- building -----------------------------------------------------------

  function Render(f: Field): string
    requires f.tag >= 0
  {
    Dec(f.tag) + "=" + f.value + [SOH]
  }

  predicate Renderable(fields: seq<Field>) { forall i :: 0 <= i < |fields| ==> fields[i].tag >= 0 }

  function RenderAll(fields: seq<Field>): string
    requires Renderable(fields)
  {
    if fields == [] then [] else Render(fields[0]) + RenderAll(fields[1..])
  }

  /** What the session supplies at encode time. */
  datatype Header = Header(
    msgType: string, sender: string, target: string, seqNum: nat, possDup: bool, sendingTime: string,
    origSendingTime: Option<string>)

  function HeaderFields(h: Header): (fields: seq<Field>)
    ensures Renderable(fields)
  {
    [Field(35, h.msgType), Field(49, h.sender), Field(56, h.target), Field(34, Dec(h.seqNum))]
    + (if h.possDup then [Field(43, "Y")] else [])
    + [Field(52, h.sendingTime)]
    + (match h.origSendingTime case Some(t) => [Field(122, t)] case None => [])
  }

  function Payload(afterLength: string): string {
    HEAD + "9=" + Dec(|afterLength|) + [SOH] + afterLength
  }

  function CheckSum(payload: string): (c: string)
    ensures |c| == 3 && AllDigits(c)
  {
    Dec3(ByteSum(payload) % 256)
  }

  function Frame(afterLength: string): string {
    Payload(afterLength) + "10=" + CheckSum(Payload(afterLength)) + [SOH]
  }

  function Encode(h: Header, body: seq<Field>): Result<string, FixError>
    requires Renderable(body)
  {
    var wire := Frame(RenderAll(HeaderFields(h) + body));
    if Latin1(wire) then Ok(wire) else Err(NotLatin1)
  }

  /** Collects body fields in the order they are given. */
  class FixMessageBuilder {
    const msgType: string
    var body: seq<Field>

    constructor (msgType: string)
      ensures this.msgType == msgType && body == []
    {
      this.msgType, body := msgType, [];
    }

    method AddField(tag: nat, value: string)
      modifies this
      ensures body == old(body) + [Field(tag, value)]
    {
      body := body + [Field(tag, value)];
    }
  }
}
