/**
 RFC 4180 section 2 field splitting.  The splitter and the unquoted-character test agree on what is
 inside quotes although they track it differently, and fields written by the quoting rule split back.
 */
module CsvSplit {
  import opened SeqFacts

  const QUOTE: char := '"'

  /** The fields of `line[i..]`, given the field under construction and whether quotes are open. */
  function Fields(line: string, delimiter: char, i: nat, quoted: bool, current: string): (f: seq<string>)
    requires i <= |line|
    ensures |f| > 0
    decreases |line| - i
  {
    if i == |line| then [current]
    else if quoted then
      if line[i] == QUOTE then
        if i + 1 < |line| && line[i + 1] == QUOTE then Fields(line, delimiter, i + 2, true, current + [QUOTE])
        else Fields(line, delimiter, i + 1, false, current)
      else Fields(line, delimiter, i + 1, true, current + [line[i]])
    else if line[i] == QUOTE then Fields(line, delimiter, i + 1, true, current)
    else if line[i] == delimiter then [current] + Fields(line, delimiter, i + 1, false, [])
    else Fields(line, delimiter, i + 1, false, current + [line[i]])
  }

  method Split(line: string, delimiter: char) returns (out: seq<string>)
    ensures out == Fields(line, delimiter, 0, false, [])
  {
    out := [];
    var current, quoted, i := [], false, 0;
    while i < |line|
      invariant 0 <= i <= |line|
      invariant out + Fields(line, delimiter, i, quoted, current) == Fields(line, delimiter, 0, false, [])
      decreases |line| - i
    {
      var c := line[i];
      if quoted {
        if c == QUOTE {
          if i + 1 < |line| && line[i + 1] == QUOTE {
            current := current + [QUOTE];
            i := i + 1;
          } else {
            quoted := false;
          }
        } else {
          current := current + [c];
        }
      } else if c == QUOTE {
        quoted := true;
      } else if c == delimiter {
        Regroup(out, current, Fields(line, delimiter, i + 1, false, []));
        out := out + [current];
        current := [];
      } else {
        current := current + [c];
      }
      i := i + 1;
    }
    out := out + [current];
  }

  lemma Regroup(out: seq<string>, current: string, rest: seq<string>)
    ensures out + ([current] + rest) == out + [current] + rest
  {
  }

  /** Whether quotes are open before position `i`: every quote character toggles. */
  function Toggled(line: string, i: nat): bool
    requires i <= |line|
  {
    if i == 0 then false else if line[i - 1] == QUOTE then !Toggled(line, i - 1) else Toggled(line, i - 1)
  }

  method ContainsUnquoted(line: string, c: char) returns (found: bool)
    ensures found <==> exists i :: 0 <= i < |line| && line[i] == c && c != QUOTE && !Toggled(line, i)
  {
    var quoted := false;
    for i := 0 to |line|
      invariant quoted == Toggled(line, i)
      invariant forall k :: 0 <= k < i ==> !(line[k] == c && c != QUOTE && !Toggled(line, k))
    {
      if line[i] == QUOTE {
        quoted := !quoted;
      } else if line[i] == c && !quoted {
        return true;
      }
    }
    return false;
  }

  /** Delimiters outside quotes from position `i` on, by toggling. */
  function Unquoted(line: string, c: char, i: nat): nat
    requires i <= |line|
    decreases |line| - i
  {
    if i == |line| then 0
    else (if line[i] == c && c != QUOTE && !Toggled(line, i) then 1 else 0) + Unquoted(line, c, i + 1)
  }

  /** The splitter's quoting state is the toggle, so it cuts exactly at the unquoted delimiters. */
  lemma {:induction false} CutsAtUnquoted(line: string, delimiter: char, i: nat, current: string)
    requires i <= |line|
    ensures |Fields(line, delimiter, i, Toggled(line, i), current)| == 1 + Unquoted(line, delimiter, i)
    decreases |line| - i
  {
    if i < |line| {
      if Toggled(line, i) && line[i] == QUOTE && i + 1 < |line| && line[i + 1] == QUOTE {
        assert Toggled(line, i + 2) == Toggled(line, i);
        CutsAtUnquoted(line, delimiter, i + 2, current + [QUOTE]);
      } else if line[i] == QUOTE {
        CutsAtUnquoted(line, delimiter, i + 1, current);
      } else if !Toggled(line, i) && line[i] == delimiter {
        CutsAtUnquoted(line, delimiter, i + 1, []);
      } else {
        CutsAtUnquoted(line, delimiter, i + 1, current + [line[i]]);
      }
    }
  }

  lemma {:induction false} UnquotedExists(line: string, c: char, i: nat)
    requires i <= |line|
    ensures Unquoted(line, c, i) > 0 <==> exists k :: i <= k < |line| && line[k] == c && c != QUOTE && !Toggled(line, k)
    decreases |line| - i
  {
    if i < |line| { UnquotedExists(line, c, i + 1); }
  }

  /** A line has more than one field exactly when the delimiter occurs outside quotes. */
  lemma {:induction false} SplitAgreesWithTest(line: string, delimiter: char)
    ensures |Fields(line, delimiter, 0, false, [])| > 1
       <==> exists i :: 0 <= i < |line| && line[i] == delimiter && delimiter != QUOTE && !Toggled(line, i)
  {
    CutsAtUnquoted(line, delimiter, 0, []);
    UnquotedExists(line, delimiter, 0);
  }

  // ----- writing and splitting back -------------------------------------------

  /** Every quote doubled. */
  function Doubled(f: string): string {
    if f == [] then [] else Doubled(f[..|f| - 1]) + (if f[|f| - 1] == QUOTE then [QUOTE, QUOTE] else [f[|f| - 1]])
  }

  predicate Bare(f: string, delimiter: char) { QUOTE !in f && delimiter !in f }

  /** A field may go bare when it holds neither quote nor delimiter; any field may be quoted. */
  datatype Cell = Cell(text: string, quoted: bool)

  function Written(c: Cell): string {
    if c.quoted then [QUOTE] + Doubled(c.text) + [QUOTE] else c.text
  }

  function Row(cells: seq<Cell>, delimiter: char): string
    requires |cells| > 0
  {
    if |cells| == 1 then Written(cells[0]) else Written(cells[0]) + [delimiter] + Row(cells[1..], delimiter)
  }

  function Texts(cells: seq<Cell>): (t: seq<string>)
    ensures |t| == |cells| && forall i :: 0 <= i < |cells| ==> t[i] == cells[i].text
  {
    seq(|cells|, i requires 0 <= i < |cells| => cells[i].text)
  }

  lemma TextsSplit(cells: seq<Cell>)
    requires |cells| > 0
    ensures Texts(cells) == [cells[0].text] + Texts(cells[1..])
  {
  }

  /** Text is at position `i` of the line. */
  predicate Sits(line: string, i: nat, text: string) {
    i + |text| <= |line| && line[i..i + |text|] == text
  }

  lemma {:induction false} BareRead(line: string, delimiter: char, i: nat, text: string, current: string)
    requires Sits(line, i, text) && Bare(text, delimiter)
    ensures Fields(line, delimiter, i, false, current) == Fields(line, delimiter, i + |text|, false, current + text)
    decreases |text|
  {
    if text == [] {
      assert current + text == current;
    } else {
      assert line[i] == line[i..i + |text|][0] == text[0];
      assert line[i + 1..i + |text|] == line[i..i + |text|][1..] == text[1..];
      BareRead(line, delimiter, i + 1, text[1..], current + [text[0]]);
      assert current + [text[0]] + text[1..] == current + text;
    }
  }

  /** Inside quotes doubled text reads back, provided the line does not continue with a stray quote there. */
  lemma {:induction false} DoubledRead(line: string, delimiter: char, i: nat, text: string, current: string)
    requires Sits(line, i, Doubled(text))
    ensures Fields(line, delimiter, i, true, current) == Fields(line, delimiter, i + |Doubled(text)|, true, current + text)
    decreases |text|
  {
    if text == [] {
      assert current + text == current;
    } else {
      var n := |text| - 1;
      var before, c := Doubled(text[..n]), text[n];
      var d := Doubled(text);
      assert line[i..i + |d|][..|before|] == line[i..i + |before|] == before;
      DoubledRead(line, delimiter, i, text[..n], current);
      var at := i + |before|;
      assert line[at] == line[i..i + |d|][|before|] == d[|before|];
      if c == QUOTE { assert line[at + 1] == line[i..i + |d|][|before| + 1] == d[|before| + 1]; }
      assert current + text[..n] + [c] == current + text;
    }
  }

  /** An opening quote, and a closing one with no quote behind it. */
  lemma QuoteRead(line: string, delimiter: char, i: nat, current: string)
    requires i < |line| && line[i] == QUOTE
    ensures Fields(line, delimiter, i, false, current) == Fields(line, delimiter, i + 1, true, current)
    ensures i + 1 == |line| || line[i + 1] != QUOTE ==>
              Fields(line, delimiter, i, true, current) == Fields(line, delimiter, i + 1, false, current)
  {
  }

  /** The end of the line, or a delimiter outside quotes. */
  lemma CutRead(line: string, delimiter: char, i: nat, current: string)
    requires i <= |line| && delimiter != QUOTE
    ensures i == |line| ==> Fields(line, delimiter, i, false, current) == [current]
    ensures i < |line| && line[i] == delimiter ==>
              Fields(line, delimiter, i, false, current) == [current] + Fields(line, delimiter, i + 1, false, [])
  {
  }

  /** One written cell, followed by the end of the line or a delimiter, reads as its text. */
  lemma {:induction false} CellRead(line: string, delimiter: char, i: nat, c: Cell)
    requires delimiter != QUOTE && Sits(line, i, Written(c)) && (c.quoted || Bare(c.text, delimiter))
    requires i + |Written(c)| == |line| || line[i + |Written(c)|] == delimiter
    ensures Fields(line, delimiter, i, false, []) == Fields(line, delimiter, i + |Written(c)|, false, c.text)
  {
    hide Fields;
    hide Doubled;
    if c.quoted {
      var w, d := Written(c), Doubled(c.text);
      assert line[i] == line[i..i + |w|][0] && line[i + 1 + |d|] == line[i..i + |w|][1 + |d|];
      SubSlice(line, i, i + |w|, 1, 1 + |d|);
      assert w[1..1 + |d|] == d;
      QuoteRead(line, delimiter, i, []);
      DoubledRead(line, delimiter, i + 1, c.text, []);
      assert [] + c.text == c.text;
      QuoteRead(line, delimiter, i + 1 + |d|, c.text);
    } else {
      BareRead(line, delimiter, i, c.text, []);
      assert [] + c.text == c.text;
    }
  }

  /** Whatever cells are written, splitting the row gives their texts. */
  lemma {:induction false} RowRoundTrip(line: string, delimiter: char, i: nat, cells: seq<Cell>)
    requires delimiter != QUOTE && |cells| > 0 && i + |Row(cells, delimiter)| == |line| && line[i..] == Row(cells, delimiter)
    requires forall k :: 0 <= k < |cells| ==> cells[k].quoted || Bare(cells[k].text, delimiter)
    ensures Fields(line, delimiter, i, false, []) == Texts(cells)
    decreases |cells|
  {
    hide Written;
    hide Fields;
    hide Bare;
    var w, row := Written(cells[0]), Row(cells, delimiter);
    RowStarts(cells, delimiter);
    SubSlice(line, i, |line|, 0, |w|);
    Tail(line, i);
    if |cells| > 1 {
      SubSlice(line, i, |line|, |w| + 1, |row|);
      assert line[i + |w|] == line[i..][|w|];
      RowRoundTrip(line, delimiter, i + |w| + 1, cells[1..]);
    }
    TextsSplit(cells);
    CutRead(line, delimiter, i + |w|, cells[0].text);
    CellRead(line, delimiter, i, cells[0]);
  }

  /** A row is its first cell, and behind a delimiter the rest of the row. */
  lemma RowStarts(cells: seq<Cell>, delimiter: char)
    requires |cells| > 0
    ensures var w, row := Written(cells[0]), Row(cells, delimiter);
            && |row| >= |w| && row[..|w|] == w && (|cells| == 1 ==> row == w)
            && (|cells| > 1 ==> |row| > |w| && row[|w|] == delimiter && row[|w| + 1..] == Row(cells[1..], delimiter))
  {
    hide Written;
  }
}
