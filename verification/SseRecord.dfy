/** The fields of one record, and the event they stand for. */
module SseRecord {
  import opened Prelude
  import opened Json
  import ChatAdapter
  import Text

  datatype Fields = Fields(event: string, data: seq<string>)

  const EVENT := "event:"
  const DATA := "data:"

  function AfterLine(f: Fields, line: string): Fields {
    if EVENT <= line then f.(event := Text.Trim(line[|EVENT|..]))
    else if DATA <= line then f.(data := f.data + [Text.TrimStart(line[|DATA|..])])
    else f
  }

  function FieldsOf(lines: seq<string>): Fields {
    if lines == [] then Fields("", []) else AfterLine(FieldsOf(lines[..|lines| - 1]), lines[|lines| - 1])
  }

  datatype Parsed = Parsed(event: string, data: string)

  function ParsedRecord(record: string): Option<Parsed> {
    var f := FieldsOf(Text.Lines(record));
    if f.event == "" && f.data == [] then None else Some(Parsed(f.event, Text.Join(f.data, "\n")))
  }

  method ParseRecord(record: string) returns (r: Option<Parsed>)
    ensures r == ParsedRecord(record)
  {
    var event: string, data: seq<string> := "", [];
    var lines := Text.Lines(record);
    for i := 0 to |lines|
      invariant Fields(event, data) == FieldsOf(lines[..i])
    {
      var line := lines[i];
      assert lines[..i + 1][..i] == lines[..i];
      if EVENT <= line {
        event := Text.Trim(line[|EVENT|..]);
      } else if DATA <= line {
        data := data + [Text.TrimStart(line[|DATA|..])];
      }
    }
    assert lines[..|lines|] == lines;
    r := if event == "" && data == [] then None else Some(Parsed(event, Text.Join(data, "\n")));
  }

  /** How texts become documents, and event names become kinds. */
  datatype Codec = Codec(document: string -> Option<Value>, kind: string -> ChatAdapter.EventKind)

  /** The event line names the event; without one its own type does. */
  function EventOf(p: Parsed, c: Codec): ChatAdapter.Event {
    var v := c.document(p.data).UnwrapOr(Null);
    ChatAdapter.Event(c.kind(if p.event == "" then StringAt(v, "type").UnwrapOr("") else p.event), v)
  }

  // ---- Blank records stand for nothing ------------------------------------------------------------------

  ghost predicate AllWhitespace(s: string) {
    forall i :: 0 <= i < |s| ==> Text.IsWhitespace(s[i])
  }

  lemma {:induction false} TrimEndBlank(s: string)
    requires Text.TrimEnd(s) == ""
    ensures AllWhitespace(s)
  {
    if s != "" {
      TrimEndBlank(s[..|s| - 1]);
      assert forall i :: 0 <= i < |s| - 1 ==> s[..|s| - 1][i] == s[i];
    }
  }

  lemma {:induction false} TrimStartBlank(s: string)
    requires AllWhitespace(Text.TrimStart(s))
    ensures AllWhitespace(s)
  {
    if s != "" && Text.IsWhitespace(s[0]) {
      TrimStartBlank(s[1..]);
      assert forall i :: 1 <= i < |s| ==> s[1..][i - 1] == s[i];
    }
  }

  lemma {:induction false} LinesOfWhitespace(s: string)
    requires AllWhitespace(s)
    ensures forall l :: l in Text.Lines(s) ==> AllWhitespace(l)
    decreases |s|
  {
    if s != "" {
      var n := Text.LineEnd(s);
      if n < |s| {
        LinesOfWhitespace(s[n + 1..]);
      }
    }
  }

  lemma {:induction false} WhitespaceSaysNothing(lines: seq<string>)
    requires forall l :: l in lines ==> AllWhitespace(l)
    ensures FieldsOf(lines) == Fields("", [])
  {
    if lines != [] {
      var last := lines[|lines| - 1];
      WhitespaceSaysNothing(lines[..|lines| - 1]);
      assert last in lines;
      assert last != "" ==> Text.IsWhitespace(last[0]);
      assert EVENT[0] == 'e' && DATA[0] == 'd';
    }
  }

  /** A record the preflight drops for being blank would not have been an event anyway. */
  lemma BlankIsNoEvent(record: string)
    requires Text.IsBlank(record)
    ensures ParsedRecord(record).None?
  {
    TrimEndBlank(Text.TrimStart(record));
    TrimStartBlank(record);
    LinesOfWhitespace(record);
    WhitespaceSaysNothing(Text.Lines(record));
  }

  // ---- What is written is read ------------------------------------------------------------------------------

  function DataLines(data: seq<string>): seq<string> {
    seq(|data|, i requires 0 <= i < |data| => DATA + " " + data[i])
  }

  /** A record with the given event line and data lines. */
  function Written(event: string, data: seq<string>): string {
    Text.Join([EVENT + " " + event] + DataLines(data), "\n")
  }

  /** A text that fits on one line and comes off it unchanged. */
  ghost predicate FitsLine(s: string) {
    (forall i :: 0 <= i < |s| ==> s[i] != '\n') && Text.WithoutCarriageReturn(s) == s
  }

  lemma LineEndsAt(line: string, rest: string)
    requires FitsLine(line)
    ensures Text.LineEnd(line) == |line|
    ensures Text.LineEnd(line + "\n" + rest) == |line|
  {
    var s := line + "\n" + rest;
    assert s[|line|] == '\n';
    assert forall i :: 0 <= i < |line| ==> s[i] == line[i];
  }

  lemma {:induction false} JoinedLines(lines: seq<string>)
    requires lines != [] && forall l :: l in lines ==> FitsLine(l) && l != ""
    ensures Text.Lines(Text.Join(lines, "\n")) == lines
  {
    var line, rest := lines[0], Text.Join(lines[1..], "\n");
    assert line in lines && forall l :: l in lines[1..] ==> l in lines;
    LineEndsAt(line, rest);
    if |lines| > 1 {
      var s := Text.Join(lines, "\n");
      assert s == line + "\n" + rest;
      assert s[..|line|] == line && s[|line| + 1..] == rest;
      JoinedLines(lines[1..]);
    }
  }

  lemma EventLineRead(event: string)
    requires Text.Trim(event) == event
    ensures AfterLine(Fields("", []), EVENT + " " + event) == Fields(event, [])
  {
    var line := EVENT + " " + event;
    assert line[|EVENT|..] == " " + event && (" " + event)[1..] == event;
  }

  lemma DataLineRead(f: Fields, d: string)
    requires Text.TrimStart(d) == d
    ensures AfterLine(f, DATA + " " + d) == f.(data := f.data + [d])
  {
    var line := DATA + " " + d;
    assert line[0] == 'd' && EVENT[0] == 'e';
    assert line[|DATA|..] == " " + d && (" " + d)[1..] == d;
  }

  lemma {:induction false} DataLinesRead(event: string, data: seq<string>)
    requires Text.Trim(event) == event && forall d :: d in data ==> Text.TrimStart(d) == d
    ensures FieldsOf([EVENT + " " + event] + DataLines(data)) == Fields(event, data)
  {
    var head := [EVENT + " " + event];
    if data == [] {
      assert head + DataLines(data) == [] + head;
      FieldsSnoc([], head[0]);
      EventLineRead(event);
    } else {
      var front, last := data[..|data| - 1], data[|data| - 1];
      assert last in data && forall d :: d in front ==> d in data;
      DataLinesRead(event, front);
      assert head + DataLines(data) == (head + DataLines(front)) + [DATA + " " + last];
      OneMoreDataLine(head + DataLines(front), Fields(event, front), last);
      assert front + [last] == data;
    }
  }

  lemma OneMoreDataLine(lines: seq<string>, f: Fields, d: string)
    requires FieldsOf(lines) == f && Text.TrimStart(d) == d
    ensures FieldsOf(lines + [DATA + " " + d]) == f.(data := f.data + [d])
  {
    FieldsSnoc(lines, DATA + " " + d);
    DataLineRead(f, d);
  }

  lemma FieldsSnoc(lines: seq<string>, line: string)
    ensures FieldsOf(lines + [line]) == AfterLine(FieldsOf(lines), line)
  {
    assert (lines + [line])[..|lines|] == lines;
  }

  lemma PrefixedFits(prefix: string, s: string)
    requires FitsLine(s) && prefix != "" && FitsLine(prefix)
    ensures FitsLine(prefix + s)
  {
    assert s != "" ==> (prefix + s)[|prefix + s| - 1] == s[|s| - 1];
    assert s == "" ==> prefix + s == prefix;
  }

  /** A record written with a trimmed event name and data lines reads back as exactly that name and the joined lines. */
  lemma WrittenIsRead(event: string, data: seq<string>)
    requires FitsLine(event) && Text.Trim(event) == event
    requires forall d :: d in data ==> FitsLine(d) && Text.TrimStart(d) == d
    ensures ParsedRecord(Written(event, data))
         == if event == "" && data == [] then None else Some(Parsed(event, Text.Join(data, "\n")))
  {
    var lines := [EVENT + " " + event] + DataLines(data);
    assert FitsLine(EVENT + " ") && FitsLine(DATA + " ");
    forall l | l in lines
      ensures FitsLine(l) && l != ""
    {
      var i :| 0 <= i < |lines| && lines[i] == l;
      if i == 0 {
        PrefixedFits(EVENT + " ", event);
      } else {
        assert data[i - 1] in data;
        PrefixedFits(DATA + " ", data[i - 1]);
      }
    }
    JoinedLines(lines);
    DataLinesRead(event, data);
  }
}
