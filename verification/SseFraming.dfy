/** Cutting a chunked event stream into records, and putting the records back on the wire. */
module SseFraming {
  import opened Prelude

  /** What a buffer yields: its complete records, and the text after the last of them. */
  datatype Framing = Framing(records: seq<string>, residue: string)

  predicate BreakAt(s: string, i: nat) {
    i + 1 < |s| && s[i] == '\n' && s[i + 1] == '\n'
  }

  /** Where the first blank line starts; the length of the text when there is none. */
  function FirstBreak(s: string): (i: nat)
    ensures i <= |s|
    ensures i < |s| ==> BreakAt(s, i)
  {
    if |s| < 2 then |s|
    else if BreakAt(s, 0) then 0
    else
      var rest := FirstBreak(s[1..]);
      assert rest < |s| - 1 ==> BreakAt(s[1..], rest);
      if rest == |s| - 1 then |s| else rest + 1
  }

  /** The first record of a text, and the text behind it. */
  datatype Piece = Piece(record: string, rest: string)

  function Cut(s: string): (r: Option<Piece>)
    ensures r.Some? ==> |r.value.rest| < |s|
  {
    var i := FirstBreak(s);
    if i == |s| then None else Some(Piece(s[..i], s[i + 2..]))
  }

  function Headed(record: string, f: Framing): Framing {
    Framing([record] + f.records, f.residue)
  }

  function Frame(s: string): Framing
    decreases |s|
  {
    match Cut(s)
    case None => Framing([], s)
    case Some(piece) => Headed(piece.record, Frame(piece.rest))
  }

  /** What is left once the first k records are taken. */
  function After(s: string, k: nat): string
    decreases k
  {
    if k == 0 || Cut(s).None? then s else After(Cut(s).value.rest, k - 1)
  }

  /** Each CRLF becomes a line feed. */
  function Normalize(s: string): string {
    if s == "" then ""
    else if |s| >= 2 && s[0] == '\r' && s[1] == '\n' then ['\n'] + Normalize(s[2..])
    else [s[0]] + Normalize(s[1..])
  }

  function Flatten(chunks: seq<string>): string {
    if chunks == [] then "" else chunks[0] + Flatten(chunks[1..])
  }

  function NormalizeEach(chunks: seq<string>): string {
    if chunks == [] then "" else Normalize(chunks[0]) + NormalizeEach(chunks[1..])
  }

  /** The buffer that a stream handler appends chunks to and drains records from. */
  class SseBuffer {
    var text: string

    constructor (initial: string)
      ensures text == initial
    {
      text := initial;
    }

    method TakeRecord() returns (record: Option<string>)
      modifies this
      ensures record.None? <==> Frame(old(text)).records == []
      ensures record.None? ==> text == old(text) == Frame(old(text)).residue
      ensures record.Some? ==> old(text) == record.value + "\n\n" + text
      ensures record.Some? ==> Frame(old(text)) == Headed(record.value, Frame(text)) && text == After(old(text), 1)
    {
      var index := FirstBreak(text);
      if index == |text| {
        return None;
      }
      assert text == text[..index] + "\n\n" + text[index + 2..];
      record := Some(text[..index]);
      text := text[index + 2..];
    }

    /** Appends one chunk and takes every record that is now complete. */
    method Feed(chunk: string) returns (records: seq<string>)
      modifies this
      ensures Framing(records, text) == Frame(old(text) + Normalize(chunk))
    {
      text := text + Normalize(chunk);
      ghost var whole := text;
      records := [];
      while true
        invariant Frame(whole) == Framing(records + Frame(text).records, Frame(text).residue)
        decreases |text|
      {
        var record := TakeRecord();
        if record.None? {
          break;
        }
        records := records + [record.value];
      }
      assert records + [] == records;
    }
  }

  /** Feeds the chunks one after another into an empty buffer. */
  method FrameChunks(chunks: seq<string>) returns (framing: Framing)
    ensures framing == Frame(NormalizeEach(chunks))
  {
    var buffer := new SseBuffer("");
    var records := [];
    assert chunks[..0] == [];
    for i := 0 to |chunks|
      invariant Framing(records, buffer.text) == Frame(NormalizeEach(chunks[..i]))
    {
      var more := buffer.Feed(chunks[i]);
      NormalizeEachConcat(chunks[..i], [chunks[i]]);
      assert chunks[..i + 1] == chunks[..i] + [chunks[i]];
      OneNormalized(chunks[i]);
      FrameConcat(NormalizeEach(chunks[..i]), Normalize(chunks[i]));
      records := records + more;
    }
    assert chunks[..|chunks|] == chunks;
    framing := Framing(records, buffer.text);
  }

  // ---- Framing is incremental and loses nothing ------------------------------------------------------

  /** More text arrives behind what has been framed. */
  function Continue(f: Framing, b: string): Framing {
    var more := Frame(f.residue + b);
    Framing(f.records + more.records, more.residue)
  }

  lemma ContinueHeaded(record: string, f: Framing, b: string)
    ensures Continue(Headed(record, f), b) == Headed(record, Continue(f, b))
  {
    assert ([record] + f.records) + Frame(f.residue + b).records
       == [record] + (f.records + Frame(f.residue + b).records);
  }

  lemma ContinueNothing(a: string, b: string)
    ensures Continue(Framing([], a), b) == Frame(a + b)
  {
  }

  /** Text appended later never disturbs the records already complete. */
  lemma {:induction false} FrameConcat(a: string, b: string)
    ensures Frame(a + b) == Continue(Frame(a), b)
    decreases |a|
  {
    CutLater(a, b);
    match Cut(a) {
      case None => ContinueNothing(a, b);
      case Some(piece) =>
        FrameConcat(piece.rest, b);
        ContinueHeaded(piece.record, Frame(piece.rest), b);
    }
  }

  lemma CutLater(a: string, b: string)
    ensures Cut(a).Some? ==> Cut(a + b) == Some(Piece(Cut(a).value.record, Cut(a).value.rest + b))
  {
    var i := FirstBreak(a);
    if i < |a| {
      FirstBreakIsFirst(a);
      assert BreakAt(a + b, i);
      assert forall k: nat :: k < i ==> (BreakAt(a + b, k) <==> BreakAt(a, k));
      FirstBreakIs(a + b, i);
      assert (a + b)[i + 2..] == a[i + 2..] + b && (a + b)[..i] == a[..i];
    }
  }

  lemma {:induction false} FirstBreakIsFirst(s: string)
    ensures forall k: nat :: k < FirstBreak(s) ==> !BreakAt(s, k)
  {
    if |s| >= 2 && !BreakAt(s, 0) {
      FirstBreakIsFirst(s[1..]);
      assert forall k: nat :: k > 0 ==> (BreakAt(s, k) <==> BreakAt(s[1..], k - 1));
    }
  }

  lemma FirstBreakIs(s: string, i: nat)
    requires BreakAt(s, i) && forall k: nat :: k < i ==> !BreakAt(s, k)
    ensures FirstBreak(s) == i
  {
    FirstBreakIsFirst(s);
  }

  /** Taking records first and framing the rest later comes to the same. */
  lemma {:induction false} AfterFrames(s: string, k: nat)
    requires k <= |Frame(s).records|
    ensures Frame(After(s, k)) == Framing(Frame(s).records[k..], Frame(s).residue)
    ensures k < |Frame(s).records| ==>
      Cut(After(s, k)) == Some(Piece(Frame(s).records[k], After(s, k + 1)))
    decreases k
  {
    if k > 0 {
      AfterFrames(Cut(s).value.rest, k - 1);
    }
  }

  lemma {:induction false} AfterPlus(s: string, m: nat, n: nat)
    ensures After(s, m + n) == After(After(s, m), n)
    decreases m
  {
    if m > 0 && Cut(s).Some? {
      AfterPlus(Cut(s).value.rest, m - 1, n);
    }
  }

  lemma {:induction false} AfterExtends(s: string, b: string, k: nat)
    requires k <= |Frame(s).records|
    ensures After(s + b, k) == After(s, k) + b
    decreases k
  {
    if k > 0 {
      CutLater(s, b);
      AfterExtends(Cut(s).value.rest, b, k - 1);
    }
  }

  /** Once everything is taken, only the residue and what came behind it are left. */
  lemma {:induction false} AfterAllTaken(s: string, b: string)
    ensures After(s + b, |Frame(s).records|) == Frame(s).residue + b
    decreases |s|
  {
    CutLater(s, b);
    if Cut(s).Some? {
      AfterAllTaken(Cut(s).value.rest, b);
    }
  }

  /** The text a list of records takes on the wire. */
  function Relayed(records: seq<string>): string {
    if records == [] then "" else records[0] + "\n\n" + Relayed(records[1..])
  }

  lemma {:induction false} RelayedConcat(a: seq<string>, b: seq<string>)
    ensures Relayed(a + b) == Relayed(a) + Relayed(b)
  {
    if a == [] {
      assert a + b == b;
    } else {
      assert (a + b)[1..] == a[1..] + b;
      RelayedConcat(a[1..], b);
    }
  }

  lemma CutSpells(s: string)
    ensures Cut(s).Some? ==> s == Cut(s).value.record + "\n\n" + Cut(s).value.rest
  {
    var i := FirstBreak(s);
    if i < |s| {
      assert s == s[..i] + "\n\n" + s[i + 2..];
    }
  }

  /** Records and residue spell out the framed text, so different texts are framed differently. */
  lemma {:induction false} FramingLosesNothing(s: string)
    ensures Relayed(Frame(s).records) + Frame(s).residue == s
    decreases |s|
  {
    if Cut(s).Some? {
      var record, rest := Cut(s).value.record, Cut(s).value.rest;
      CutSpells(s);
      FramingLosesNothing(rest);
      assert Frame(s).records[1..] == Frame(rest).records;
      assert record + "\n\n" + (Relayed(Frame(rest).records) + Frame(rest).residue)
          == (record + "\n\n" + Relayed(Frame(rest).records)) + Frame(rest).residue;
    }
  }

  /** A text that can stand as one record: it holds no blank line and does not end in a line feed. */
  predicate Framable(record: string) {
    FirstBreak(record) == |record| && (record == "" || record[|record| - 1] != '\n')
  }

  lemma FramableStandsAlone(record: string, rest: string)
    ensures Framable(record) <==> Cut(record + "\n\n" + rest) == Some(Piece(record, rest))
  {
    var whole := record + "\n\n" + rest;
    var n := |record|;
    assert BreakAt(whole, n) && whole[..n] == record && whole[n + 2..] == rest;
    assert forall k: nat :: k + 1 < n ==> (BreakAt(whole, k) <==> BreakAt(record, k));
    assert n > 0 ==> (BreakAt(whole, n - 1) <==> record[n - 1] == '\n');
    FirstBreakIsFirst(record);
    FirstBreakIsFirst(whole);
    if Framable(record) {
      FirstBreakIs(whole, n);
    } else if FirstBreak(record) < n {
      assert BreakAt(whole, FirstBreak(record));
    } else {
      assert BreakAt(whole, n - 1);
    }
  }

  lemma {:induction false} FramedRecordsAreFramable(s: string)
    ensures forall r :: r in Frame(s).records ==> Framable(r)
    decreases |s|
  {
    if Cut(s).Some? {
      CutSpells(s);
      FramableStandsAlone(Cut(s).value.record, Cut(s).value.rest);
      FramedRecordsAreFramable(Cut(s).value.rest);
    }
  }

  /** Relayed records come back out of a framer unchanged exactly when each can stand as one record. */
  lemma {:induction false} RelayReframesExactly(records: seq<string>)
    ensures Frame(Relayed(records)) == Framing(records, "") <==> forall r :: r in records ==> Framable(r)
  {
    if records != [] {
      var first, rest := records[0], records[1..];
      FramableStandsAlone(first, Relayed(rest));
      RelayReframesExactly(rest);
      assert forall r :: r in records <==> r == first || r in rest;
      if Framable(first) {
        assert records == [first] + rest;
        assert Frame(Relayed(records)).records[1..] == Frame(Relayed(rest)).records;
      } else {
        FirstRecordIsCut(Relayed(records), first, Relayed(rest));
      }
    }
  }

  /** If a text frames to a record and a rest, the cut takes exactly that record. */
  lemma FirstRecordIsCut(s: string, record: string, rest: string)
    requires s == record + "\n\n" + rest
    ensures Frame(s).records != [] && Frame(s).records[0] == record ==> Cut(s) == Some(Piece(record, rest))
  {
    CutSpells(s);
    if Cut(s).Some? && Cut(s).value.record == record {
      assert Cut(s).value.rest == s[|record| + 2..];
    }
  }

  /** What a client frames out of the relayed text is what the gateway framed out of the upstream text. */
  lemma RelayIsFaithful(s: string)
    ensures Frame(Relayed(Frame(s).records)) == Framing(Frame(s).records, "")
  {
    FramedRecordsAreFramable(s);
    RelayReframesExactly(Frame(s).records);
  }

  // ---- How the text was chunked does not matter, unless a CRLF was split -----------------------------------

  ghost predicate SplitsCrlf(a: string, b: string) {
    a != "" && b != "" && a[|a| - 1] == '\r' && b[0] == '\n'
  }

  lemma NormalizePair(rest: string)
    ensures Normalize("\r\n" + rest) == "\n" + Normalize(rest)
  {
    assert ("\r\n" + rest)[2..] == rest;
  }

  lemma NormalizePlain(c: char, rest: string)
    requires !(c == '\r' && rest != "" && rest[0] == '\n')
    ensures Normalize([c] + rest) == [c] + Normalize(rest)
  {
    assert ([c] + rest)[1..] == rest;
  }

  /** Normalising part by part comes to the same, but for one character where a CRLF is split. */
  ghost predicate NormalizesApart(a: string, b: string) {
    if SplitsCrlf(a, b) then |Normalize(a + b)| + 1 == |Normalize(a)| + |Normalize(b)|
    else Normalize(a + b) == Normalize(a) + Normalize(b)
  }

  lemma BehindPair(rest: string, b: string)
    requires NormalizesApart(rest, b)
    ensures NormalizesApart("\r\n" + rest, b)
  {
    NormalizePair(rest);
    NormalizePair(rest + b);
    Associates("\r\n", rest, b);
    Associates("\n", Normalize(rest), Normalize(b));
    assert SplitsCrlf("\r\n" + rest, b) <==> SplitsCrlf(rest, b);
  }

  lemma BehindPlain(c: char, rest: string, b: string)
    requires NormalizesApart(rest, b) && !SplitsCrlf([c], rest + b)
    ensures NormalizesApart([c] + rest, b)
  {
    NormalizePlain(c, rest);
    NormalizePlain(c, rest + b);
    Associates([c], rest, b);
    Associates([c], Normalize(rest), Normalize(b));
    assert rest == "" ==> rest + b == b;
    assert SplitsCrlf([c] + rest, b) <==> SplitsCrlf(rest, b);
  }

  lemma SplitPair(rest: string)
    ensures NormalizesApart("\r", "\n" + rest)
  {
    assert "\r" + ("\n" + rest) == "\r\n" + rest;
    NormalizePair(rest);
    NormalizePlain('\r', "");
    NormalizePlain('\n', rest);
    assert "\r" + "" == "\r";
  }

  lemma {:induction false} NormalizeConcat(a: string, b: string)
    ensures NormalizesApart(a, b)
    decreases |a|
  {
    if a == "" {
      assert a + b == b && Normalize(a) + Normalize(b) == Normalize(b);
    } else if |a| >= 2 && a[0] == '\r' && a[1] == '\n' {
      assert a == "\r\n" + a[2..];
      NormalizeConcat(a[2..], b);
      BehindPair(a[2..], b);
    } else if |a| == 1 && SplitsCrlf(a, b) {
      assert a == "\r" && b == "\n" + b[1..];
      SplitPair(b[1..]);
    } else {
      assert a == [a[0]] + a[1..];
      NormalizeConcat(a[1..], b);
      BehindPlain(a[0], a[1..], b);
    }
  }

  lemma {:induction false} NormalizeEachConcat(a: seq<string>, b: seq<string>)
    ensures NormalizeEach(a + b) == NormalizeEach(a) + NormalizeEach(b)
  {
    if a == [] {
      assert a + b == b;
    } else {
      assert (a + b)[1..] == a[1..] + b;
      NormalizeEachConcat(a[1..], b);
    }
  }

  lemma OneNormalized(chunk: string)
    ensures NormalizeEach([chunk]) == Normalize(chunk)
  {
    assert [chunk][1..] == [];
  }

  /** How many times a CRLF straddles a chunk and the text after it. */
  ghost function Splits(chunks: seq<string>): nat {
    if chunks == [] then 0
    else (if SplitsCrlf(chunks[0], Flatten(chunks[1..])) then 1 else 0) + Splits(chunks[1..])
  }

  lemma {:induction false} ChunkedNormalization(chunks: seq<string>)
    ensures |NormalizeEach(chunks)| == |Normalize(Flatten(chunks))| + Splits(chunks)
    ensures Splits(chunks) == 0 ==> NormalizeEach(chunks) == Normalize(Flatten(chunks))
  {
    if chunks != [] {
      ChunkedNormalization(chunks[1..]);
      NormalizeConcat(chunks[0], Flatten(chunks[1..]));
    }
  }

  /** Every chunking yields the records and residue of the whole text exactly when it splits no CRLF. */
  lemma ChunkingIsInvisibleExactly(chunks: seq<string>)
    ensures Frame(NormalizeEach(chunks)) == Frame(Normalize(Flatten(chunks))) <==> Splits(chunks) == 0
  {
    ChunkedNormalization(chunks);
    FramingLosesNothing(NormalizeEach(chunks));
    FramingLosesNothing(Normalize(Flatten(chunks)));
  }

  /** Two chunkings of the same text that split no CRLF cannot be told apart. */
  lemma ChunkingsAgree(chunks: seq<string>, chunks': seq<string>)
    requires Flatten(chunks) == Flatten(chunks') && Splits(chunks) == 0 && Splits(chunks') == 0
    ensures Frame(NormalizeEach(chunks)) == Frame(NormalizeEach(chunks'))
  {
    ChunkingIsInvisibleExactly(chunks);
    ChunkingIsInvisibleExactly(chunks');
  }
}
