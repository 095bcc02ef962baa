/** Holding a stream back until it proves healthy, then relaying it record by record. */
module StreamRelay {
  import opened Prelude
  import opened SseFraming
  import opened Upstream
  import Text

  /** One read from the upstream connection. */
  datatype Chunk = Received(text: string) | Broken

  /** What the handlers look for in a record: a failure in disguise, or the sign that output has begun. */
  datatype Classifier = Classifier(hidden: string -> Option<FailureKind>, releases: string -> bool)

  datatype Preflighted = Refused(kind: FailureKind) | Ready(buffered: seq<string>, leftover: string)

  function Texts(chunks: seq<Chunk>): seq<string> {
    if chunks == [] then [] else (if chunks[0].Received? then [chunks[0].text] else []) + Texts(chunks[1..])
  }

  /** The text received so far, as the buffer sees it. */
  function Wire(chunks: seq<Chunk>): string {
    NormalizeEach(Texts(chunks))
  }

  /** The first n reads all delivered text. */
  ghost predicate AllReceived(chunks: seq<Chunk>, n: nat)
    requires n <= |chunks|
  {
    forall i :: 0 <= i < n ==> chunks[i].Received?
  }

  lemma {:induction false} TextsConcat(a: seq<Chunk>, b: seq<Chunk>)
    ensures Texts(a + b) == Texts(a) + Texts(b)
  {
    if a == [] {
      assert a + b == b;
    } else {
      assert (a + b)[1..] == a[1..] + b;
      TextsConcat(a[1..], b);
    }
  }

  lemma WireConcat(a: seq<Chunk>, b: seq<Chunk>)
    ensures Wire(a + b) == Wire(a) + Wire(b)
  {
    TextsConcat(a, b);
    NormalizeEachConcat(Texts(a), Texts(b));
  }

  lemma WireGrows(chunks: seq<Chunk>, i: nat)
    requires i < |chunks|
    ensures Wire(chunks[..i + 1]) == Wire(chunks[..i]) + (if chunks[i].Received? then Normalize(chunks[i].text) else "")
  {
    assert chunks[..i + 1] == chunks[..i] + [chunks[i]];
    WireConcat(chunks[..i], [chunks[i]]);
    assert [chunks[i]][1..] == [];
    assert Texts([chunks[i]]) == if chunks[i].Received? then [chunks[i].text] else [];
    if chunks[i].Received? {
      OneNormalized(chunks[i].text);
    }
  }

  predicate IsVisible(record: string) {
    !Text.IsBlank(record)
  }

  function Visible(records: seq<string>): seq<string> {
    Filter(IsVisible, records)
  }

  predicate Stops(c: Classifier, record: string) {
    c.hidden(record).Some? || c.releases(record)
  }

  /** The first record that ends the preflight, or the number of records when none does. */
  function StopIndex(c: Classifier, records: seq<string>): (j: nat)
    ensures j <= |records|
  {
    if records == [] || Stops(c, records[0]) then 0 else StopIndex(c, records[1..]) + 1
  }

  lemma {:induction false} StopIndexMeans(c: Classifier, records: seq<string>)
    ensures var j := StopIndex(c, records);
      (j < |records| ==> Stops(c, records[j])) && forall i :: 0 <= i < j ==> !Stops(c, records[i])
  {
    if records != [] && !Stops(c, records[0]) {
      StopIndexMeans(c, records[1..]);
      assert forall i :: 1 <= i < |records| ==> records[i] == records[1..][i - 1];
    }
  }

  /** The first record that is a failure in disguise, or the number of records when none is. */
  function HiddenIndex(c: Classifier, records: seq<string>): (j: nat)
    ensures j <= |records|
  {
    if records == [] || c.hidden(records[0]).Some? then 0 else HiddenIndex(c, records[1..]) + 1
  }

  lemma {:induction false} HiddenIndexMeans(c: Classifier, records: seq<string>)
    ensures var j := HiddenIndex(c, records);
      (j < |records| ==> c.hidden(records[j]).Some?) && forall i :: 0 <= i < j ==> c.hidden(records[i]).None?
  {
    if records != [] && c.hidden(records[0]).None? {
      HiddenIndexMeans(c, records[1..]);
      assert forall i :: 1 <= i < |records| ==> records[i] == records[1..][i - 1];
    }
  }

  /** The outcome when record j is the first to stop, and `leftover` is the text behind it. */
  function Judge(c: Classifier, framed: Framing, j: nat, leftover: string): Preflighted {
    if j >= |framed.records| then Ready(Visible(framed.records), framed.residue)
    else
      match c.hidden(framed.records[j])
      case Some(kind) => Refused(kind)
      case None => Ready(Visible(framed.records[..j + 1]), leftover)
  }

  function Verdict(c: Classifier, wire: string): Preflighted {
    var framed := Frame(wire);
    var j := StopIndex(c, framed.records);
    Judge(c, framed, j, After(wire, j + 1))
  }

  ghost predicate NothingStops(c: Classifier, wire: string) {
    StopIndex(c, Frame(wire).records) == |Frame(wire).records|
  }

  /** The first k records are taken, none of them stopped the preflight, and the visible ones are held. */
  ghost predicate Holding(c: Classifier, wire: string, k: nat, buffered: seq<string>, text: string) {
    && k <= |Frame(wire).records| && text == After(wire, k)
    && buffered == Visible(Frame(wire).records[..k])
    && forall i :: 0 <= i < k ==> !Stops(c, Frame(wire).records[i])
  }

  /** Looks at one record, if one is complete. */
  method HoldNext(buffer: SseBuffer, c: Classifier, buffered: seq<string>, ghost wire: string, ghost k: nat)
      returns (outcome: Option<Preflighted>, buffered': seq<string>, released: bool)
    requires Holding(c, wire, k, buffered, buffer.text)
    modifies buffer
    ensures outcome.Some? ==> outcome.value == Verdict(c, wire)
    ensures outcome.Some? && outcome.value.Ready? ==> outcome.value == Ready(buffered', buffer.text)
    ensures outcome.Some? ==> (outcome.value.Refused? || released <==> !NothingStops(c, wire))
    ensures outcome.None? ==> k < |Frame(wire).records| && Holding(c, wire, k + 1, buffered', buffer.text)
  {
    buffered', released := buffered, false;
    AfterFrames(wire, k);
    var record := buffer.TakeRecord();
    if record.None? {
      assert Frame(wire).records[..k] == Frame(wire).records;
      VerdictAt(c, wire, k);
      return Some(Ready(buffered, buffer.text)), buffered', false;
    }
    if c.hidden(record.value).Some? {
      VerdictAt(c, wire, k);
      return Some(Refused(c.hidden(record.value).value)), buffered', false;
    }
    VisibleGrows(Frame(wire).records, k);
    if !Text.IsBlank(record.value) {
      buffered' := buffered + [record.value];
    }
    if c.releases(record.value) {
      VerdictAt(c, wire, k);
      return Some(Ready(buffered', buffer.text)), buffered', true;
    }
    outcome := None;
  }

  /** Takes records until one stops the preflight or none is left. */
  method DrainUntilStop(buffer: SseBuffer, c: Classifier)
      returns (failure: Option<FailureKind>, buffered: seq<string>, released: bool)
    modifies buffer
    ensures Verdict(c, old(buffer.text)) == if failure.Some? then Refused(failure.value)
                                            else Ready(buffered, buffer.text)
    ensures failure.Some? || released <==> !NothingStops(c, old(buffer.text))
  {
    ghost var wire := buffer.text;
    ghost var k := 0;
    buffered, released := [], false;
    var outcome: Option<Preflighted> := None;
    while outcome.None?
      invariant outcome.None? ==> Holding(c, wire, k, buffered, buffer.text)
      invariant outcome.Some? ==> outcome.value == Verdict(c, wire)
      invariant outcome.Some? && outcome.value.Ready? ==> outcome.value == Ready(buffered, buffer.text)
      invariant outcome.Some? ==> (outcome.value.Refused? || released <==> !NothingStops(c, wire))
      decreases |Frame(wire).records| - k, outcome.None?
    {
      outcome, buffered, released := HoldNext(buffer, c, buffered, wire, k);
      if outcome.None? {
        k := k + 1;
      }
    }
    failure := if outcome.value.Refused? then Some(outcome.value.kind) else None;
  }

  /** The verdict when the first k records do not stop the preflight and the next one, if any, does. */
  lemma VerdictAt(c: Classifier, wire: string, k: nat)
    requires k <= |Frame(wire).records| && forall i :: 0 <= i < k ==> !Stops(c, Frame(wire).records[i])
    requires k < |Frame(wire).records| ==> Stops(c, Frame(wire).records[k])
    ensures Verdict(c, wire) == Judge(c, Frame(wire), k, After(wire, k + 1))
    ensures NothingStops(c, wire) <==> k == |Frame(wire).records|
  {
    StopIs(c, Frame(wire).records, k);
  }

  /** The verdict on more text, given what the records before it left visible. */
  function Behind(visible: seq<string>, next: Preflighted): Preflighted {
    if next.Ready? then Ready(visible + next.buffered, next.leftover) else next
  }

  /** When nothing stopped so far, what comes next is judged on the residue alone. */
  lemma VerdictContinues(c: Classifier, a: string, b: string)
    requires NothingStops(c, a)
    ensures Verdict(c, a + b) == Behind(Visible(Frame(a).records), Verdict(c, Frame(a).residue + b))
    ensures NothingStops(c, a + b) <==> NothingStops(c, Frame(a).residue + b)
  {
    FrameConcat(a, b);
    AfterAllTaken(a, b);
    SplitVerdict(c, a + b, Frame(a).records, Frame(a).residue + b);
  }

  lemma SplitVerdict(c: Classifier, whole: string, first: seq<string>, tail: string)
    requires StopIndex(c, first) == |first|
    requires Frame(whole) == Framing(first + Frame(tail).records, Frame(tail).residue)
    requires After(whole, |first|) == tail
    ensures Verdict(c, whole) == Behind(Visible(first), Verdict(c, tail))
    ensures NothingStops(c, whole) <==> NothingStops(c, tail)
  {
    var rest := Frame(tail);
    var j := StopIndex(c, rest.records);
    StopContinues(c, first, rest.records);
    WholeVerdict(c, whole, first, rest, tail, j);
    JudgeContinues(c, first, rest, j, After(tail, j + 1));
  }

  lemma WholeVerdict(c: Classifier, whole: string, first: seq<string>, rest: Framing, tail: string, j: nat)
    requires Frame(whole) == Framing(first + rest.records, rest.residue) && After(whole, |first|) == tail
    requires StopIndex(c, first + rest.records) == |first| + j
    ensures Verdict(c, whole) == Judge(c, Framing(first + rest.records, rest.residue), |first| + j, After(tail, j + 1))
  {
    AfterPlus(whole, |first|, j + 1);
    assert |first| + j + 1 == |first| + (j + 1);
  }

  lemma StopContinues(c: Classifier, first: seq<string>, rest: seq<string>)
    requires StopIndex(c, first) == |first|
    ensures StopIndex(c, first + rest) == |first| + StopIndex(c, rest)
  {
    StopIndexMeans(c, first);
    StopIndexMeans(c, rest);
    StopIs(c, first + rest, |first| + StopIndex(c, rest));
  }

  lemma VisibleContinues(first: seq<string>, rest: seq<string>, k: nat)
    requires k <= |rest|
    ensures Visible((first + rest)[..|first| + k]) == Visible(first) + Visible(rest[..k])
  {
    assert (first + rest)[..|first| + k] == first + rest[..k];
    FilterConcat(IsVisible, first, rest[..k]);
  }

  lemma JudgeContinues(c: Classifier, first: seq<string>, rest: Framing, j: nat, leftover: string)
    ensures Judge(c, Framing(first + rest.records, rest.residue), |first| + j, leftover)
         == Behind(Visible(first), Judge(c, rest, j, leftover))
  {
    FilterConcat(IsVisible, first, rest.records);
    if j < |rest.records| {
      VisibleContinues(first, rest.records, j + 1);
    }
  }

  lemma NextVerdict(c: Classifier, chunks: seq<Chunk>, i: nat, buffered: seq<string>, text: string)
    requires i < |chunks| && chunks[i].Received?
    requires NothingStops(c, Wire(chunks[..i])) && Ready(buffered, text) == Verdict(c, Wire(chunks[..i]))
    ensures Verdict(c, Wire(chunks[..i + 1])) == Behind(buffered, Verdict(c, text + Normalize(chunks[i].text)))
    ensures NothingStops(c, Wire(chunks[..i + 1])) <==> NothingStops(c, text + Normalize(chunks[i].text))
  {
    WireGrows(chunks, i);
    VerdictContinues(c, Wire(chunks[..i]), Normalize(chunks[i].text));
  }

  /** The first n chunks are read, none before the last stopped the preflight, and this is what it holds. */
  ghost predicate Read(c: Classifier, chunks: seq<Chunk>, n: nat, buffered: seq<string>, text: string, released: bool) {
    && n <= |chunks| && AllReceived(chunks, n)
    && (n > 0 ==> NothingStops(c, Wire(chunks[..n - 1])))
    && Ready(buffered, text) == Verdict(c, Wire(chunks[..n]))
    && (released <==> !NothingStops(c, Wire(chunks[..n])))
  }

  /** One received chunk more. */
  method ReadNext(chunks: seq<Chunk>, c: Classifier, n: nat, buffered: seq<string>, buffer: SseBuffer)
      returns (failure: Option<FailureKind>, buffered': seq<string>, released: bool)
    requires n < |chunks| && chunks[n].Received? && Read(c, chunks, n, buffered, buffer.text, false)
    modifies buffer
    ensures failure.Some? ==>
      Verdict(c, Wire(chunks[..n + 1])) == Refused(failure.value) && !NothingStops(c, Wire(chunks[..n + 1]))
    ensures failure.None? ==> Read(c, chunks, n + 1, buffered', buffer.text, released)
  {
    NextVerdict(c, chunks, n, buffered, buffer.text);
    buffer.text := buffer.text + Normalize(chunks[n].text);
    var more;
    failure, more, released := DrainUntilStop(buffer, c);
    buffered' := buffered + more;
  }

  /**
   * The preflight read n chunks: no further than to the first that stopped it, to a broken read, or to
   * the end; and it came to the verdict of the text read, or refused what broke off.
   */
  ghost predicate Decided(c: Classifier, chunks: seq<Chunk>, r: Preflighted, n: nat) {
    && n <= |chunks|
    && (n > 0 ==> AllReceived(chunks, n - 1) && NothingStops(c, Wire(chunks[..n - 1])))
    && (n < |chunks| ==> n > 0 && (chunks[n - 1].Broken? || !NothingStops(c, Wire(chunks[..n]))))
    && r == if n > 0 && chunks[n - 1].Broken? then Refused(Generic) else Verdict(c, Wire(chunks[..n]))
  }

  lemma BrokenPreflight(c: Classifier, chunks: seq<Chunk>, n: nat, buffered: seq<string>, text: string)
    requires Read(c, chunks, n, buffered, text, false) && n < |chunks| && chunks[n].Broken?
    ensures Decided(c, chunks, Refused(Generic), n + 1)
  {
  }

  lemma RefusedPreflight(c: Classifier, chunks: seq<Chunk>, n: nat, buffered: seq<string>, text: string,
                         kind: FailureKind)
    requires Read(c, chunks, n, buffered, text, false) && n < |chunks| && chunks[n].Received?
    requires Verdict(c, Wire(chunks[..n + 1])) == Refused(kind) && !NothingStops(c, Wire(chunks[..n + 1]))
    ensures Decided(c, chunks, Refused(kind), n + 1)
  {
  }

  lemma ReadyPreflight(c: Classifier, chunks: seq<Chunk>, n: nat, buffered: seq<string>, text: string, released: bool)
    requires Read(c, chunks, n, buffered, text, released) && (released || n == |chunks|)
    ensures Decided(c, chunks, Ready(buffered, text), n)
  {
    if n == 0 {
      NothingStopsAtFirst(c);
      assert chunks[..0] == [];
    }
  }

  lemma NothingStopsAtFirst(c: Classifier)
    ensures NothingStops(c, Wire([]))
  {
  }

  /**
   * Reads chunks until a record releases the stream, refusing it if a failure in disguise comes
   * first. Reading goes no further than the chunk that decides.
   */
  method Preflight(chunks: seq<Chunk>, c: Classifier) returns (r: Preflighted, consumed: nat)
    ensures Decided(c, chunks, r, consumed)
  {
    var buffer := new SseBuffer("");
    var buffered := [];
    var sawRelease := false;
    consumed := 0;
    NothingRead(c, chunks);
    while !sawRelease
      invariant Read(c, chunks, consumed, buffered, buffer.text, sawRelease)
      decreases |chunks| - consumed, !sawRelease
    {
      if consumed == |chunks| {
        break;
      }
      if chunks[consumed].Broken? {
        BrokenPreflight(c, chunks, consumed, buffered, buffer.text);
        return Refused(Generic), consumed + 1;
      }
      ghost var held, text := buffered, buffer.text;
      var failure;
      failure, buffered, sawRelease := ReadNext(chunks, c, consumed, buffered, buffer);
      if failure.Some? {
        RefusedPreflight(c, chunks, consumed, held, text, failure.value);
        return Refused(failure.value), consumed + 1;
      }
      consumed := consumed + 1;
    }
    ReadyPreflight(c, chunks, consumed, buffered, buffer.text, sawRelease);
    r := Ready(buffered, buffer.text);
  }

  lemma NothingRead(c: Classifier, chunks: seq<Chunk>)
    ensures Read(c, chunks, 0, [], "", false)
  {
    assert Wire(chunks[..0]) == "";
  }

  lemma StopIs(c: Classifier, records: seq<string>, k: nat)
    requires k <= |records| && forall i :: 0 <= i < k ==> !Stops(c, records[i])
    ensures k == |records| || Stops(c, records[k]) ==> StopIndex(c, records) == k
  {
    StopIndexMeans(c, records);
  }

  lemma VisibleGrows(records: seq<string>, k: nat)
    requires k < |records|
    ensures Visible(records[..k + 1]) == Visible(records[..k]) + (if IsVisible(records[k]) then [records[k]] else [])
  {
    assert records[..k + 1] == records[..k] + [records[k]];
    FilterConcat(IsVisible, records[..k], [records[k]]);
    assert [records[k]][1..] == [];
  }

  // ---- Relaying ----------------------------------------------------------------------------------------

  /** The records up to the first failure in disguise, which is still passed on. */
  function UpToHidden(c: Classifier, records: seq<string>): seq<string> {
    var h := HiddenIndex(c, records);
    if h < |records| then records[..h + 1] else records
  }

  ghost predicate NothingHidden(c: Classifier, records: seq<string>) {
    HiddenIndex(c, records) == |records|
  }

  /** The records complete after n more chunks; a leftover is only looked at once a chunk arrives. */
  ghost function Arrived(leftover: string, chunks: seq<Chunk>, n: nat): seq<string>
    requires n <= |chunks|
  {
    if n == 0 then [] else Frame(leftover + Wire(chunks[..n])).records
  }

  ghost function Pending(leftover: string, chunks: seq<Chunk>, n: nat): string
    requires n <= |chunks|
  {
    if n == 0 then leftover else Frame(leftover + Wire(chunks[..n])).residue
  }

  method DrainRelayed(buffer: SseBuffer, c: Classifier) returns (records: seq<string>, hidden: bool)
    modifies buffer
    ensures records == UpToHidden(c, Frame(old(buffer.text)).records)
    ensures hidden <==> !NothingHidden(c, Frame(old(buffer.text)).records)
    ensures !hidden ==> buffer.text == Frame(old(buffer.text)).residue
  {
    ghost var wire := buffer.text;
    ghost var all := Frame(wire).records;
    records := [];
    while true
      invariant |records| <= |all| && records == all[..|records|] && buffer.text == After(wire, |records|)
      invariant forall i :: 0 <= i < |records| ==> c.hidden(all[i]).None?
      decreases |all| - |records|
    {
      ghost var k := |records|;
      AfterFrames(wire, k);
      UpToHiddenAt(c, all, k);
      var record := buffer.TakeRecord();
      if record.None? {
        return records, false;
      }
      records := records + [record.value];
      if c.hidden(record.value).Some? {
        return records, true;
      }
    }
  }

  lemma UpToHiddenAt(c: Classifier, records: seq<string>, k: nat)
    requires k <= |records| && forall i :: 0 <= i < k ==> c.hidden(records[i]).None?
    ensures k == |records| ==> UpToHidden(c, records) == records[..k] && NothingHidden(c, records)
    ensures k < |records| ==> records[..k + 1] == records[..k] + [records[k]]
    ensures k < |records| && c.hidden(records[k]).Some? ==>
      UpToHidden(c, records) == records[..k + 1] && !NothingHidden(c, records)
  {
    HiddenIs(c, records, k);
    if k == |records| {
      assert records[..k] == records;
    }
  }

  method RelayChunk(buffer: SseBuffer, chunk: string, c: Classifier) returns (records: seq<string>, hidden: bool)
    modifies buffer
    ensures var next := Frame(old(buffer.text) + Normalize(chunk));
      && records == UpToHidden(c, next.records)
      && (hidden <==> !NothingHidden(c, next.records))
      && (!hidden ==> buffer.text == next.residue && records == next.records)
  {
    buffer.text := buffer.text + Normalize(chunk);
    records, hidden := DrainRelayed(buffer, c);
  }

  lemma HiddenIs(c: Classifier, records: seq<string>, k: nat)
    requires k <= |records| && forall i :: 0 <= i < k ==> c.hidden(records[i]).None?
    ensures k == |records| || c.hidden(records[k]).Some? ==> HiddenIndex(c, records) == k
  {
    HiddenIndexMeans(c, records);
  }

  lemma HiddenContinues(c: Classifier, first: seq<string>, rest: seq<string>)
    requires NothingHidden(c, first)
    ensures UpToHidden(c, first + rest) == first + UpToHidden(c, rest)
    ensures NothingHidden(c, first + rest) <==> NothingHidden(c, rest)
  {
    var h := HiddenIndex(c, rest);
    HiddenIndexMeans(c, first);
    HiddenIndexMeans(c, rest);
    HiddenIs(c, first + rest, |first| + h);
    if h < |rest| {
      assert (first + rest)[..|first| + h + 1] == first + rest[..h + 1];
    }
  }

  lemma ArrivedGrows(leftover: string, chunks: seq<Chunk>, n: nat)
    requires n < |chunks| && chunks[n].Received?
    ensures var next := Frame(Pending(leftover, chunks, n) + Normalize(chunks[n].text));
      && Arrived(leftover, chunks, n + 1) == Arrived(leftover, chunks, n) + next.records
      && Pending(leftover, chunks, n + 1) == next.residue
  {
    WireGrows(chunks, n);
    var before, more := Wire(chunks[..n]), Normalize(chunks[n].text);
    assert leftover + (before + more) == (leftover + before) + more;
    if n == 0 {
      assert before == "" && leftover + before == leftover;
    } else {
      FrameConcat(leftover + before, more);
    }
  }

  lemma NextArrival(c: Classifier, leftover: string, chunks: seq<Chunk>, n: nat)
    requires n < |chunks| && chunks[n].Received? && NothingHidden(c, Arrived(leftover, chunks, n))
    ensures var next := Frame(Pending(leftover, chunks, n) + Normalize(chunks[n].text));
      && UpToHidden(c, Arrived(leftover, chunks, n + 1)) == Arrived(leftover, chunks, n) + UpToHidden(c, next.records)
      && (NothingHidden(c, Arrived(leftover, chunks, n + 1)) <==> NothingHidden(c, next.records))
      && Pending(leftover, chunks, n + 1) == next.residue
  {
    ArrivedGrows(leftover, chunks, n);
    var next := Frame(Pending(leftover, chunks, n) + Normalize(chunks[n].text));
    HiddenContinues(c, Arrived(leftover, chunks, n), next.records);
  }

  /** How a relayed stream came to its end. */
  datatype Ending = Ended | BrokenOff | FailureShown

  /**
   * Passes on what was held back and then every record that arrives, until the stream ends, breaks,
   * or shows a failure in disguise.
   */
  method Relay(buffered: seq<string>, leftover: string, chunks: seq<Chunk>, c: Classifier)
      returns (emitted: seq<string>, ending: Ending, read: nat)
    ensures read <= |chunks| && AllReceived(chunks, read)
    ensures emitted == buffered + UpToHidden(c, Arrived(leftover, chunks, read))
    ensures ending.FailureShown? <==> !NothingHidden(c, Arrived(leftover, chunks, read))
    ensures ending.BrokenOff? ==> read < |chunks| && chunks[read].Broken?
    ensures ending.Ended? ==> read == |chunks|
  {
    var buffer := new SseBuffer(leftover);
    emitted, read := buffered, 0;
    while read < |chunks|
      invariant InStep(buffered, leftover, chunks, c, read, emitted, buffer.text)
    {
      if chunks[read].Broken? {
        HiddenNowhere(c, Arrived(leftover, chunks, read));
        return emitted, BrokenOff, read;
      }
      var hidden;
      emitted, hidden := RelayNext(buffered, leftover, chunks, c, read, emitted, buffer);
      read := read + 1;
      if hidden {
        return emitted, FailureShown, read;
      }
    }
    HiddenNowhere(c, Arrived(leftover, chunks, read));
    ending := Ended;
  }

  /** The relay has passed on all that arrived so far, and nothing of it was a failure. */
  ghost predicate InStep(buffered: seq<string>, leftover: string, chunks: seq<Chunk>, c: Classifier, read: nat,
                         emitted: seq<string>, text: string) {
    && read <= |chunks| && AllReceived(chunks, read)
    && NothingHidden(c, Arrived(leftover, chunks, read))
    && emitted == buffered + Arrived(leftover, chunks, read)
    && text == Pending(leftover, chunks, read)
  }

  method RelayNext(ghost buffered: seq<string>, ghost leftover: string, chunks: seq<Chunk>, c: Classifier, read: nat,
                   emitted: seq<string>, buffer: SseBuffer) returns (emitted': seq<string>, hidden: bool)
    requires InStep(buffered, leftover, chunks, c, read, emitted, buffer.text) && read < |chunks|
    requires chunks[read].Received?
    modifies buffer
    ensures AllReceived(chunks, read + 1)
    ensures hidden <==> !NothingHidden(c, Arrived(leftover, chunks, read + 1))
    ensures !hidden ==> InStep(buffered, leftover, chunks, c, read + 1, emitted', buffer.text)
    ensures emitted' == buffered + UpToHidden(c, Arrived(leftover, chunks, read + 1))
  {
    ghost var text := buffer.text;
    var records;
    records, hidden := RelayChunk(buffer, chunks[read].text, c);
    emitted' := emitted + records;
    NextArrival(c, leftover, chunks, read);
    Regroup(buffered, Arrived(leftover, chunks, read), records);
    if !hidden {
      HiddenNowhere(c, Arrived(leftover, chunks, read + 1));
    }
  }

  lemma Regroup(a: seq<string>, b: seq<string>, c: seq<string>)
    ensures a + b + c == a + (b + c)
  {
  }

  lemma HiddenNowhere(c: Classifier, records: seq<string>)
    requires NothingHidden(c, records)
    ensures UpToHidden(c, records) == records
  {
  }

  /** `consumed` counts the chunks read before the stream was released, `reach` all chunks read. */
  datatype Delivery =
    | NotStarted(kind: FailureKind, consumed: nat)
    | Delivered(handled: seq<string>, ending: Ending, consumed: nat, reach: nat)

  /** How many records the preflight takes: all up to and including the first that stops it. */
  function HeldCount(c: Classifier, records: seq<string>): (k: nat)
    ensures k <= |records|
  {
    CapAt(StopIndex(c, records) + 1, |records|)
  }

  function CapAt(n: nat, cap: nat): nat {
    if n <= cap then n else cap
  }

  /** All complete records of the stream. */
  ghost function Whole(chunks: seq<Chunk>): seq<string> {
    Frame(Wire(chunks)).records
  }

  /**
   * What is handed on of the first `reach` chunks: the held records without the blank ones, and, if a
   * chunk came after the preflight, the others up to the first failure.
   */
  ghost function Passed(c: Classifier, chunks: seq<Chunk>, consumed: nat, reach: nat): seq<string>
    requires consumed <= reach <= |chunks|
  {
    var records := Whole(chunks[..reach]);
    var k := HeldCount(c, records);
    Visible(records[..k]) + if consumed < reach then UpToHidden(c, records[k..]) else []
  }

  ghost predicate IsPassed(c: Classifier, chunks: seq<Chunk>, consumed: nat, reach: nat, handled: seq<string>)
    requires consumed <= reach <= |chunks|
  {
    handled == Passed(c, chunks, consumed, reach)
  }

  /** The relay came upon a failure in disguise. */
  ghost predicate ShowsFailure(c: Classifier, chunks: seq<Chunk>, consumed: nat, reach: nat)
    requires consumed <= reach <= |chunks|
  {
    var records := Whole(chunks[..reach]);
    consumed < reach && !NothingHidden(c, records[HeldCount(c, records)..])
  }

  /** The preflight stopped at the first chunk that could stop it, or at the end of the stream. */
  ghost predicate PreflightAt(c: Classifier, chunks: seq<Chunk>, n: nat) {
    PreflightEnds(c, chunks, n) && (n > 0 ==> AllReceived(chunks, n - 1) && NothingStops(c, Wire(chunks[..n - 1])))
  }

  /** A relay that read as far as `reach` met no broken read before, and gives the right cause for its end. */
  ghost predicate EndsFor(ending: Ending, chunks: seq<Chunk>, reach: nat) {
    && reach <= |chunks| && AllReceived(chunks, reach)
    && (ending.BrokenOff? ==> reach < |chunks| && chunks[reach].Broken?)
    && (ending.Ended? ==> reach == |chunks|)
  }

  ghost predicate Faithful(c: Classifier, chunks: seq<Chunk>, d: Delivery)
    requires d.Delivered?
  {
    && PreflightAt(c, chunks, d.consumed)
    && d.consumed <= d.reach <= |chunks|
    && EndsFor(d.ending, chunks, d.reach)
    && (d.ending.FailureShown? <==> ShowsFailure(c, chunks, d.consumed, d.reach))
    && d.handled == Passed(c, chunks, d.consumed, d.reach)
  }

  /** The held records lose their blank ones; the rest follow in full, but only if a chunk came after the preflight. */
  ghost function Handled(c: Classifier, chunks: seq<Chunk>, consumed: nat): seq<string> {
    var whole := Whole(chunks);
    var k := HeldCount(c, whole);
    Visible(whole[..k]) + if consumed < |chunks| then whole[k..] else []
  }

  /** Apart from blank records among the first few, `handled` is a prefix of the framing. */
  ghost predicate IsPrefixOf(handled: seq<string>, whole: seq<string>) {
    exists h: nat, m: nat :: h <= m <= |whole| && handled == Visible(whole[..h]) + whole[h..m]
  }

  ghost predicate Healthy(c: Classifier, chunks: seq<Chunk>) {
    AllReceived(chunks, |chunks|) && NothingHidden(c, Whole(chunks))
  }

  /** A guarded stream: preflight first, then the relay of what is left. */
  method Deliver(chunks: seq<Chunk>, c: Classifier) returns (d: Delivery)
    ensures PreflightAt(c, chunks, d.consumed)
         || (d.NotStarted? && 0 < d.consumed <= |chunks| && chunks[d.consumed - 1].Broken?)
    ensures d.NotStarted? ==> d.kind == Refusal(c, chunks, d.consumed)
    ensures d.Delivered? ==> Faithful(c, chunks, d) && Verdict(c, Wire(chunks[..d.consumed])).Ready?
    ensures d.Delivered? ==> IsPrefixOf(d.handled, Whole(chunks))
    ensures Healthy(c, chunks) ==> d.Delivered? && d.ending == Ended && d.handled == Handled(c, chunks, d.consumed)
  {
    var r, consumed := Preflight(chunks, c);
    PreflightReads(c, chunks, r, consumed);
    if r.Refused? {
      return NotStarted(r.kind, consumed);
    }
    ReadyMeans(c, Wire(chunks[..consumed]), r.buffered, r.leftover);
    var emitted, ending, reach := RelayRest(chunks, consumed, r.buffered, r.leftover, c);
    d := Delivered(emitted, ending, consumed, reach);
    FaithfulMeans(c, chunks, d);
  }

  /** A stream that is passed on as it comes. */
  ghost predicate Unheld(c: Classifier, chunks: seq<Chunk>, d: Delivery) {
    && d.Delivered? && d.consumed == 0 && d.reach <= |chunks|
    && EndsFor(d.ending, chunks, d.reach)
    && (d.ending.FailureShown? <==> !NothingHidden(c, Whole(chunks[..d.reach])))
    && d.handled == UpToHidden(c, Whole(chunks[..d.reach]))
  }

  method PassThrough(chunks: seq<Chunk>, c: Classifier) returns (d: Delivery)
    ensures Unheld(c, chunks, d) && IsPrefixOf(d.handled, Whole(chunks))
    ensures Healthy(c, chunks) ==> d.ending == Ended && d.handled == Whole(chunks)
  {
    var emitted, ending, read := Relay([], "", chunks, c);
    d := Delivered(emitted, ending, 0, read);
    UnheldArrives(chunks, read);
    UnheldMeans(c, chunks, d);
  }

  lemma UnheldArrives(chunks: seq<Chunk>, read: nat)
    requires read <= |chunks|
    ensures Arrived("", chunks, read) == Whole(chunks[..read])
  {
    if read > 0 {
      assert "" + Wire(chunks[..read]) == Wire(chunks[..read]);
    } else {
      assert chunks[..0] == [];
    }
  }

  lemma UnheldMeans(c: Classifier, chunks: seq<Chunk>, d: Delivery)
    requires Unheld(c, chunks, d)
    ensures IsPrefixOf(d.handled, Whole(chunks))
    ensures Healthy(c, chunks) ==> d.ending == Ended && d.handled == Whole(chunks)
  {
    var records := Whole(chunks[..d.reach]);
    PrefixFrames(chunks, d.reach);
    assert records[0..] == records && Visible(records[..0]) == [] && [] + d.handled == d.handled;
    SlicesAreSlices(Whole(chunks), records, 0, d.handled);
    if Healthy(c, chunks) {
      SliceOfHealthy(c, chunks, d.reach, 0);
      if d.reach == |chunks| {
        assert chunks[..d.reach] == chunks;
      }
    }
  }

  /** What is handed on is always a prefix, and a healthy stream runs to its end. */
  lemma FaithfulMeans(c: Classifier, chunks: seq<Chunk>, d: Delivery)
    requires d.Delivered? && Faithful(c, chunks, d)
    ensures IsPrefixOf(d.handled, Whole(chunks))
    ensures Healthy(c, chunks) ==> d.ending == Ended && d.handled == Handled(c, chunks, d.consumed)
  {
    PassedIsPrefix(c, chunks, d.consumed, d.reach);
    if Healthy(c, chunks) {
      HealthyPasses(c, chunks, d.consumed, d.reach);
    }
  }

  /** What a preflight's result says about how far it read. */
  lemma PreflightReads(c: Classifier, chunks: seq<Chunk>, r: Preflighted, n: nat)
    requires Decided(c, chunks, r, n)
    ensures PreflightAt(c, chunks, n) || (n > 0 && chunks[n - 1].Broken?)
    ensures r.Refused? ==> r.kind == Refusal(c, chunks, n)
    ensures r.Ready? ==> AllReceived(chunks, n) && PreflightAt(c, chunks, n) && r == Verdict(c, Wire(chunks[..n]))
    ensures Healthy(c, chunks) ==> r.Ready?
  {
    if Healthy(c, chunks) {
      HealthyIsReady(c, chunks, n);
    }
  }

  /** Why the first n chunks were not released: a broken read, or what a record of theirs gave away. */
  function Refusal(c: Classifier, chunks: seq<Chunk>, n: nat): FailureKind
    requires n <= |chunks|
  {
    if n > 0 && chunks[n - 1].Broken? then Generic
    else
      var v := Verdict(c, Wire(chunks[..n]));
      if v.Refused? then v.kind else Generic
  }

  /** What a preflight holds back, and what it leaves in its buffer. */
  ghost predicate Holds(c: Classifier, wire: string, buffered: seq<string>, leftover: string) {
    var records := Frame(wire).records;
    var k := HeldCount(c, records);
    buffered == Visible(records[..k]) && leftover == After(wire, k)
  }

  /** The relay of what the preflight left, as seen from the whole stream. */
  method RelayRest(chunks: seq<Chunk>, n: nat, buffered: seq<string>, leftover: string, c: Classifier)
      returns (emitted: seq<string>, ending: Ending, reach: nat)
    requires PreflightEnds(c, chunks, n) && AllReceived(chunks, n)
    requires Holds(c, Wire(chunks[..n]), buffered, leftover)
    ensures n <= reach && EndsFor(ending, chunks, reach)
    ensures IsPassed(c, chunks, n, reach, emitted)
    ensures ending.FailureShown? <==> ShowsFailure(c, chunks, n, reach)
  {
    var read;
    emitted, ending, read := Relay(buffered, leftover, chunks[n..], c);
    reach := n + read;
    PassedOn(c, chunks, n, buffered, leftover, reach, emitted, Arrived(leftover, chunks[n..], read));
    EndsLater(chunks, n, read, ending);
  }

  lemma EndsLater(chunks: seq<Chunk>, n: nat, read: nat, ending: Ending)
    requires n + read <= |chunks| && AllReceived(chunks, n) && EndsFor(ending, chunks[n..], read)
    ensures EndsFor(ending, chunks, n + read)
  {
    forall i | n <= i < n + read
      ensures chunks[i].Received?
    {
      assert chunks[n..][i - n].Received?;
    }
  }

  /** The preflight came as far as n chunks, stopped there by a record or by the end of the stream. */
  ghost predicate PreflightEnds(c: Classifier, chunks: seq<Chunk>, n: nat) {
    n <= |chunks| && (n < |chunks| ==> !NothingStops(c, Wire(chunks[..n])))
  }

  lemma PrefixFrames(chunks: seq<Chunk>, n: nat)
    requires n <= |chunks|
    ensures Wire(chunks) == Wire(chunks[..n]) + Wire(chunks[n..])
    ensures var p, whole := Frame(Wire(chunks[..n])).records, Frame(Wire(chunks)).records;
      |p| <= |whole| && whole[..|p|] == p
  {
    assert chunks == chunks[..n] + chunks[n..];
    WireConcat(chunks[..n], chunks[n..]);
    FrameConcat(Wire(chunks[..n]), Wire(chunks[n..]));
  }

  lemma HealthyIsReady(c: Classifier, chunks: seq<Chunk>, n: nat)
    requires n <= |chunks| && NothingHidden(c, Frame(Wire(chunks)).records)
    ensures Verdict(c, Wire(chunks[..n])).Ready?
  {
    PrefixFrames(chunks, n);
    var p, whole := Frame(Wire(chunks[..n])).records, Frame(Wire(chunks)).records;
    var j := StopIndex(c, p);
    HiddenIndexMeans(c, whole);
    if j < |p| {
      assert whole[j] == p[j];
    }
  }

  lemma HeldEarly(c: Classifier, chunks: seq<Chunk>, n: nat)
    requires PreflightEnds(c, chunks, n)
    ensures var p, whole := Frame(Wire(chunks[..n])).records, Frame(Wire(chunks)).records;
      HeldCount(c, p) == HeldCount(c, whole) <= |p| <= |whole| && whole[..HeldCount(c, p)] == p[..HeldCount(c, p)]
  {
    if n == |chunks| {
      assert chunks[..n] == chunks;
    } else {
      PrefixFrames(chunks, n);
      HeldInPrefix(c, Frame(Wire(chunks[..n])).records, Frame(Wire(chunks)).records);
    }
  }

  lemma HeldInPrefix(c: Classifier, p: seq<string>, whole: seq<string>)
    requires |p| <= |whole| && whole[..|p|] == p && StopIndex(c, p) < |p|
    ensures HeldCount(c, p) == HeldCount(c, whole) <= |p|
    ensures whole[..HeldCount(c, p)] == p[..HeldCount(c, p)]
  {
    assert forall i :: 0 <= i < |p| ==> whole[i] == p[i];
    StopIndexMeans(c, p);
    StopIs(c, whole, StopIndex(c, p));
  }

  lemma ReadyMeans(c: Classifier, wire: string, buffered: seq<string>, leftover: string)
    requires Verdict(c, wire) == Ready(buffered, leftover)
    ensures Holds(c, wire, buffered, leftover)
  {
    var records := Frame(wire).records;
    if StopIndex(c, records) == |records| {
      assert records[..|records|] == records;
      AfterAllTaken(wire, "");
      assert wire + "" == wire && Frame(wire).residue + "" == Frame(wire).residue;
    }
  }

  /** How much is held can be told from the text read before as well as from all that was read. */
  lemma HeldAlike(c: Classifier, chunks: seq<Chunk>, n: nat, reach: nat)
    requires PreflightEnds(c, chunks, n) && n <= reach <= |chunks|
    ensures var early, all := Whole(chunks[..n]), Whole(chunks[..reach]);
      var k := HeldCount(c, all);
      HeldCount(c, early) == k <= |early| <= |all| && all[..k] == early[..k]
  {
    var seen := chunks[..reach];
    assert seen[..n] == chunks[..n];
    HeldEarly(c, seen, n);
  }

  /** What was held and what arrived afterwards, as parts of the framing. */
  lemma PassedParts(c: Classifier, chunks: seq<Chunk>, n: nat, buffered: seq<string>, leftover: string, reach: nat,
                    k: nat)
    requires PreflightEnds(c, chunks, n) && Holds(c, Wire(chunks[..n]), buffered, leftover) && n <= reach <= |chunks|
    requires k == HeldCount(c, Whole(chunks[..reach]))
    ensures buffered == Visible(Whole(chunks[..reach])[..k])
    ensures Arrived(leftover, chunks[n..], reach - n) == if n < reach then Whole(chunks[..reach])[k..] else []
  {
    HeldAlike(c, chunks, n, reach);
    if n < reach {
      ArrivedIsSlice(chunks, n, reach, k, leftover);
    }
  }

  lemma PassedOn(c: Classifier, chunks: seq<Chunk>, n: nat, buffered: seq<string>, leftover: string, reach: nat,
                 emitted: seq<string>, arrived: seq<string>)
    requires PreflightEnds(c, chunks, n) && Holds(c, Wire(chunks[..n]), buffered, leftover) && n <= reach <= |chunks|
    requires arrived == Arrived(leftover, chunks[n..], reach - n) && emitted == buffered + UpToHidden(c, arrived)
    ensures IsPassed(c, chunks, n, reach, emitted)
    ensures NothingHidden(c, arrived) <==> !ShowsFailure(c, chunks, n, reach)
  {
    PassedParts(c, chunks, n, buffered, leftover, reach, HeldCount(c, Whole(chunks[..reach])));
  }

  lemma PassedIsPrefix(c: Classifier, chunks: seq<Chunk>, n: nat, reach: nat)
    requires n <= reach <= |chunks|
    ensures IsPrefixOf(Passed(c, chunks, n, reach), Whole(chunks))
  {
    PrefixFrames(chunks, reach);
    var records := Whole(chunks[..reach]);
    var h := HeldCount(c, records);
    var tail := if n < reach then UpToHidden(c, records[h..]) else [];
    SlicesAreSlices(Whole(chunks), records, h, tail);
  }

  lemma SlicesAreSlices(whole: seq<string>, records: seq<string>, h: nat, tail: seq<string>)
    requires |records| <= |whole| && records == whole[..|records|] && h <= |records| && tail <= records[h..]
    ensures IsPrefixOf(Visible(records[..h]) + tail, whole)
  {
    var m := h + |tail|;
    assert whole[..h] == records[..h];
    assert whole[h..m] == tail;
  }

  lemma HealthyPasses(c: Classifier, chunks: seq<Chunk>, n: nat, reach: nat)
    requires NothingHidden(c, Whole(chunks)) && n <= reach <= |chunks|
    ensures !ShowsFailure(c, chunks, n, reach)
    ensures reach == |chunks| ==> Passed(c, chunks, n, reach) == Handled(c, chunks, n)
  {
    var k := HeldCount(c, Whole(chunks[..reach]));
    SliceOfHealthy(c, chunks, reach, k);
    if reach == |chunks| {
      assert chunks[..reach] == chunks;
    }
  }

  lemma SliceOfHealthy(c: Classifier, chunks: seq<Chunk>, m: nat, k: nat)
    requires NothingHidden(c, Frame(Wire(chunks)).records) && m <= |chunks| && k <= |Frame(Wire(chunks[..m])).records|
    ensures NothingHidden(c, Frame(Wire(chunks[..m])).records[k..])
  {
    PrefixFrames(chunks, m);
    var r, whole := Frame(Wire(chunks[..m])).records[k..], Frame(Wire(chunks)).records;
    assert forall i :: 0 <= i < |r| ==> r[i] == whole[k + i];
    HiddenIndexMeans(c, whole);
    HiddenIs(c, r, |r|);
  }

  lemma ArrivedIsSlice(chunks: seq<Chunk>, n: nat, reach: nat, k: nat, leftover: string)
    requires n < reach <= |chunks| && k <= |Whole(chunks[..n])| && leftover == After(Wire(chunks[..n]), k)
    ensures k <= |Whole(chunks[..reach])|
    ensures Arrived(leftover, chunks[n..], reach - n) == Whole(chunks[..reach])[k..]
  {
    var later := chunks[n..][..reach - n];
    WirePieces(chunks, n, reach);
    LaterRecords(Wire(chunks[..n]), Wire(later), k);
  }

  lemma WirePieces(chunks: seq<Chunk>, n: nat, reach: nat)
    requires n <= reach <= |chunks|
    ensures Wire(chunks[..reach]) == Wire(chunks[..n]) + Wire(chunks[n..][..reach - n])
  {
    assert chunks[..reach] == chunks[..n] + chunks[n..][..reach - n];
    WireConcat(chunks[..n], chunks[n..][..reach - n]);
  }

  lemma LaterRecords(a: string, b: string, k: nat)
    requires k <= |Frame(a).records|
    ensures k <= |Frame(a + b).records|
    ensures Frame(After(a, k) + b).records == Frame(a + b).records[k..]
  {
    AfterExtends(a, b, k);
    FrameConcat(a, b);
    AfterFrames(a + b, k);
  }

  /**
   * A healthy guarded stream is handed on in full exactly when a chunk follows the preflight, or the
   * preflight left no complete record in its buffer.
   */
  lemma HandledInFullExactly(c: Classifier, chunks: seq<Chunk>, d: Delivery)
    requires Healthy(c, chunks) && d.Delivered? && Faithful(c, chunks, d)
    ensures var whole := Whole(chunks);
      var k := HeldCount(c, whole);
      && (d.handled == Visible(whole[..k]) + whole[k..] <==> d.consumed < |chunks| || k == |whole|)
      && (d.consumed == |chunks| ==>
            (k == |whole| <==> Frame(After(Wire(chunks), k)).records == []))
  {
    HealthyPasses(c, chunks, d.consumed, d.reach);
    var whole := Whole(chunks);
    var k := HeldCount(c, whole);
    assert |Visible(whole[..k]) + whole[k..]| == |Visible(whole[..k])| + |whole[k..]|;
    if d.consumed == |chunks| {
      AfterFrames(Wire(chunks), k);
    }
  }
}
