/** Serving a stream in one piece: everything is read, watched and captured before anything is answered. */
module Collector {
  import opened Prelude
  import opened Json
  import opened Upstream
  import opened SseFraming
  import opened StreamRelay
  import ChatAdapter
  import ChatCompletion
  import ChatEndToEnd
  import ChatPipeline
  import ChatRefinement
  import Reconstruction
  import SseRecord
  import Text
  import ToolMoves

  datatype Result = Failed(kind: FailureKind) | Response(value: Value)

  /** The record left over when the stream ends without a blank line. */
  function LastRecord(residue: string): seq<string> {
    if Text.IsBlank(residue) then [] else [Text.Trim(residue)]
  }

  /** How many reads delivered text before one broke. */
  function ReadsBeforeBreak(chunks: seq<Chunk>): (n: nat)
    ensures n <= |chunks| && (n < |chunks| ==> chunks[n].Broken?)
    ensures forall i :: 0 <= i < n ==> chunks[i].Received?
  {
    if chunks == [] || chunks[0].Broken? then 0
    else
      var n := ReadsBeforeBreak(chunks[1..]);
      assert forall i :: 1 <= i < |chunks| ==> chunks[i] == chunks[1..][i - 1];
      n + 1
  }

  ghost function PiecesOf(records: seq<string>, codec: SseRecord.Codec, introduces: Value -> bool)
      : seq<Reconstruction.Piece> {
    ChatEndToEnd.PiecesOf(ChatPipeline.Decoded(records, codec), introduces)
  }

  ghost function Captured(records: seq<string>, codec: SseRecord.Codec, introduces: Value -> bool)
      : Reconstruction.Captured {
    Reconstruction.CaptureAll(Reconstruction.NOTHING, PiecesOf(records, codec, introduces))
  }

  function OrFailed(v: Option<Value>): Result {
    if v.Some? then Response(v.value) else Failed(Generic)
  }

  /** The first failure in disguise wins, then a broken read; otherwise the response, if one was completed. */
  ghost function Answer(c: Classifier, chunks: seq<Chunk>, codec: SseRecord.Codec, introduces: Value -> bool): Result {
    var n := ReadsBeforeBreak(chunks);
    var framed := Frame(Wire(chunks[..n]));
    var all := framed.records + if n == |chunks| then LastRecord(framed.residue) else [];
    var h := HiddenIndex(c, all);
    if h < |all| && c.hidden(all[h]).Some? then Failed(c.hidden(all[h]).value)
    else if n < |chunks| then Failed(Generic)
    else OrFailed(Reconstruction.Finalize(Captured(all, codec, introduces)))
  }

  // ---- Capturing records one by one ---------------------------------------------------------------

  lemma NullCapturesNothing(c: Reconstruction.Captured, introduced: bool)
    ensures Reconstruction.Capture(c, Reconstruction.Piece(Null, introduced)) == c
  {
    assert Reconstruction.Overlaid(c.items, Reconstruction.Indexed([])) == c.items;
  }

  lemma CapturedSnoc(records: seq<string>, record: string, codec: SseRecord.Codec, introduces: Value -> bool)
    ensures var before, p := Captured(records, codec, introduces), SseRecord.ParsedRecord(record);
      Captured(records + [record], codec, introduces)
      == if p.None? || codec.document(p.value.data).None? then before
         else
           var v := codec.document(p.value.data).value;
           Reconstruction.Capture(before, Reconstruction.Piece(v, introduces(v)))
  {
    var before, p := Captured(records, codec, introduces), SseRecord.ParsedRecord(record);
    var es := ChatPipeline.Decoded(records, codec);
    assert (records + [record])[..|records|] == records;
    if p.None? {
      assert es + [] == es;
    } else {
      var e := SseRecord.EventOf(p.value, codec);
      var piece := Reconstruction.Piece(e.value, introduces(e.value));
      assert ChatEndToEnd.PiecesOf(es + [e], introduces) == ChatEndToEnd.PiecesOf(es, introduces) + [piece];
      Reconstruction.CaptureAllConcat(Reconstruction.NOTHING, ChatEndToEnd.PiecesOf(es, introduces), [piece]);
      assert Reconstruction.CaptureAll(before, [piece]) == Reconstruction.Capture(before, piece);
      NullCapturesNothing(before, introduces(Null));
    }
  }

  method CaptureRecord(capture: Reconstruction.StreamCapture, record: string, codec: SseRecord.Codec,
                       introduces: Value -> bool, ghost before: seq<string>)
    requires capture.Snapshot() == Captured(before, codec, introduces)
    modifies capture
    ensures capture.Snapshot() == Captured(before + [record], codec, introduces)
  {
    CapturedSnoc(before, record, codec, introduces);
    var p := SseRecord.ParseRecord(record);
    if p.Some? {
      var v := codec.document(p.value.data);
      if v.Some? {
        capture.Record(Reconstruction.Piece(v.value, introduces(v.value)));
      }
    }
  }

  method CaptureRecords(capture: Reconstruction.StreamCapture, records: seq<string>, codec: SseRecord.Codec,
                        introduces: Value -> bool, ghost before: seq<string>)
    requires capture.Snapshot() == Captured(before, codec, introduces)
    modifies capture
    ensures capture.Snapshot() == Captured(before + records, codec, introduces)
  {
    ghost var done := before;
    assert before == before + records[..0];
    for i := 0 to |records|
      invariant done == before + records[..i]
      invariant capture.Snapshot() == Captured(done, codec, introduces)
    {
      CaptureRecord(capture, records[i], codec, introduces, done);
      done := done + [records[i]];
      OneMoreRecord(before, records, i);
    }
    assert done == before + records;
  }

  lemma OneMoreRecord(before: seq<string>, records: seq<string>, i: nat)
    requires i < |records|
    ensures before + records[..i] + [records[i]] == before + records[..i + 1]
  {
  }

  // ---- The collector ----------------------------------------------------------------------------------

  /** Nothing read so far was a failure, and all of it is captured. */
  ghost predicate Collecting(c: Classifier, chunks: seq<Chunk>, n: nat, text: string, s: Reconstruction.Captured,
                             codec: SseRecord.Codec, introduces: Value -> bool)
  {
    && n <= ReadsBeforeBreak(chunks)
    && text == Frame(Wire(chunks[..n])).residue
    && NothingHidden(c, Whole(chunks[..n]))
    && s == Captured(Whole(chunks[..n]), codec, introduces)
  }

  lemma NextRead(chunks: seq<Chunk>, n: nat)
    requires n < |chunks| && chunks[n].Received?
    ensures var before := Frame(Wire(chunks[..n]));
      var next := Frame(before.residue + Normalize(chunks[n].text));
      Frame(Wire(chunks[..n + 1])) == Framing(before.records + next.records, next.residue)
  {
    WireGrows(chunks, n);
    FrameConcat(Wire(chunks[..n]), Normalize(chunks[n].text));
  }

  /** A failure among the records read decides the answer, whatever comes later. */
  lemma FailureDecides(c: Classifier, chunks: seq<Chunk>, n: nat, codec: SseRecord.Codec, introduces: Value -> bool)
    requires n <= ReadsBeforeBreak(chunks) && !NothingHidden(c, Whole(chunks[..n]))
    ensures var records := Whole(chunks[..n]);
      var h := HiddenIndex(c, records);
      c.hidden(records[h]).Some? && Answer(c, chunks, codec, introduces) == Failed(c.hidden(records[h]).value)
  {
    var m := ReadsBeforeBreak(chunks);
    var records := Whole(chunks[..n]);
    var framed := Frame(Wire(chunks[..m]));
    var all := framed.records + if m == |chunks| then LastRecord(framed.residue) else [];
    PrefixFrames(chunks[..m], n);
    assert chunks[..m][..n] == chunks[..n];
    var h := HiddenIndex(c, records);
    HiddenIndexMeans(c, records);
    assert forall i :: 0 <= i < |records| ==> all[i] == records[i];
    HiddenIs(c, all, h);
  }

  /** Reads one more chunk; a failure among its records ends the collection. */
  method CollectNext(buffer: SseBuffer, capture: Reconstruction.StreamCapture, chunks: seq<Chunk>, c: Classifier,
                     codec: SseRecord.Codec, introduces: Value -> bool, n: nat) returns (failure: Option<FailureKind>)
    requires n < |chunks| && chunks[n].Received?
    requires Collecting(c, chunks, n, buffer.text, capture.Snapshot(), codec, introduces)
    modifies buffer, capture
    ensures failure.Some? ==> Answer(c, chunks, codec, introduces) == Failed(failure.value)
    ensures failure.None? ==> Collecting(c, chunks, n + 1, buffer.text, capture.Snapshot(), codec, introduces)
  {
    NextRead(chunks, n);
    ReadsOn(chunks, n);
    ghost var before, after := Whole(chunks[..n]), Whole(chunks[..n + 1]);
    HiddenContinues(c, before, Frame(buffer.text + Normalize(chunks[n].text)).records);
    var records, hidden := RelayChunk(buffer, chunks[n].text, c);
    if hidden {
      FailureDecides(c, chunks, n + 1, codec, introduces);
      LastIsHidden(c, before, after, records);
      return c.hidden(records[|records| - 1]);
    }
    CaptureRecords(capture, records, codec, introduces, before);
    failure := None;
  }

  /** The stream is over: a last record without its blank line still counts. */
  method CollectLast(text: string, capture: Reconstruction.StreamCapture, c: Classifier, codec: SseRecord.Codec,
                     introduces: Value -> bool, ghost whole: seq<string>) returns (failure: Option<FailureKind>)
    requires NothingHidden(c, whole) && capture.Snapshot() == Captured(whole, codec, introduces)
    modifies capture
    ensures var all := whole + LastRecord(text);
      match failure
      case Some(kind) => HiddenIndex(c, all) == |whole| < |all| && c.hidden(all[|whole|]) == failure
      case None => NothingHidden(c, all) && capture.Snapshot() == Captured(all, codec, introduces)
  {
    failure := None;
    if Text.IsBlank(text) {
      assert whole + [] == whole;
    } else {
      var record := Text.Trim(text);
      TailDecides(c, whole, record);
      if c.hidden(record).Some? {
        return c.hidden(record);
      }
      CaptureRecord(capture, record, codec, introduces, whole);
    }
  }

  method CollectResponse(chunks: seq<Chunk>, c: Classifier, codec: SseRecord.Codec, introduces: Value -> bool)
      returns (r: Result)
    ensures r == Answer(c, chunks, codec, introduces)
  {
    var buffer := new SseBuffer("");
    var capture := new Reconstruction.StreamCapture();
    var n := 0;
    NothingCollected(c, chunks, codec, introduces);
    while n < |chunks|
      invariant n <= |chunks| && Collecting(c, chunks, n, buffer.text, capture.Snapshot(), codec, introduces)
    {
      if chunks[n].Broken? {
        BreakDecides(c, chunks, n, codec, introduces);
        return Failed(Generic);
      }
      var failure := CollectNext(buffer, capture, chunks, c, codec, introduces, n);
      if failure.Some? {
        return Failed(failure.value);
      }
      n := n + 1;
    }
    r := CollectEnd(buffer.text, capture, chunks, c, codec, introduces);
  }

  /** The stream is over without a break: the last record, and the response made up. */
  method CollectEnd(text: string, capture: Reconstruction.StreamCapture, ghost chunks: seq<Chunk>, c: Classifier,
                    codec: SseRecord.Codec, introduces: Value -> bool) returns (r: Result)
    requires Collecting(c, chunks, |chunks|, text, capture.Snapshot(), codec, introduces)
    modifies capture
    ensures r == Answer(c, chunks, codec, introduces)
  {
    assert chunks[..|chunks|] == chunks;
    ghost var whole, last := Whole(chunks), LastRecord(text);
    var failure := CollectLast(text, capture, c, codec, introduces, whole);
    EndDecides(c, chunks, codec, introduces, whole + last);
    if failure.Some? {
      return Failed(failure.value);
    }
    var response := capture.Finish();
    r := OrFailed(response);
  }

  lemma NothingCollected(c: Classifier, chunks: seq<Chunk>, codec: SseRecord.Codec, introduces: Value -> bool)
    ensures Collecting(c, chunks, 0, "", Reconstruction.NOTHING, codec, introduces)
  {
    assert chunks[..0] == [];
  }

  /** At the end of an unbroken stream the answer is told from all of its records. */
  lemma EndDecides(c: Classifier, chunks: seq<Chunk>, codec: SseRecord.Codec, introduces: Value -> bool,
                   all: seq<string>)
    requires |chunks| <= ReadsBeforeBreak(chunks)
    requires all == Whole(chunks) + LastRecord(Frame(Wire(chunks)).residue)
    ensures Answer(c, chunks, codec, introduces) ==
      var h := HiddenIndex(c, all);
      if h < |all| && c.hidden(all[h]).Some? then Failed(c.hidden(all[h]).value)
      else OrFailed(Reconstruction.Finalize(Captured(all, codec, introduces)))
  {
    assert chunks[..|chunks|] == chunks;
  }

  lemma ReadsOn(chunks: seq<Chunk>, n: nat)
    requires n < |chunks| && n <= ReadsBeforeBreak(chunks) && chunks[n].Received?
    ensures n + 1 <= ReadsBeforeBreak(chunks)
  {
  }

  lemma BreakDecides(c: Classifier, chunks: seq<Chunk>, n: nat, codec: SseRecord.Codec, introduces: Value -> bool)
    requires n < |chunks| && n <= ReadsBeforeBreak(chunks) && chunks[n].Broken? && NothingHidden(c, Whole(chunks[..n]))
    ensures Answer(c, chunks, codec, introduces) == Failed(Generic)
  {
    assert n == ReadsBeforeBreak(chunks);
    assert Whole(chunks[..n]) + [] == Whole(chunks[..n]);
  }

  /** The records up to the first failure end with it. */
  lemma LastIsHidden(c: Classifier, before: seq<string>, all: seq<string>, records: seq<string>)
    requires before + records == UpToHidden(c, all) && NothingHidden(c, before) && !NothingHidden(c, all)
    requires |before| <= |all| && all[..|before|] == before
    ensures records != [] && records[|records| - 1] == all[HiddenIndex(c, all)]
  {
    HiddenIndexMeans(c, before);
    HiddenIndexMeans(c, all);
    assert forall i :: 0 <= i < |before| ==> all[i] == before[i];
    assert (before + records)[|before + records| - 1] == all[HiddenIndex(c, all)];
  }

  lemma TailDecides(c: Classifier, whole: seq<string>, record: string)
    requires NothingHidden(c, whole)
    ensures HiddenIndex(c, whole + [record]) == if c.hidden(record).Some? then |whole| else |whole| + 1
  {
    HiddenIndexMeans(c, whole);
    HiddenIs(c, whole + [record], if c.hidden(record).Some? then |whole| else |whole| + 1);
  }

  // ---- Streaming and collecting agree -----------------------------------------------------------------

  /** All records of a stream, the last one counting even without its blank line. */
  ghost function AllRecords(chunks: seq<Chunk>): seq<string> {
    Whole(chunks) + LastRecord(Frame(Wire(chunks)).residue)
  }

  /** The records of a text, however it comes. */
  function RecordsOf(text: string): seq<string> {
    var framed := Frame(Normalize(text));
    framed.records + LastRecord(framed.residue)
  }

  /** Of a stream in which nothing breaks or is hidden, the collector keeps exactly the events. */
  lemma HealthyAnswer(chunks: seq<Chunk>, c: Classifier, codec: SseRecord.Codec, introduces: Value -> bool)
    requires AllReceived(chunks, |chunks|) && NothingHidden(c, AllRecords(chunks))
    ensures Answer(c, chunks, codec, introduces)
         == OrFailed(ChatEndToEnd.Collected(ChatPipeline.Decoded(AllRecords(chunks), codec), introduces))
    ensures Splits(Texts(chunks)) == 0 ==> AllRecords(chunks) == RecordsOf(Flatten(Texts(chunks)))
  {
    NeverBreaks(chunks);
    EndDecides(c, chunks, codec, introduces, AllRecords(chunks));
    if Splits(Texts(chunks)) == 0 {
      ChunkingIsInvisibleExactly(Texts(chunks));
    }
  }

  lemma NeverBreaks(chunks: seq<Chunk>)
    requires AllReceived(chunks, |chunks|)
    ensures ReadsBeforeBreak(chunks) == |chunks|
  {
  }

  /** A failure hidden in the last record is only seen by the collector. */
  lemma TailFails(chunks: seq<Chunk>, c: Classifier, codec: SseRecord.Codec, introduces: Value -> bool)
    requires Healthy(c, chunks) && !NothingHidden(c, LastRecord(Frame(Wire(chunks)).residue))
    ensures Answer(c, chunks, codec, introduces).Failed?
  {
    NeverBreaks(chunks);
    EndDecides(c, chunks, codec, introduces, AllRecords(chunks));
    var last := LastRecord(Frame(Wire(chunks)).residue);
    HiddenIndexMeans(c, last);
    TailDecides(c, Whole(chunks), last[0]);
  }

  lemma TailIsClean(chunks: seq<Chunk>, c: Classifier)
    requires Healthy(c, chunks) && NothingHidden(c, LastRecord(Frame(Wire(chunks)).residue))
    ensures NothingHidden(c, AllRecords(chunks))
  {
    var last := LastRecord(Frame(Wire(chunks)).residue);
    if last == [] {
      assert Whole(chunks) + [] == Whole(chunks);
    } else {
      HiddenIndexMeans(c, last);
      TailDecides(c, Whole(chunks), last[0]);
    }
  }

  /** The client of the streamed answer has what the collected answer translates to. */
  ghost predicate Agrees(out: seq<ChatAdapter.Chunk>, r: Result, fallback: string, w: ChatCompletion.Wordlist) {
    r.Response?
    && ChatRefinement.Matches(ChatRefinement.ReadAll(ChatRefinement.BLANK, out),
                              ChatCompletion.ToCompletion(r.value, fallback, w))
  }

  /** Nothing is lost with the completed event: all text is already heard, and a plain stop is the right end. */
  ghost predicate NothingLeftToSay(es: seq<ChatAdapter.Event>, done: ChatAdapter.Event, w: ChatCompletion.Wordlist) {
    var root := Root(done.value);
    && ChatRefinement.Heard(es) == ChatCompletion.ResponseText(root)
    && ChatCompletion.FinishOf(root, ChatCompletion.ResponseCalls(root) != [], w) == ChatCompletion.Stop
  }

  /** The last record hides no failure, and is either no event or a completion with nothing left to say. */
  ghost predicate TailIsHarmless(c: Classifier, tail: seq<string>, codec: SseRecord.Codec, es: seq<ChatAdapter.Event>,
                                 done: ChatAdapter.Event, w: ChatCompletion.Wordlist)
  {
    NothingHidden(c, tail) && (ChatPipeline.Decoded(tail, codec) == [] || NothingLeftToSay(es, done, w))
  }

  /** What was served of a healthy stream, with nothing left behind in the preflight buffer. */
  ghost predicate ServedInFull(r: ChatPipeline.Served, guarded: bool, c: Classifier, chunks: seq<Chunk>, id: string,
                               model: string, codec: SseRecord.Codec, w: ChatCompletion.Wordlist)
  {
    && r.Streaming? && ChatPipeline.DeliveredAs(guarded, c, chunks, r.delivery)
    && r.out == ChatPipeline.Sent(id, model, r.delivery.handled, r.delivery.ending, codec, w)
    && ChatPipeline.InFull(guarded, c, chunks, r.delivery.consumed)
  }

  /**
   * The same upstream stream served both ways: as streamed, and collected. If its events, those of an
   * unterminated last record included, are a well formed stream, the two clients have the same exactly
   * if that last record is harmless: the collector reads it, and streaming drops it.
   */
  lemma BothWaysAgreeExactly(
      chunks: seq<Chunk>, c: Classifier, guarded: bool, id: string, model: string, codec: SseRecord.Codec,
      introduces: Value -> bool, w: ChatCompletion.Wordlist, r: ChatPipeline.Served, es: seq<ChatAdapter.Event>,
      done: ChatAdapter.Event, ids: ToolMoves.Ids, fallback: string)
    requires Healthy(c, chunks) && ServedInFull(r, guarded, c, chunks, id, model, codec, w)
    requires ChatPipeline.Decoded(AllRecords(chunks), codec) == es + [done] && ChatEndToEnd.WellFormed(es, done, ids)
    requires Reconstruction.IsCompleted(done.value) && ChatEndToEnd.NothingBeyond(es, done, introduces)
    ensures Agrees(r.out, Answer(c, chunks, codec, introduces), fallback, w)
       <==> TailIsHarmless(c, LastRecord(Frame(Wire(chunks)).residue), codec, es, done, w)
  {
    var tail := LastRecord(Frame(Wire(chunks)).residue);
    if !NothingHidden(c, tail) {
      TailFails(chunks, c, codec, introduces);
    } else {
      TailIsClean(chunks, c);
      HealthyAnswer(chunks, c, codec, introduces);
      ChatEndToEnd.CollectedIsOwn(es, done, introduces, fallback, w);
      ChatPipeline.HandledDecodes(guarded, c, chunks, r.delivery, codec);
      ChatPipeline.DecodedConcat(Whole(chunks), tail, codec);
      ServedReads(id, model, r.delivery.handled, tail, codec, w, es, done, ids, fallback);
    }
  }

  /** What the streaming client makes of the records before the last, measured by the completed event. */
  lemma ServedReads(id: string, model: string, handled: seq<string>, tail: seq<string>, codec: SseRecord.Codec,
                    w: ChatCompletion.Wordlist, es: seq<ChatAdapter.Event>, done: ChatAdapter.Event,
                    ids: ToolMoves.Ids, fallback: string)
    requires |tail| <= 1
    requires ChatPipeline.Decoded(handled, codec) + ChatPipeline.Decoded(tail, codec) == es + [done]
    requires ChatEndToEnd.WellFormed(es, done, ids)
    ensures ChatRefinement.Matches(
              ChatRefinement.ReadAll(ChatRefinement.BLANK,
                                     ChatPipeline.Sent(id, model, handled, StreamRelay.Ended, codec, w)),
              ChatCompletion.ToCompletion(Root(done.value), fallback, w))
       <==> ChatPipeline.Decoded(tail, codec) == [] || NothingLeftToSay(es, done, w)
  {
    var before, last := ChatPipeline.Decoded(handled, codec), ChatPipeline.Decoded(tail, codec);
    AtMostOne(tail, codec);
    if last == [] {
      assert before + [] == before;
      ChatPipeline.SentMatches(id, model, handled, codec, w, es, done, ids, fallback);
    } else {
      LastIsDone(before, last, es, done);
      ChatPipeline.CutOffReads(id, model, handled, codec, w);
      ChatEndToEnd.CallsArrive(es, done, ids);
    }
  }

  lemma AtMostOne(tail: seq<string>, codec: SseRecord.Codec)
    requires |tail| <= 1
    ensures |ChatPipeline.Decoded(tail, codec)| <= 1
  {
    if tail != [] {
      assert tail[..0] == [];
    }
  }

  lemma LastIsDone(before: seq<ChatAdapter.Event>, last: seq<ChatAdapter.Event>, es: seq<ChatAdapter.Event>,
                   done: ChatAdapter.Event)
    requires before + last == es + [done] && |last| == 1
    ensures before == es && last == [done]
  {
    assert (before + last)[..|before|] == before && (es + [done])[..|es|] == es;
    assert (before + last)[|before|] == last[0] && (es + [done])[|es|] == done;
  }
}
