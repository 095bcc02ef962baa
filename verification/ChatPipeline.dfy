/** A streamed chat answer from the bytes of the upstream to the chunks of the client. */
module ChatPipeline {
  import opened Prelude
  import opened Json
  import opened ChatCompletion
  import opened ChatAdapter
  import opened ChatRefinement
  import opened ChatEndToEnd
  import ChatInvariants
  import SseFraming
  import SseRecord
  import StreamRelay
  import ToolMoves
  import Upstream

  /** The events among the records. */
  function Decoded(records: seq<string>, codec: SseRecord.Codec): seq<Event> {
    if records == [] then []
    else
      var p := SseRecord.ParsedRecord(records[|records| - 1]);
      Decoded(records[..|records| - 1], codec) + if p.Some? then [SseRecord.EventOf(p.value, codec)] else []
  }

  /** What is sent when the upstream is done: a plain stop if nobody said so, or the failure. */
  function Closing(a: Adapter, ending: StreamRelay.Ending): seq<Chunk> {
    match ending
    case Ended => if a.finished then [] else [Say(a, Finish(Stop)), DoneMark]
    case BrokenOff => [ErrorMark, DoneMark]
    case FailureShown => if a.finished then [] else [ErrorMark, DoneMark]
  }

  method TranslateRecords(adapter: ChatStreamAdapter, records: seq<string>, codec: SseRecord.Codec, w: Wordlist)
      returns (out: seq<Chunk>)
    modifies adapter
    ensures Translation(adapter.Snapshot(), out) == TranslateAll(old(adapter.Snapshot()), Decoded(records, codec), w)
  {
    out := [];
    ghost var start := adapter.Snapshot();
    assert records[..0] == [];
    for i := 0 to |records|
      invariant Translation(adapter.Snapshot(), out) == TranslateAll(start, Decoded(records[..i], codec), w)
    {
      assert records[..i + 1][..i] == records[..i];
      var p := SseRecord.ParseRecord(records[i]);
      if p.Some? {
        var e := SseRecord.EventOf(p.value, codec);
        ChatInvariants.TranslateAllSnoc(start, Decoded(records[..i], codec), e, w);
        var more := adapter.TranslateRecord(e, w);
        out := out + more;
      } else {
        assert Decoded(records[..i], codec) + [] == Decoded(records[..i], codec);
      }
    }
    assert records[..|records|] == records;
  }

  /** The chunks a client is sent for the records handled, and for how the stream ended. */
  function Sent(id: string, model: string, records: seq<string>, ending: StreamRelay.Ending, codec: SseRecord.Codec,
                w: Wordlist): seq<Chunk> {
    var t := TranslateAll(Fresh(id, model), Decoded(records, codec), w);
    t.chunks + Closing(t.adapter, ending)
  }

  datatype Served =
    | NotStarted(kind: Upstream.FailureKind, consumed: nat)
    | Streaming(out: seq<Chunk>, delivery: StreamRelay.Delivery)

  /** The records were handled as the guard, or its absence, promises. */
  ghost predicate DeliveredAs(guarded: bool, c: StreamRelay.Classifier, chunks: seq<StreamRelay.Chunk>,
                              d: StreamRelay.Delivery) {
    && d.Delivered?
    && (if guarded then StreamRelay.Faithful(c, chunks, d) else StreamRelay.Unheld(c, chunks, d))
    && StreamRelay.IsPrefixOf(d.handled, StreamRelay.Whole(chunks))
  }

  /** Nothing that arrived stays behind in the preflight buffer. */
  ghost predicate InFull(guarded: bool, c: StreamRelay.Classifier, chunks: seq<StreamRelay.Chunk>, consumed: nat) {
    var whole := StreamRelay.Whole(chunks);
    guarded ==> consumed < |chunks| || StreamRelay.HeldCount(c, whole) == |whole|
  }

  /** A healthy stream that splits no CRLF and of which nothing stays behind. */
  ghost predicate Unspoilt(guarded: bool, c: StreamRelay.Classifier, chunks: seq<StreamRelay.Chunk>, consumed: nat) {
    && StreamRelay.Healthy(c, chunks) && InFull(guarded, c, chunks, consumed)
    && SseFraming.Splits(StreamRelay.Texts(chunks)) == 0
  }

  /** The events of a text, however it came. */
  function EventsOf(text: string, codec: SseRecord.Codec): seq<Event> {
    Decoded(SseFraming.Frame(SseFraming.Normalize(text)).records, codec)
  }

  /** If the events are a well formed stream, a client that folds `out` has the completion it amounts to. */
  ghost predicate Tells(out: seq<Chunk>, events: seq<Event>, w: Wordlist) {
    forall es: seq<Event>, done: Event, ids: ToolMoves.Ids, fallback: string ::
      events == es + [done] && WellFormed(es, done, ids) ==>
        Matches(ReadAll(BLANK, out), ToCompletion(Root(done.value), fallback, w))
  }

  /**
   * One streamed chat answer; accounts near their quota are watched before anything is passed on.
   * However the text of a healthy stream is chunked, as long as no CRLF is split and nothing stays
   * behind in the preflight buffer, the client ends with the completion that the response translates to.
   */
  method ServeChat(id: string, model: string, chunks: seq<StreamRelay.Chunk>, guarded: bool, c: StreamRelay.Classifier,
                   codec: SseRecord.Codec, w: Wordlist) returns (r: Served)
    ensures r.NotStarted? ==> guarded && r.consumed <= |chunks| && r.kind == StreamRelay.Refusal(c, chunks, r.consumed)
    ensures r.Streaming? ==> DeliveredAs(guarded, c, chunks, r.delivery)
    ensures r.Streaming? ==> r.out == Sent(id, model, r.delivery.handled, r.delivery.ending, codec, w)
    ensures StreamRelay.Healthy(c, chunks) ==> r.Streaming?
    ensures r.Streaming? && Unspoilt(guarded, c, chunks, r.delivery.consumed) ==>
      Tells(r.out, EventsOf(SseFraming.Flatten(StreamRelay.Texts(chunks)), codec), w)
  {
    var d: StreamRelay.Delivery;
    if guarded {
      d := StreamRelay.Deliver(chunks, c);
      if d.NotStarted? {
        return NotStarted(d.kind, d.consumed);
      }
    } else {
      d := StreamRelay.PassThrough(chunks, c);
    }
    var adapter := new ChatStreamAdapter(id, model);
    var out := TranslateRecords(adapter, d.handled, codec, w);
    r := Streaming(out + Closing(adapter.Snapshot(), d.ending), d);
    if Unspoilt(guarded, c, chunks, d.consumed) {
      AnyChunkingTells(id, model, chunks, guarded, c, d, codec, w);
    }
  }

  // ---- What the client is told does not depend on how the bytes came ---------------------------------------

  lemma {:induction false} DecodedConcat(a: seq<string>, b: seq<string>, codec: SseRecord.Codec)
    ensures Decoded(a + b, codec) == Decoded(a, codec) + Decoded(b, codec)
  {
    if b == [] {
      assert a + b == a && Decoded(a, codec) + [] == Decoded(a, codec);
    } else {
      assert (a + b)[..|a + b| - 1] == a + b[..|b| - 1];
      DecodedConcat(a, b[..|b| - 1], codec);
    }
  }

  lemma {:induction false} VisibleDecodesTheSame(records: seq<string>, codec: SseRecord.Codec)
    ensures Decoded(StreamRelay.Visible(records), codec) == Decoded(records, codec)
  {
    if records != [] {
      var front, last := records[..|records| - 1], records[|records| - 1];
      VisibleDecodesTheSame(front, codec);
      assert records[..|front| + 1] == records;
      StreamRelay.VisibleGrows(records, |front|);
      var kept := if StreamRelay.IsVisible(last) then [last] else [];
      DecodedConcat(StreamRelay.Visible(front), kept, codec);
      if !StreamRelay.IsVisible(last) {
        SseRecord.BlankIsNoEvent(last);
      } else {
        assert [last][..0] == [];
      }
    }
  }

  /** Guarded or not, a healthy stream handled in full decodes to the events of its whole framing. */
  lemma HandledDecodes(guarded: bool, c: StreamRelay.Classifier, chunks: seq<StreamRelay.Chunk>,
                       d: StreamRelay.Delivery, codec: SseRecord.Codec)
    requires StreamRelay.Healthy(c, chunks) && DeliveredAs(guarded, c, chunks, d)
    requires InFull(guarded, c, chunks, d.consumed)
    ensures d.ending == StreamRelay.Ended
    ensures Decoded(d.handled, codec) == Decoded(StreamRelay.Whole(chunks), codec)
  {
    if guarded {
      StreamRelay.FaithfulMeans(c, chunks, d);
      var whole := StreamRelay.Whole(chunks);
      var k := StreamRelay.HeldCount(c, whole);
      assert d.handled == StreamRelay.Visible(whole[..k]) + whole[k..];
      VisibleHeadDecodes(whole, k, codec);
    } else {
      StreamRelay.UnheldMeans(c, chunks, d);
    }
  }

  lemma VisibleHeadDecodes(whole: seq<string>, k: nat, codec: SseRecord.Codec)
    requires k <= |whole|
    ensures Decoded(StreamRelay.Visible(whole[..k]) + whole[k..], codec) == Decoded(whole, codec)
  {
    var head, tail := whole[..k], whole[k..];
    assert whole == head + tail;
    HeadDecodes(head, tail, codec);
  }

  lemma HeadDecodes(head: seq<string>, tail: seq<string>, codec: SseRecord.Codec)
    ensures Decoded(StreamRelay.Visible(head) + tail, codec) == Decoded(head + tail, codec)
  {
    VisibleDecodesTheSame(head, codec);
    DecodedConcat(StreamRelay.Visible(head), tail, codec);
    DecodedConcat(head, tail, codec);
  }

  /** What is sent for a healthy stream handled in full does not depend on how its text was chunked. */
  lemma AnyChunkingTells(id: string, model: string, chunks: seq<StreamRelay.Chunk>, guarded: bool,
                         c: StreamRelay.Classifier, d: StreamRelay.Delivery, codec: SseRecord.Codec, w: Wordlist)
    requires DeliveredAs(guarded, c, chunks, d) && Unspoilt(guarded, c, chunks, d.consumed)
    ensures Tells(Sent(id, model, d.handled, d.ending, codec, w),
                  EventsOf(SseFraming.Flatten(StreamRelay.Texts(chunks)), codec), w)
  {
    HandledDecodes(guarded, c, chunks, d, codec);
    SseFraming.ChunkingIsInvisibleExactly(StreamRelay.Texts(chunks));
    forall es: seq<Event>, done: Event, ids: ToolMoves.Ids, fallback: string
      | Decoded(d.handled, codec) == es + [done] && WellFormed(es, done, ids)
      ensures Matches(ReadAll(BLANK, Sent(id, model, d.handled, d.ending, codec, w)),
                      ToCompletion(Root(done.value), fallback, w))
    {
      SentMatches(id, model, d.handled, codec, w, es, done, ids, fallback);
    }
  }

  lemma SentMatches(id: string, model: string, handled: seq<string>, codec: SseRecord.Codec, w: Wordlist,
                    es: seq<Event>, done: Event, ids: ToolMoves.Ids, fallback: string)
    requires Decoded(handled, codec) == es + [done] && WellFormed(es, done, ids)
    ensures Matches(ReadAll(BLANK, Sent(id, model, handled, StreamRelay.Ended, codec, w)),
                    ToCompletion(Root(done.value), fallback, w))
  {
    StreamingRefinesUnary(id, model, es, done, ids, fallback, w);
    NothingAfterDone(id, model, es, done, w);
  }

  // ---- A stream whose completion never arrives -----------------------------------------------------------

  lemma StaysOpen(a: Adapter, e: Event, w: Wordlist)
    requires !a.finished && !IsTerminal(e)
    ensures !Translate(a, e, w).adapter.finished
  {
  }

  lemma {:induction false} OpenNeverFinishes(id: string, model: string, es: seq<Event>, w: Wordlist)
    requires Open(es)
    ensures !TranslateAll(Fresh(id, model), es, w).adapter.finished
  {
    if es != [] {
      var front, e := es[..|es| - 1], es[|es| - 1];
      assert es == front + [e];
      OpenNeverFinishes(id, model, front, w);
      ChatInvariants.TranslateAllSnoc(Fresh(id, model), front, e, w);
      StaysOpen(TranslateAll(Fresh(id, model), front, w).adapter, e, w);
    }
  }

  /** A stream that ends without a terminal event is closed with a plain stop. */
  lemma CutOffReads(id: string, model: string, handled: seq<string>, codec: SseRecord.Codec, w: Wordlist)
    requires Open(Decoded(handled, codec))
    ensures var es := Decoded(handled, codec);
      ReadAll(BLANK, Sent(id, model, handled, StreamRelay.Ended, codec, w))
      == Message(Heard(es), ToolsOf(es), Some(Stop))
  {
    var es := Decoded(handled, codec);
    var t := TranslateAll(Fresh(id, model), es, w);
    OpenStreamStands(id, model, es, w);
    OpenNeverFinishes(id, model, es, w);
    ReadConcat(BLANK, t.chunks, Closing(t.adapter, StreamRelay.Ended));
    EndingReads(t.adapter, ReadAll(BLANK, t.chunks), Stop);
  }

  /** The calls a client has on file. */
  function ToolsOf(es: seq<Event>): map<nat, ToolCall> {
    AsMap(ToolMoves.EnterAll(Moves(es)).client)
  }

  /** A completed stream needs no closing. */
  lemma NothingAfterDone(id: string, model: string, es: seq<Event>, done: Event, w: Wordlist)
    requires done.kind.Completed?
    ensures var t := TranslateAll(Fresh(id, model), es + [done], w);
      t.chunks + Closing(t.adapter, StreamRelay.Ended) == t.chunks
  {
    ChatInvariants.TranslateAllSnoc(Fresh(id, model), es, done, w);
    var t := TranslateAll(Fresh(id, model), es + [done], w);
    assert t.adapter.finished;
    assert t.chunks + [] == t.chunks;
  }
}
