/** Well formed streams: streaming them, or collecting them and translating once, tells the client the same. */
module ChatEndToEnd {
  import opened Prelude
  import opened Json
  import opened ChatCompletion
  import opened ChatAdapter
  import opened ToolMoves
  import opened ChatRefinement
  import Reconstruction

  // ---- Where the calls stand in the output --------------------------------------------------------------

  /** The output indices of the function calls, in order. */
  function CallPositions(items: seq<Value>): (ps: seq<int>)
    ensures forall p :: p in ps ==> 0 <= p < |items| && IsCall(items[p])
  {
    if items == [] then []
    else
      var front := items[..|items| - 1];
      CallPositions(front) + if IsCall(items[|front|]) then [|front|] else []
  }

  lemma {:induction false} CallsStandAt(items: seq<Value>)
    ensures |Filter(IsCall, items)| == |CallPositions(items)|
    ensures forall k :: 0 <= k < |CallPositions(items)| ==>
      CallPositions(items)[k] in CallPositions(items) && Filter(IsCall, items)[k] == items[CallPositions(items)[k]]
  {
    if items != [] {
      var front, last := items[..|items| - 1], items[|items| - 1];
      CallsStandAt(front);
      FilterConcat(IsCall, front, [last]);
      assert items == front + [last] && [last][1..] == [];
      assert Filter(IsCall, [last]) == if IsCall(last) then [last] else [];
    }
  }

  /** The events about one call say what its item says: id and name at once, arguments growing to the final ones. */
  ghost predicate CallTold(ms: seq<Move>, item: Value) {
    && ms != []
    && ms[0].tag.callId.Some? && ms[0].tag.callId == StringAt(item, "call_id")
    && ms[0].tag.name.Some? && ms[0].tag.name == StringAt(item, "name")
    && SpeaksPlainly(ms) && Spoken(ms).stored == StringAt(item, "arguments").UnwrapOr("")
  }

  /**
   * A stream that tells its completed response: every call is introduced in output order under its
   * own index and id, and the text heard, if any, is the response's.
   */
  ghost predicate WellFormed(es: seq<Event>, done: Event, ids: Ids) {
    var items, ms := ItemsAt(Root(done.value), "output"), Moves(es);
    && Open(es) && done.kind.Completed?
    && Labelled(ms, ids)
    && Mentions(ms) == CallPositions(items)
    && (forall p :: p in CallPositions(items) ==> CallTold(Concerning(ms, p), items[p]))
    && Heard(es) in {"", ResponseText(Root(done.value))}
  }

  lemma CallsArrive(es: seq<Event>, done: Event, ids: Ids)
    requires WellFormed(es, done, ids)
    ensures EnterAll(Moves(es)).client == ResponseCalls(Root(done.value))
  {
    var items, ms := ItemsAt(Root(done.value), "output"), Moves(es);
    var ps, g := CallPositions(items), EnterAll(Moves(es));
    CallsAccounted(ms, ids);
    CallsStandAt(items);
    assert |g.client| == |ps| == |ResponseCalls(Root(done.value))|;
    forall k | 0 <= k < |ps|
      ensures g.client[k] == ResponseCalls(Root(done.value))[k]
    {
      assert ps[k] in ps;
      assert AccountedAt(g, ms, Mentions(ms), k);
      assert CallTold(Concerning(ms, ps[k]), items[ps[k]]);
      PlainSpeechArrives(Concerning(ms, ps[k]));
      assert g.client[k] == CallFrom(Concerning(ms, ps[k]), k) == CallOf(items[ps[k]]);
    }
  }

  /** Streaming refines the translation of the finished response. */
  lemma StreamingRefinesUnary(id: string, model: string, es: seq<Event>, done: Event, ids: Ids, fallback: string,
                              w: Wordlist)
    requires WellFormed(es, done, ids)
    ensures Matches(Streamed(id, model, es, done, w), ToCompletion(Root(done.value), fallback, w))
  {
    CallsArrive(es, done, ids);
    StreamingMatchesExactly(id, model, es, done, fallback, w);
  }

  // ---- Collecting first and translating once -------------------------------------------------------------

  /** The stream as the collector sees it; `introduces` tells which documents introduce an item by their own type. */
  function PiecesOf(es: seq<Event>, introduces: Value -> bool): seq<Reconstruction.Piece> {
    seq(|es|, i requires 0 <= i < |es| => Reconstruction.Piece(es[i].value, introduces(es[i].value)))
  }

  ghost function Collected(es: seq<Event>, introduces: Value -> bool): Option<Value> {
    Reconstruction.Finalize(Reconstruction.CaptureAll(Reconstruction.NOTHING, PiecesOf(es, introduces)))
  }

  /** Apart from its id the response is told the same. */
  ghost predicate SameTelling(c: Completion, c': Completion) {
    c.content == c'.content && c.toolCalls == c'.toolCalls && c.finish == c'.finish && c.model == c'.model
  }

  lemma SameMembersSameTelling(own: seq<Member>, r: seq<Member>, fallback: string, w: Wordlist)
    requires Reconstruction.OtherwiseSame(own, r) && ItemsAt(Object(r), "output") == ItemsAt(Object(own), "output")
    ensures SameTelling(ToCompletion(Object(r), fallback, w), ToCompletion(Object(own), fallback, w))
  {
    var v, v' := Object(own), Object(r);
    forall key | key in {"error", "response", "incomplete_details", "status", "truncation", "model"}
      ensures Get(v', key) == Get(v, key)
    {
      assert key != "id" && key != "output";
    }
    SameFinish(v, v', ResponseCalls(v) != [], w);
  }

  lemma SameFinish(v: Value, v': Value, sawTool: bool, w: Wordlist)
    requires forall key :: key in {"error", "response", "incomplete_details", "status", "truncation"} ==>
      Get(v', key) == Get(v, key)
    ensures FinishOf(v', sawTool, w) == FinishOf(v, sawTool, w)
  {
    assert Get(v', "response") == Get(v, "response") && Get(v', "error") == Get(v, "error");
    assert Get(v', "incomplete_details") == Get(v, "incomplete_details");
    assert Get(v', "status") == Get(v, "status") && Get(v', "truncation") == Get(v, "truncation");
    assert ErrorCode(v') == ErrorCode(v) && IncompleteReason(v') == IncompleteReason(v);
    assert StringAt(Root(v'), "status") == StringAt(Root(v), "status");
    assert StringAt(Root(v'), "truncation") == StringAt(Root(v), "truncation");
  }

  /** No streamed item lies beyond the output of the completed response. */
  ghost predicate NothingBeyond(es: seq<Event>, done: Event, introduces: Value -> bool) {
    forall i: nat :: i >= |Reconstruction.OutputItems(done.value)| ==>
      Reconstruction.LastWrite(PiecesOf(es + [done], introduces), i).None?
  }

  lemma CollectedIsOwn(es: seq<Event>, done: Event, introduces: Value -> bool, fallback: string, w: Wordlist)
    requires Reconstruction.IsCompleted(done.value) && NothingBeyond(es, done, introduces)
    ensures var c := Collected(es + [done], introduces);
      c.Some? && SameTelling(ToCompletion(c.value, fallback, w), ToCompletion(Root(done.value), fallback, w))
  {
    var before, last := PiecesOf(es, introduces), Reconstruction.Piece(done.value, introduces(done.value));
    assert PiecesOf(es + [done], introduces) == before + [last];
    Reconstruction.CompletedResponse(before, last);
    Reconstruction.OutputIsOwnExactly(before, last);
    var c := Collected(es + [done], introduces);
    SameMembersSameTelling(Root(done.value).members, c.value.members, fallback, w);
  }

  /**
   * The two ways a chat request is served agree: the chunks of a well formed stream fold to what the
   * collected response translates to.
   */
  lemma StreamingRefinesCollecting(
      id: string, model: string, es: seq<Event>, done: Event, ids: Ids,
      introduces: Value -> bool, fallback: string, w: Wordlist)
    requires WellFormed(es, done, ids)
    requires Reconstruction.IsCompleted(done.value) && NothingBeyond(es, done, introduces)
    ensures var c := Collected(es + [done], introduces);
      c.Some? && Matches(Streamed(id, model, es, done, w), ToCompletion(c.value, fallback, w))
  {
    StreamingRefinesUnary(id, model, es, done, ids, fallback, w);
    CollectedIsOwn(es, done, introduces, fallback, w);
  }

  // ---- Under whose name the chunks are sent --------------------------------------------------------------

  ghost predicate SignedBy(chunks: seq<Chunk>, id: string, model: string) {
    forall i :: 0 <= i < |chunks| && chunks[i].Chunk? ==> chunks[i].id == id && chunks[i].model == model
  }

  ghost predicate KeepsName(a: Adapter, r: Translation) {
    r.adapter.chatId == a.chatId && r.adapter.model == a.model && SignedBy(r.chunks, a.chatId, a.model)
  }

  lemma ItemKeepsName(a: Adapter, v: Value)
    ensures KeepsName(a, OnItemAdded(a, v)) && KeepsName(a, OnItemDone(a, v))
  {
  }

  lemma EndKeepsName(a: Adapter, v: Value, w: Wordlist)
    ensures KeepsName(a, OnCompleted(a, v, w)) && KeepsName(a, OnFailed(a, v, w))
  {
    SpeechKeepsName(a, ResponseText(Root(v)));
    TerminalKeepsName(a, ContentFilter);
    TerminalKeepsName(a, LengthLimit);
  }

  lemma SpeechKeepsName(a: Adapter, text: string)
    ensures KeepsName(a, Speak(a, text))
  {
  }

  lemma TerminalKeepsName(a: Adapter, reason: FinishReason)
    ensures KeepsName(a, OnTerminal(a, reason))
  {
  }

  lemma ArgumentsKeepName(a: Adapter, l: Label, text: string, final: bool)
    ensures KeepsName(a, OnTool(a, l, text, final))
  {
  }

  /** Only the event that announces the response changes the name the adapter signs with. */
  lemma OthersKeepName(a: Adapter, e: Event, w: Wordlist)
    requires !e.kind.Created?
    ensures KeepsName(a, Translate(a, e, w))
  {
    match e.kind {
      case ItemAdded => ItemKeepsName(a, e.value);
      case ItemDone => ItemKeepsName(a, e.value);
      case ArgumentsDelta => ArgumentsKeepName(a, LabelOf(e.value, e.value), ArgumentText(e.value), false);
      case ArgumentsDone => ArgumentsKeepName(a, LabelOf(e.value, e.value), ArgumentText(e.value), true);
      case Completed => EndKeepsName(a, e.value, w);
      case Failed => EndKeepsName(a, e.value, w);
      case _ =>
    }
  }

  lemma {:induction false} RestKeepsName(a: Adapter, es: seq<Event>, w: Wordlist)
    requires forall i :: 0 <= i < |es| ==> !es[i].kind.Created?
    ensures SignedBy(TranslateAll(a, es, w).chunks, a.chatId, a.model)
    decreases |es|
  {
    if es != [] {
      OthersKeepName(a, es[0], w);
      RestKeepsName(Translate(a, es[0], w).adapter, es[1..], w);
    }
  }

  /** The stream opens by announcing the id and model of its response, and does so once. */
  ghost predicate Announced(es: seq<Event>, done: Event) {
    var root := Root(done.value);
    && es != [] && es[0].kind.Created? && Get(es[0].value, "response").Some?
    && StringAt(root, "id").Some? && StringAt(Get(es[0].value, "response").value, "id") == StringAt(root, "id")
    && StringAt(root, "model").Some? && StringAt(Get(es[0].value, "response").value, "model") == StringAt(root, "model")
    && !done.kind.Created? && forall i :: 1 <= i < |es| ==> !es[i].kind.Created?
  }

  /** Every chunk of an announced stream carries the id and model that the translated response has. */
  lemma ChunksAreSigned(id: string, model: string, es: seq<Event>, done: Event, fallback: string, w: Wordlist)
    requires Announced(es, done)
    ensures var completion := ToCompletion(Root(done.value), fallback, w);
      SignedBy(TranslateAll(Fresh(id, model), es + [done], w).chunks, completion.id, completion.model)
  {
    var first := Translate(Fresh(id, model), es[0], w);
    var rest := es[1..] + [done];
    assert (es + [done])[0] == es[0] && (es + [done])[1..] == rest;
    RestKeepsName(first.adapter, rest, w);
  }
}
