/** Folding the streamed chunks gives the completion that translating the finished response gives. */
module ChatRefinement {
  import opened Prelude
  import opened Json
  import opened ChatCompletion
  import opened ChatAdapter
  import opened ChatInvariants
  import opened ToolMoves

  // ---- The client -----------------------------------------------------------------------------------

  /** A chat message as a client assembles it, its tool calls filed by index. */
  datatype Message = Message(content: string, tools: map<nat, ToolCall>, finish: Option<FinishReason>)

  const BLANK := Message("", map[], None)

  function Read(m: Message, c: Chunk): Message {
    if !c.Chunk? then m
    else
      match c.delta
      case Role => m
      case Content(text) => m.(content := m.content + text)
      case OpenTool(i, id, name, arguments) => m.(tools := m.tools[i := ToolCall(id, name, arguments)])
      case ToolArguments(i, arguments) =>
        var known := if i in m.tools then m.tools[i] else ToolCall("", "", "");
        m.(tools := m.tools[i := known.(arguments := known.arguments + arguments)])
      case Finish(reason) => m.(finish := Some(reason))
  }

  function ReadAll(m: Message, cs: seq<Chunk>): Message {
    if cs == [] then m else Read(ReadAll(m, cs[..|cs| - 1]), cs[|cs| - 1])
  }

  lemma {:induction false} ReadConcat(m: Message, a: seq<Chunk>, b: seq<Chunk>)
    ensures ReadAll(m, a + b) == ReadAll(ReadAll(m, a), b)
  {
    if b == [] {
      assert a + b == a;
    } else {
      assert (a + b)[..|a + b| - 1] == a + b[..|b| - 1];
      ReadConcat(m, a, b[..|b| - 1]);
    }
  }

  lemma ReadOne(m: Message, c: Chunk)
    ensures ReadAll(m, [c]) == Read(m, c)
  {
    assert [c][..0] == [];
    assert ReadAll(m, []) == m;
  }

  lemma ReadRole(m: Message, a: Adapter)
    ensures ReadAll(m, RoleChunks(a)) == m
  {
    if !a.emittedRole {
      ReadOne(m, Say(a, Role));
    }
  }

  // ---- Tool events -------------------------------------------------------------------------------------

  /** What an event has to do with tool calls. */
  function MoveOf(e: Event): Option<Move> {
    var item := Get(e.value, "item");
    match e.kind
    case ItemAdded =>
      if item.Some? && IsCall(item.value) then Some(Move(LabelOf(item.value, e.value), "", false)) else None
    case ArgumentsDelta => Some(Move(LabelOf(e.value, e.value), ArgumentText(e.value), false))
    case ArgumentsDone => Some(Move(LabelOf(e.value, e.value), ArgumentText(e.value), true))
    case ItemDone =>
      if item.Some? && IsCall(item.value)
      then Some(Move(LabelOf(item.value, e.value), StringAt(item.value, "arguments").UnwrapOr(""), true))
      else None
    case _ => None
  }

  function Moves(es: seq<Event>): seq<Move> {
    if es == [] then []
    else
      var m := MoveOf(es[|es| - 1]);
      Moves(es[..|es| - 1]) + if m.Some? then [m.value] else []
  }

  function AsMap(calls: seq<ToolCall>): map<nat, ToolCall> {
    map i: nat | i < |calls| :: calls[i]
  }

  lemma MoveTranslates(a: Adapter, e: Event, w: Wordlist)
    requires AllAnnounced(a) && MoveOf(e).Some?
    ensures var m := MoveOf(e).value; Translate(a, e, w) == OnTool(a, m.tag, m.text, m.final)
  {
    AddedIsTool(a, MoveOf(e).value.tag);
  }

  lemma ToolReads(a: Adapter, g: Ledger, msg: Message, m: Move)
    requires AllAnnounced(a) && Paired(g) && g.tools == a.tools && msg.tools == AsMap(g.client)
    ensures var r := OnTool(a, m.tag, m.text, m.final);
      && r.adapter.tools == Enter(g, m).tools && r.adapter.sawTool && r.adapter.sawText == a.sawText
      && ReadAll(msg, r.chunks) == msg.(tools := AsMap(Enter(g, m).client))
  {
    var i, tools := Located(a.tools, m.tag), Ensured(a.tools, m.tag);
    EnsuredAnnounces(a, m.tag);
    var t := tools[i];
    var emitted := Argue(t.arguments, m.text, m.final).emitted;
    var opening := Opening(a, i, t, "");
    var last := if emitted == "" then [] else [Say(a, ToolArguments(i, emitted))];
    assert OnTool(a, m.tag, m.text, m.final).chunks == RoleChunks(a) + opening + last;
    ReadConcat(msg, RoleChunks(a) + opening, last);
    ReadConcat(msg, RoleChunks(a), opening);
    ReadRole(msg, a);
    OpeningReads(a, g.client, msg, i, t);
    var client := if i < |g.client| then g.client else g.client + [ToolCall(t.callId, t.name, "")];
    var msg1 := msg.(tools := AsMap(client));
    LastReads(a, client, msg1, i, emitted);
  }

  lemma OpeningReads(a: Adapter, client: seq<ToolCall>, msg: Message, i: nat, t: Tool)
    requires i <= |client| && (i < |client| <==> t.announced) && msg.tools == AsMap(client)
    ensures ReadAll(msg, Opening(a, i, t, ""))
         == msg.(tools := AsMap(if i < |client| then client else client + [ToolCall(t.callId, t.name, "")]))
  {
    if !t.announced {
      ReadOne(msg, Opening(a, i, t, "")[0]);
    }
  }

  lemma LastReads(a: Adapter, client: seq<ToolCall>, msg: Message, i: nat, emitted: string)
    requires i < |client| && msg.tools == AsMap(client)
    ensures ReadAll(msg, if emitted == "" then [] else [Say(a, ToolArguments(i, emitted))])
         == msg.(tools := AsMap(client[i := client[i].(arguments := client[i].arguments + emitted)]))
  {
    if emitted == "" {
      assert client[i].arguments + "" == client[i].arguments;
      assert client[i := client[i]] == client;
    } else {
      ReadOne(msg, Say(a, ToolArguments(i, emitted)));
    }
  }

  // ---- Everything said --------------------------------------------------------------------------------------

  function DeltaText(e: Event): string {
    if e.kind.TextDelta? then StringAt(e.value, "delta").UnwrapOr("") else ""
  }

  /** The text of a message that arrives in one piece. */
  function MessageText(e: Event): string {
    var item := Get(e.value, "item");
    if e.kind.ItemDone? && item.Some? && !IsCall(item.value) && IsMessage(item.value) then ContentText(item.value)
    else ""
  }

  /** The two ways an event can bring text. */
  datatype Voice = Voice(delta: string, message: string)

  function VoiceOf(e: Event): Voice {
    Voice(DeltaText(e), MessageText(e))
  }

  function Voices(es: seq<Event>): seq<Voice> {
    seq(|es|, i requires 0 <= i < |es| => VoiceOf(es[i]))
  }

  function Deltas(vs: seq<Voice>): string {
    if vs == [] then "" else vs[0].delta + Deltas(vs[1..])
  }

  /** The first message in one piece, if no delta came before it. */
  function FirstMessage(vs: seq<Voice>): string {
    if vs == [] || vs[0].delta != "" then ""
    else if vs[0].message != "" then vs[0].message
    else FirstMessage(vs[1..])
  }

  /** All deltas, behind the first whole message if that came first. */
  function Heard(es: seq<Event>): string {
    FirstMessage(Voices(es)) + Deltas(Voices(es))
  }

  lemma {:induction false} DeltasSnoc(vs: seq<Voice>, v: Voice)
    ensures Deltas(vs + [v]) == Deltas(vs) + v.delta
  {
    if vs == [] {
      assert vs + [v] == [v] && [v][1..] == [];
    } else {
      assert (vs + [v])[1..] == vs[1..] + [v];
      DeltasSnoc(vs[1..], v);
    }
  }

  lemma {:induction false} FirstMessageSnoc(vs: seq<Voice>, v: Voice)
    ensures FirstMessage(vs + [v]) ==
      if FirstMessage(vs) == "" && Deltas(vs) == "" && v.delta == "" then v.message else FirstMessage(vs)
  {
    if vs == [] {
      assert vs + [v] == [v] && [v][1..] == [];
    } else {
      assert (vs + [v])[1..] == vs[1..] + [v];
      FirstMessageSnoc(vs[1..], v);
    }
  }

  lemma HeardSnoc(es: seq<Event>, e: Event)
    ensures Heard(es + [e]) == if DeltaText(e) != "" then Heard(es) + DeltaText(e)
                               else if Heard(es) == "" then MessageText(e) else Heard(es)
  {
    var vs, v := Voices(es), VoiceOf(e);
    assert Voices(es + [e]) == vs + [v];
    DeltasSnoc(vs, v);
    FirstMessageSnoc(vs, v);
    assert FirstMessage(vs) + (Deltas(vs) + v.delta) == FirstMessage(vs) + Deltas(vs) + v.delta;
    assert v.message + "" == v.message;
  }

  predicate IsTerminal(e: Event) {
    e.kind.Completed? || e.kind.Failed?
  }

  ghost predicate Open(es: seq<Event>) {
    forall i :: 0 <= i < |es| ==> !IsTerminal(es[i])
  }

  /** An event that is not about tools says its text, if any, and leaves the calls alone. */
  lemma SpeechReads(a: Adapter, msg: Message, e: Event, w: Wordlist)
    requires MoveOf(e).None? && !IsTerminal(e)
    ensures var r := Translate(a, e, w);
      var said := if DeltaText(e) != "" then DeltaText(e) else if a.sawText then "" else MessageText(e);
      && r.adapter.tools == a.tools && r.adapter.sawTool == a.sawTool && r.adapter.sawText == (a.sawText || said != "")
      && ReadAll(msg, r.chunks) == msg.(content := msg.content + said)
  {
    var r := Translate(a, e, w);
    var said := if DeltaText(e) != "" then DeltaText(e) else if a.sawText then "" else MessageText(e);
    ReadRole(msg, a);
    assert msg.content + "" == msg.content;
    if e.kind.Created? {
      ReadRole(msg, r.adapter.(emittedRole := a.emittedRole));
      assert r.chunks == RoleChunks(r.adapter.(emittedRole := a.emittedRole));
    } else if said != "" {
      assert r.chunks == RoleChunks(a) + [Say(a, Content(said))];
      ReadConcat(msg, RoleChunks(a), [Say(a, Content(said))]);
      ReadOne(msg, Say(a, Content(said)));
    } else if e.kind.TextDelta? {
      assert r.chunks == RoleChunks(a) + [];
      assert RoleChunks(a) + [] == RoleChunks(a);
    }
  }

  /** Where a stream that has not ended stands: the client has heard it all and filed every call. */
  ghost predicate Standing(a: Adapter, msg: Message, es: seq<Event>) {
    var g := EnterAll(Moves(es));
    && AllAnnounced(a) && a.tools == g.tools
    && (a.sawTool <==> g.tools != []) && (a.sawText <==> Heard(es) != "")
    && msg == Message(Heard(es), AsMap(g.client), None)
  }

  lemma {:induction false} OpenStreamStands(id: string, model: string, es: seq<Event>, w: Wordlist)
    requires Open(es)
    ensures var r := TranslateAll(Fresh(id, model), es, w); Standing(r.adapter, ReadAll(BLANK, r.chunks), es)
  {
    if es == [] {
      assert AsMap([]) == map[];
    } else {
      var front, e := es[..|es| - 1], es[|es| - 1];
      assert es == front + [e];
      OpenStreamStands(id, model, front, w);
      var r := TranslateAll(Fresh(id, model), front, w);
      TranslateAllSnoc(Fresh(id, model), front, e, w);
      ReadConcat(BLANK, r.chunks, Translate(r.adapter, e, w).chunks);
      NextStands(r.adapter, ReadAll(BLANK, r.chunks), front, e, w);
    }
  }

  lemma NextStands(a: Adapter, msg: Message, es: seq<Event>, e: Event, w: Wordlist)
    requires Standing(a, msg, es) && !IsTerminal(e)
    ensures var next := Translate(a, e, w); Standing(next.adapter, ReadAll(msg, next.chunks), es + [e])
  {
    TranslateScans(a, e, w);
    MovesSnoc(es, e);
    var next := Translate(a, e, w);
    if MoveOf(e).Some? {
      MoveStands(a, msg, es, e, w);
      StandsAfterMove(next.adapter, ReadAll(msg, next.chunks), es, e);
    } else {
      SpeechReads(a, msg, e, w);
      SpeechHeard(a, es, e);
      StandsAfterSpeech(next.adapter, ReadAll(msg, next.chunks), es, e);
    }
  }

  lemma StandsAfterMove(a: Adapter, msg: Message, es: seq<Event>, e: Event)
    requires AllAnnounced(a) && MoveOf(e).Some? && Moves(es + [e]) == Moves(es) + [MoveOf(e).value]
    requires var g := EnterAll(Moves(es) + [MoveOf(e).value]);
      a.tools == g.tools && msg == Message(Heard(es + [e]), AsMap(g.client), None)
    requires a.sawTool && (a.sawText <==> Heard(es + [e]) != "")
    ensures Standing(a, msg, es + [e])
  {
    EnterAllSnoc(Moves(es), MoveOf(e).value);
    assert EnterAll(Moves(es + [e])).tools != [];
  }

  lemma StandsAfterSpeech(a: Adapter, msg: Message, es: seq<Event>, e: Event)
    requires AllAnnounced(a) && Moves(es + [e]) == Moves(es) + []
    requires var g := EnterAll(Moves(es)); a.tools == g.tools && msg == Message(Heard(es + [e]), AsMap(g.client), None)
    requires (a.sawTool <==> a.tools != []) && (a.sawText <==> Heard(es + [e]) != "")
    ensures Standing(a, msg, es + [e])
  {
    assert Moves(es) + [] == Moves(es);
  }

  lemma MovesSnoc(es: seq<Event>, e: Event)
    ensures Moves(es + [e]) == Moves(es) + if MoveOf(e).Some? then [MoveOf(e).value] else []
  {
    assert (es + [e])[..|es|] == es;
  }

  lemma MoveStands(a: Adapter, msg: Message, es: seq<Event>, e: Event, w: Wordlist)
    requires AllAnnounced(a) && MoveOf(e).Some? && a.tools == EnterAll(Moves(es)).tools
    requires msg.tools == AsMap(EnterAll(Moves(es)).client)
    ensures var r, g' := Translate(a, e, w), EnterAll(Moves(es) + [MoveOf(e).value]);
      && r.adapter.tools == g'.tools && r.adapter.sawTool && r.adapter.sawText == a.sawText
      && ReadAll(msg, r.chunks) == msg.(tools := AsMap(g'.client))
      && Heard(es + [e]) == Heard(es)
  {
    MoveFiles(a, msg, es, e, w);
    MoveIsSilent(es, e);
  }

  lemma MoveFiles(a: Adapter, msg: Message, es: seq<Event>, e: Event, w: Wordlist)
    requires AllAnnounced(a) && MoveOf(e).Some? && a.tools == EnterAll(Moves(es)).tools
    requires msg.tools == AsMap(EnterAll(Moves(es)).client)
    ensures var r, g' := Translate(a, e, w), EnterAll(Moves(es) + [MoveOf(e).value]);
      && r.adapter.tools == g'.tools && r.adapter.sawTool && r.adapter.sawText == a.sawText
      && ReadAll(msg, r.chunks) == msg.(tools := AsMap(g'.client))
  {
    var m := MoveOf(e).value;
    MoveTranslates(a, e, w);
    ToolReads(a, EnterAll(Moves(es)), msg, m);
    EnterAllSnoc(Moves(es), m);
  }

  lemma MoveIsSilent(es: seq<Event>, e: Event)
    requires MoveOf(e).Some?
    ensures Heard(es + [e]) == Heard(es)
  {
    HeardSnoc(es, e);
    assert DeltaText(e) == "" && MessageText(e) == "";
  }

  lemma SpeechHeard(a: Adapter, es: seq<Event>, e: Event)
    requires a.sawText <==> Heard(es) != ""
    ensures var said := if DeltaText(e) != "" then DeltaText(e) else if a.sawText then "" else MessageText(e);
      Heard(es + [e]) == Heard(es) + said
  {
    HeardSnoc(es, e);
    assert Heard(es) + "" == Heard(es) && "" + MessageText(e) == MessageText(e);
  }

  // ---- Tool calls of any stream -----------------------------------------------------------------------------

  /** The adapter's calls are the ledger's, and so are the client's. */
  ghost predicate Filing(a: Adapter, msg: Message, es: seq<Event>) {
    var g := EnterAll(Moves(es));
    AllAnnounced(a) && a.tools == g.tools && msg.tools == AsMap(g.client)
  }

  lemma FailureReads(a: Adapter, msg: Message, v: Value, w: Wordlist)
    ensures ReadAll(msg, OnFailed(a, v, w).chunks).tools == msg.tools && OnFailed(a, v, w).adapter.tools == a.tools
  {
    forall reason
      ensures ReadAll(msg, OnTerminal(a, reason).chunks).tools == msg.tools
    {
      ReadConcat(msg, RoleChunks(a), [Say(a, Finish(reason)), DoneMark]);
      ReadRole(msg, a);
      EndingReads(a, msg, reason);
    }
    assert [ErrorMark, DoneMark] == [ErrorMark] + [DoneMark];
    ReadConcat(msg, [ErrorMark], [DoneMark]);
    ReadOne(msg, ErrorMark);
    ReadOne(msg, DoneMark);
  }

  lemma NextFiles(a: Adapter, msg: Message, es: seq<Event>, e: Event, w: Wordlist)
    requires Filing(a, msg, es)
    ensures var next := Translate(a, e, w); Filing(next.adapter, ReadAll(msg, next.chunks), es + [e])
  {
    TranslateScans(a, e, w);
    MovesSnoc(es, e);
    assert Moves(es) + [] == Moves(es);
    if MoveOf(e).Some? {
      MoveFiles(a, msg, es, e, w);
    } else {
      OthersFileNothing(a, msg, e, w);
    }
  }

  lemma OthersFileNothing(a: Adapter, msg: Message, e: Event, w: Wordlist)
    requires MoveOf(e).None?
    ensures var next := Translate(a, e, w);
      next.adapter.tools == a.tools && ReadAll(msg, next.chunks).tools == msg.tools
  {
    if e.kind.Completed? {
      CompletionReads(a, msg, e.value, w);
    } else if e.kind.Failed? {
      FailureReads(a, msg, e.value, w);
    } else {
      SpeechReads(a, msg, e, w);
    }
  }

  lemma {:induction false} AnyStreamFiles(id: string, model: string, es: seq<Event>, w: Wordlist)
    ensures var r := TranslateAll(Fresh(id, model), es, w); Filing(r.adapter, ReadAll(BLANK, r.chunks), es)
  {
    if es == [] {
      assert AsMap([]) == map[];
    } else {
      var front, e := es[..|es| - 1], es[|es| - 1];
      assert es == front + [e];
      AnyStreamFiles(id, model, front, w);
      var r := TranslateAll(Fresh(id, model), front, w);
      TranslateAllSnoc(Fresh(id, model), front, e, w);
      ReadConcat(BLANK, r.chunks, Translate(r.adapter, e, w).chunks);
      NextFiles(r.adapter, ReadAll(BLANK, r.chunks), front, e, w);
    }
  }

  /**
   * For every event sequence: the argument fragments a client collects at each index spell the
   * arguments the adapter stores exactly when final values never do anything but extend.
   */
  lemma FragmentsSpellArgumentsExactly(id: string, model: string, es: seq<Event>, w: Wordlist)
    ensures var r := TranslateAll(Fresh(id, model), es, w);
      var msg := ReadAll(BLANK, r.chunks);
      && (forall i: nat :: i in msg.tools <==> i < |r.adapter.tools|)
      && ((forall i: nat :: i < |r.adapter.tools| ==>
             i in msg.tools && msg.tools[i].arguments == r.adapter.tools[i].arguments)
          <==> AlwaysExtends(Moves(es)))
  {
    AnyStreamFiles(id, model, es, w);
    LedgerNoLess(Moves(es));
    var g := EnterAll(Moves(es));
    assert forall i: nat :: i < |g.client| ==> AsMap(g.client)[i] == g.client[i];
  }

  // ---- The refinement -------------------------------------------------------------------------------------

  /** The client's message is the completion. */
  ghost predicate Matches(m: Message, c: Completion) {
    m.content == c.content.UnwrapOr("") && m.tools == AsMap(c.toolCalls) && m.finish == Some(c.finish)
  }

  lemma CompletionReads(a: Adapter, msg: Message, v: Value, w: Wordlist)
    ensures var text := if a.sawText then "" else ResponseText(Root(v));
      ReadAll(msg, OnCompleted(a, v, w).chunks)
      == Message(msg.content + text, msg.tools, Some(FinishOf(Root(v), a.sawTool, w)))
  {
    var text := if a.sawText then "" else ResponseText(Root(v));
    var spoken := if a.sawText then Translation(a, []) else Speak(a, text);
    var finish, a1 := FinishOf(Root(v), a.sawTool, w), spoken.adapter;
    var ending := [Say(a1, Finish(finish)), DoneMark];
    assert OnCompleted(a, v, w).chunks == spoken.chunks + ending;
    ReadConcat(msg, spoken.chunks, ending);
    assert ReadAll(msg, spoken.chunks) == msg.(content := msg.content + text) by {
      assert msg.content + "" == msg.content;
      if text != "" {
        ReadConcat(msg, RoleChunks(a), [Say(a, Content(text))]);
        ReadRole(msg, a);
        ReadOne(msg, Say(a, Content(text)));
      }
    }
    EndingReads(a1, msg.(content := msg.content + text), finish);
  }

  lemma EndingReads(a: Adapter, msg: Message, reason: FinishReason)
    ensures ReadAll(msg, [Say(a, Finish(reason)), DoneMark]) == msg.(finish := Some(reason))
  {
    assert [Say(a, Finish(reason)), DoneMark] == [Say(a, Finish(reason))] + [DoneMark];
    ReadConcat(msg, [Say(a, Finish(reason))], [DoneMark]);
    ReadOne(msg, Say(a, Finish(reason)));
    ReadOne(msg.(finish := Some(reason)), DoneMark);
  }

  /** What the client makes of a stream that ends in a completed event. */
  ghost function Streamed(id: string, model: string, es: seq<Event>, done: Event, w: Wordlist): Message {
    ReadAll(BLANK, TranslateAll(Fresh(id, model), es + [done], w).chunks)
  }

  lemma StreamedMessage(id: string, model: string, es: seq<Event>, done: Event, w: Wordlist)
    requires Open(es) && done.kind.Completed?
    ensures var g, root := EnterAll(Moves(es)), Root(done.value);
      Streamed(id, model, es, done, w)
      == Message(if Heard(es) != "" then Heard(es) else ResponseText(root), AsMap(g.client),
                 Some(FinishOf(root, g.tools != [], w)))
  {
    var r := TranslateAll(Fresh(id, model), es, w);
    OpenStreamStands(id, model, es, w);
    TranslateAllSnoc(Fresh(id, model), es, done, w);
    ReadConcat(BLANK, r.chunks, OnCompleted(r.adapter, done.value, w).chunks);
    EndStands(r.adapter, ReadAll(BLANK, r.chunks), es, done.value, w);
  }

  lemma EndStands(a: Adapter, msg: Message, es: seq<Event>, v: Value, w: Wordlist)
    requires Standing(a, msg, es)
    ensures var g, root := EnterAll(Moves(es)), Root(v);
      ReadAll(msg, OnCompleted(a, v, w).chunks)
      == Message(if Heard(es) != "" then Heard(es) else ResponseText(root), AsMap(g.client),
                 Some(FinishOf(root, g.tools != [], w)))
  {
    CompletionReads(a, msg, v, w);
    assert Heard(es) + "" == Heard(es) && "" + ResponseText(Root(v)) == ResponseText(Root(v));
  }

  lemma AsMapInjective(a: seq<ToolCall>, b: seq<ToolCall>)
    requires AsMap(a) == AsMap(b)
    ensures a == b
  {
    assert (|a| in AsMap(b) <==> |a| < |b|) && |a| !in AsMap(a);
    assert (|b| in AsMap(a) <==> |b| < |a|) && |b| !in AsMap(b);
    assert forall i: nat :: i < |a| && i < |b| ==> AsMap(a)[i] == a[i] && AsMap(b)[i] == b[i];
  }

  /**
   * For every stream that ends in a completed response, streaming says what translating the response
   * says exactly when the text heard, if any, is the response's, and the calls made are the response's.
   */
  lemma StreamingMatchesExactly(id: string, model: string, es: seq<Event>, done: Event, fallback: string, w: Wordlist)
    requires Open(es) && done.kind.Completed?
    ensures var root := Root(done.value);
      Matches(Streamed(id, model, es, done, w), ToCompletion(root, fallback, w))
      <==> Heard(es) in {"", ResponseText(root)} && EnterAll(Moves(es)).client == ResponseCalls(root)
  {
    StreamedMessage(id, model, es, done, w);
    var g, root := EnterAll(Moves(es)), Root(done.value);
    if AsMap(g.client) == AsMap(ResponseCalls(root)) {
      AsMapInjective(g.client, ResponseCalls(root));
    }
  }
}
