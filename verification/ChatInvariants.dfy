/** What the chunks of any event sequence look like to a client. */
module ChatInvariants {
  import opened Prelude
  import opened Json
  import opened ChatCompletion
  import opened ChatAdapter

  /** One translation after another. */
  function Joined(first: Translation, second: Translation): Translation {
    Translation(second.adapter, first.chunks + second.chunks)
  }

  lemma JoinedTwice(a: Translation, b: Translation, c: Translation)
    ensures Joined(a, Joined(b, c)) == Joined(Joined(a, b), c)
  {
    assert a.chunks + (b.chunks + c.chunks) == (a.chunks + b.chunks) + c.chunks;
  }

  lemma {:induction false} TranslateAllConcat(a: Adapter, es: seq<Event>, fs: seq<Event>, w: Wordlist)
    ensures var first := TranslateAll(a, es, w);
      TranslateAll(a, es + fs, w) == Joined(first, TranslateAll(first.adapter, fs, w))
    decreases |es|
  {
    if es == [] {
      assert es + fs == fs;
    } else {
      var head := Translate(a, es[0], w);
      assert (es + fs)[1..] == es[1..] + fs && (es + fs)[0] == es[0];
      TranslateAllConcat(head.adapter, es[1..], fs, w);
      var middle := TranslateAll(head.adapter, es[1..], w);
      JoinedTwice(head, middle, TranslateAll(middle.adapter, fs, w));
    }
  }

  lemma TranslateAllOne(a: Adapter, e: Event, w: Wordlist)
    ensures TranslateAll(a, [e], w) == Translate(a, e, w)
  {
    assert TranslateAll(Translate(a, e, w).adapter, [e][1..], w).chunks == [];
  }

  lemma TranslateAllSnoc(a: Adapter, es: seq<Event>, e: Event, w: Wordlist)
    ensures var first := TranslateAll(a, es, w);
      var last := Translate(first.adapter, e, w);
      TranslateAll(a, es + [e], w) == Translation(last.adapter, first.chunks + last.chunks)
  {
    TranslateAllConcat(a, es, [e], w);
    TranslateAllOne(TranslateAll(a, es, w).adapter, e, w);
  }

  // ---- Order of the chunks ---------------------------------------------------------------------------

  /** What has gone by: the role, and how many tool calls were opened. */
  datatype Seen = Seen(role: bool, open: nat)

  /** The next chunk in a well ordered stream; none if it comes out of order. */
  function Admit(s: Seen, c: Chunk): Option<Seen> {
    if !c.Chunk? then Some(s)
    else
      match c.delta
      case Role => if s.role then None else Some(s.(role := true))
      case Content(_) => if s.role then Some(s) else None
      case OpenTool(i, _, _, _) => if s.role && i == s.open then Some(s.(open := s.open + 1)) else None
      case ToolArguments(i, _) => if s.role && i < s.open then Some(s) else None
      case Finish(_) => Some(s)
  }

  function Scan(s: Seen, chunks: seq<Chunk>): Option<Seen> {
    if chunks == [] then Some(s)
    else
      var before := Scan(s, chunks[..|chunks| - 1]);
      if before.None? then None else Admit(before.value, chunks[|chunks| - 1])
  }

  lemma {:induction false} ScanConcat(s: Seen, a: seq<Chunk>, b: seq<Chunk>)
    ensures Scan(s, a + b) == if Scan(s, a).None? then None else Scan(Scan(s, a).value, b)
  {
    if b == [] {
      assert a + b == a;
    } else {
      assert (a + b)[..|a + b| - 1] == a + b[..|b| - 1];
      ScanConcat(s, a, b[..|b| - 1]);
    }
  }

  lemma ScanOne(s: Seen, c: Chunk)
    ensures Scan(s, [c]) == Admit(s, c)
  {
    assert [c][..0] == [];
    assert Scan(s, []) == Some(s);
  }

  ghost predicate AllAnnounced(a: Adapter) {
    (forall i :: 0 <= i < |a.tools| ==> a.tools[i].announced) && (a.tools != [] ==> a.emittedRole && a.sawTool)
  }

  function SeenBy(a: Adapter): Seen {
    Seen(a.emittedRole, |a.tools|)
  }

  lemma RoleScans(a: Adapter, open: nat)
    ensures Scan(Seen(a.emittedRole, open), RoleChunks(a)) == Some(Seen(true, open))
  {
    if !a.emittedRole {
      ScanOne(Seen(false, open), Say(a, Role));
    }
  }

  lemma SpeakScans(a: Adapter, text: string)
    ensures Scan(SeenBy(a), Speak(a, text).chunks) == Some(SeenBy(Speak(a, text).adapter))
  {
    if text != "" {
      RoleScans(a, |a.tools|);
      ScanConcat(SeenBy(a), RoleChunks(a), [Say(a, Content(text))]);
      ScanOne(Seen(true, |a.tools|), Say(a, Content(text)));
    }
  }

  lemma TextDeltaScans(a: Adapter, v: Value)
    ensures Scan(SeenBy(a), OnTextDelta(a, v).chunks) == Some(SeenBy(OnTextDelta(a, v).adapter))
  {
    var delta := StringAt(v, "delta").UnwrapOr("");
    RoleScans(a, |a.tools|);
    if delta != "" {
      ScanConcat(SeenBy(a), RoleChunks(a), [Say(a, Content(delta))]);
      ScanOne(Seen(true, |a.tools|), Say(a, Content(delta)));
    } else {
      assert RoleChunks(a) + [] == RoleChunks(a);
    }
  }

  /** The chunks that open a call which is not announced yet. */
  function Opening(a: Adapter, i: nat, t: Tool, arguments: string): seq<Chunk> {
    if t.announced then [] else [Say(a, OpenTool(i, t.callId, t.name, arguments))]
  }

  lemma EnsuredAnnounces(a: Adapter, l: Label)
    requires AllAnnounced(a)
    ensures var tools, i := Ensured(a.tools, l), Located(a.tools, l);
      && (i < |a.tools| <==> tools[i].announced)
      && (i >= |a.tools| ==> i == |a.tools| && tools[i].arguments == "")
      && (forall j :: 0 <= j < |tools| && j != i ==> tools[j].announced)
  {
  }

  lemma OpeningScans(a: Adapter, l: Label, arguments: string)
    requires AllAnnounced(a)
    ensures var tools, i := Ensured(a.tools, l), Located(a.tools, l);
      Scan(SeenBy(a), RoleChunks(a) + Opening(a, i, tools[i], arguments)) == Some(Seen(true, |tools|)) && i < |tools|
  {
    var tools, i := Ensured(a.tools, l), Located(a.tools, l);
    EnsuredAnnounces(a, l);
    RoleScans(a, |a.tools|);
    var opening := Opening(a, i, tools[i], arguments);
    ScanConcat(SeenBy(a), RoleChunks(a), opening);
    if opening != [] {
      ScanOne(Seen(true, |a.tools|), opening[0]);
    }
  }

  lemma ToolScans(a: Adapter, l: Label, text: string, final: bool)
    requires AllAnnounced(a)
    ensures var r := OnTool(a, l, text, final);
      AllAnnounced(r.adapter) && Scan(SeenBy(a), r.chunks) == Some(SeenBy(r.adapter))
  {
    var tools, i := Ensured(a.tools, l), Located(a.tools, l);
    EnsuredAnnounces(a, l);
    OpeningScans(a, l, "");
    var emitted := Argue(tools[i].arguments, text, final).emitted;
    var before, last := RoleChunks(a) + Opening(a, i, tools[i], ""), ArgumentChunks(a, i, emitted);
    assert OnTool(a, l, text, final).chunks == before + last;
    ScanConcat(SeenBy(a), before, last);
    ArgumentsScan(a, |tools|, i, emitted);
  }

  function ArgumentChunks(a: Adapter, i: nat, emitted: string): seq<Chunk> {
    if emitted == "" then [] else [Say(a, ToolArguments(i, emitted))]
  }

  lemma ArgumentsScan(a: Adapter, open: nat, i: nat, emitted: string)
    requires i < open
    ensures Scan(Seen(true, open), ArgumentChunks(a, i, emitted)) == Some(Seen(true, open))
  {
    if emitted != "" {
      ScanOne(Seen(true, open), Say(a, ToolArguments(i, emitted)));
    }
  }

  lemma ToolAddedScans(a: Adapter, l: Label)
    requires AllAnnounced(a)
    ensures var r := OnToolAdded(a, l); AllAnnounced(r.adapter) && Scan(SeenBy(a), r.chunks) == Some(SeenBy(r.adapter))
  {
    AddedIsTool(a, l);
    ToolScans(a, l, "", false);
  }

  /** An added call is like one that is given no arguments. */
  lemma AddedIsTool(a: Adapter, l: Label)
    requires AllAnnounced(a)
    ensures OnToolAdded(a, l) == OnTool(a, l, "", false)
  {
    EnsuredAnnounces(a, l);
  }

  lemma EndingScans(a: Adapter, s: Seen, chunks: seq<Chunk>, reason: FinishReason)
    requires Scan(s, chunks).Some?
    ensures Scan(s, chunks + [Say(a, Finish(reason)), DoneMark]) == Scan(s, chunks)
  {
    var s1 := Scan(s, chunks).value;
    ScanConcat(s, chunks, [Say(a, Finish(reason)), DoneMark]);
    assert [Say(a, Finish(reason)), DoneMark] == [Say(a, Finish(reason))] + [DoneMark];
    ScanConcat(s1, [Say(a, Finish(reason))], [DoneMark]);
    ScanOne(s1, Say(a, Finish(reason)));
    ScanOne(s1, DoneMark);
  }

  lemma CompletedScans(a: Adapter, v: Value, w: Wordlist)
    ensures Scan(SeenBy(a), OnCompleted(a, v, w).chunks) == Some(SeenBy(OnCompleted(a, v, w).adapter))
  {
    var spoken := if a.sawText then Translation(a, []) else Speak(a, ResponseText(Root(v)));
    SpeakScans(a, ResponseText(Root(v)));
    assert Scan(SeenBy(a), []) == Some(SeenBy(a));
    EndingScans(spoken.adapter, SeenBy(a), spoken.chunks, FinishOf(Root(v), spoken.adapter.sawTool, w));
  }

  lemma TerminalScans(a: Adapter, reason: FinishReason)
    ensures Scan(SeenBy(a), OnTerminal(a, reason).chunks) == Some(SeenBy(OnTerminal(a, reason).adapter))
  {
    RoleScans(a, |a.tools|);
    EndingScans(a, SeenBy(a), RoleChunks(a), reason);
  }

  lemma ErrorScans(s: Seen)
    ensures Scan(s, [ErrorMark, DoneMark]) == Some(s)
  {
    assert [ErrorMark, DoneMark] == [ErrorMark] + [DoneMark];
    ScanConcat(s, [ErrorMark], [DoneMark]);
    ScanOne(s, ErrorMark);
    ScanOne(s, DoneMark);
  }

  lemma FailedScans(a: Adapter, v: Value, w: Wordlist)
    ensures Scan(SeenBy(a), OnFailed(a, v, w).chunks) == Some(SeenBy(OnFailed(a, v, w).adapter))
  {
    TerminalScans(a, ContentFilter);
    TerminalScans(a, LengthLimit);
    ErrorScans(SeenBy(a));
  }

  lemma CreatedScans(a: Adapter, v: Value)
    ensures Scan(SeenBy(a), OnCreated(a, v).chunks) == Some(SeenBy(OnCreated(a, v).adapter))
  {
    var named := OnCreated(a, v).adapter.(emittedRole := a.emittedRole);
    assert OnCreated(a, v).chunks == RoleChunks(named);
    RoleScans(named, |a.tools|);
  }

  /** The adapter stays in good order, and so do the chunks. */
  ghost predicate InOrder(a: Adapter, r: Translation) {
    AllAnnounced(r.adapter) && Scan(SeenBy(a), r.chunks) == Some(SeenBy(r.adapter))
  }

  lemma ItemAddedScans(a: Adapter, v: Value)
    requires AllAnnounced(a)
    ensures InOrder(a, OnItemAdded(a, v))
  {
    var item := Get(v, "item");
    assert InOrder(a, Translation(a, []));
    if item.Some? && IsCall(item.value) {
      ToolAddedScans(a, LabelOf(item.value, v));
    }
  }

  lemma ItemDoneScans(a: Adapter, v: Value)
    requires AllAnnounced(a)
    ensures InOrder(a, OnItemDone(a, v))
  {
    var item := Get(v, "item");
    assert InOrder(a, Translation(a, []));
    if item.Some? && IsCall(item.value) {
      ToolScans(a, LabelOf(item.value, v), StringAt(item.value, "arguments").UnwrapOr(""), true);
    } else if item.Some? {
      SpeakScans(a, ContentText(item.value));
    }
  }

  lemma TranslateScans(a: Adapter, e: Event, w: Wordlist)
    requires AllAnnounced(a)
    ensures InOrder(a, Translate(a, e, w))
  {
    var v := e.value;
    match e.kind {
      case Created => CreatedScans(a, v);
      case TextDelta => TextDeltaScans(a, v);
      case ItemAdded => ItemAddedScans(a, v);
      case ArgumentsDelta => ToolScans(a, LabelOf(v, v), ArgumentText(v), false);
      case ArgumentsDone => ToolScans(a, LabelOf(v, v), ArgumentText(v), true);
      case ItemDone => ItemDoneScans(a, v);
      case Completed => CompletedScans(a, v, w);
      case Failed => FailedScans(a, v, w);
      case Other =>
    }
  }

  lemma {:induction false} TranslateAllScans(a: Adapter, es: seq<Event>, w: Wordlist)
    requires AllAnnounced(a)
    ensures var r := TranslateAll(a, es, w);
      AllAnnounced(r.adapter) && Scan(SeenBy(a), r.chunks) == Some(SeenBy(r.adapter))
    decreases |es|
  {
    if es != [] {
      var first := Translate(a, es[0], w);
      TranslateScans(a, es[0], w);
      TranslateAllScans(first.adapter, es[1..], w);
      ScanConcat(SeenBy(a), first.chunks, TranslateAll(first.adapter, es[1..], w).chunks);
    }
  }

  predicate IsRole(c: Chunk) {
    c.Chunk? && c.delta.Role?
  }

  predicate Opens(c: Chunk, k: int) {
    c.Chunk? && c.delta.OpenTool? && c.delta.index == k
  }

  predicate IsTalk(c: Chunk) {
    c.Chunk? && (c.delta.Content? || c.delta.OpenTool? || c.delta.ToolArguments?)
  }

  ghost predicate HasRole(cs: seq<Chunk>) {
    exists i :: 0 <= i < |cs| && IsRole(cs[i])
  }

  ghost predicate HasOpened(cs: seq<Chunk>, k: int) {
    exists i :: 0 <= i < |cs| && Opens(cs[i], k)
  }

  /** The chunk may follow what came before. */
  ghost predicate Fits(before: seq<Chunk>, c: Chunk) {
    && (IsRole(c) ==> !HasRole(before))
    && (IsTalk(c) ==> HasRole(before))
    && (c.Chunk? && c.delta.OpenTool? ==> forall k :: HasOpened(before, k) <==> 0 <= k < c.delta.index)
    && (c.Chunk? && c.delta.ToolArguments? ==> HasOpened(before, c.delta.index))
  }

  /** One role chunk at most, before anything said; calls opened once each, counting up, before their arguments. */
  ghost predicate WellOrdered(cs: seq<Chunk>) {
    forall j :: 0 <= j < |cs| ==> Fits(cs[..j], cs[j])
  }

  ghost predicate Remembers(s: Seen, cs: seq<Chunk>) {
    (s.role <==> HasRole(cs)) && forall k :: HasOpened(cs, k) <==> 0 <= k < s.open
  }

  lemma {:induction false} ScanMeans(cs: seq<Chunk>)
    requires Scan(Seen(false, 0), cs).Some?
    ensures WellOrdered(cs) && Remembers(Scan(Seen(false, 0), cs).value, cs)
  {
    if cs != [] {
      var front, last := cs[..|cs| - 1], cs[|cs| - 1];
      ScanMeans(front);
      AdmitRemembers(Scan(Seen(false, 0), front).value, front, last);
      assert cs == front + [last];
      assert forall j :: 0 <= j < |front| ==> cs[..j] == front[..j];
    }
  }

  lemma AdmitRemembers(s: Seen, front: seq<Chunk>, last: Chunk)
    requires Remembers(s, front) && Admit(s, last).Some?
    ensures Remembers(Admit(s, last).value, front + [last]) && Fits(front, last)
  {
    var cs := front + [last];
    assert forall i :: 0 <= i < |front| ==> cs[i] == front[i];
    assert cs[|front|] == last;
    assert HasRole(cs) <==> HasRole(front) || IsRole(last);
    forall k
      ensures HasOpened(cs, k) <==> HasOpened(front, k) || Opens(last, k)
    {
      if HasOpened(front, k) {
        var i :| 0 <= i < |front| && Opens(front[i], k);
        assert Opens(cs[i], k);
      }
    }
  }

  /** Whatever the upstream sends, the chunks come in good order. */
  lemma ChunksAreWellOrdered(id: string, model: string, es: seq<Event>, w: Wordlist)
    ensures WellOrdered(TranslateAll(Fresh(id, model), es, w).chunks)
  {
    TranslateAllScans(Fresh(id, model), es, w);
    ScanMeans(TranslateAll(Fresh(id, model), es, w).chunks);
  }
}
