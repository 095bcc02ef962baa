/** A family of streams as upstreams send them: some text, then one call told in pieces. All of them are well formed. */
module ChatExample {
  import opened Prelude
  import opened Json
  import opened ChatCompletion
  import opened ChatAdapter
  import opened ToolMoves
  import opened ChatRefinement
  import opened ChatEndToEnd

  function MessageItem(text: string): Value {
    Object([Member("type", String("message")), Member("role", String("assistant")),
            Member("content", Array([Object([Member("type", String("output_text")), Member("text", String(text))])]))])
  }

  function CallItem(id: string, name: string, arguments: string): Value {
    Object([Member("type", String("function_call")), Member("call_id", String(id)), Member("name", String(name)),
            Member("arguments", String(arguments))])
  }

  function Said(text: string): Event {
    Event(TextDelta, Object([Member("delta", String(text))]))
  }

  function Added(id: string, name: string): Event {
    Event(ItemAdded, Object([Member("output_index", Int(1)), Member("item", CallItem(id, name, ""))]))
  }

  function Argued(fragment: string): Event {
    Event(ArgumentsDelta, Object([Member("output_index", Int(1)), Member("delta", String(fragment))]))
  }

  function Ended(id: string, name: string, arguments: string): Event {
    Event(ItemDone, Object([Member("output_index", Int(1)), Member("item", CallItem(id, name, arguments))]))
  }

  function Done(text: string, id: string, name: string, arguments: string): Event {
    Event(Completed, Object([Member("response", Object([
      Member("status", String("completed")),
      Member("output", Array([MessageItem(text), CallItem(id, name, arguments)]))]))]))
  }

  /** The call's arguments, cut into pieces. */
  function ArgueAll(fragments: seq<string>): seq<Event> {
    seq(|fragments|, i requires 0 <= i < |fragments| => Argued(fragments[i]))
  }

  function Opening(text: string, id: string, name: string): seq<Event> {
    [Said(text), Added(id, name)]
  }

  function Stream(text: string, id: string, name: string, fragments: seq<string>): seq<Event> {
    Opening(text, id, name) + ArgueAll(fragments) + [Ended(id, name, Concat(fragments))]
  }

  function Labelling(id: string, name: string): Label {
    Label(Some(1), Some(id), Some(name))
  }

  function FragmentMoves(fragments: seq<string>): seq<Move> {
    seq(|fragments|, i requires 0 <= i < |fragments| => Move(Label(Some(1), None, None), fragments[i], false))
  }

  function Begun(id: string, name: string, fragments: seq<string>): seq<Move> {
    [Move(Labelling(id, name), "", false)] + FragmentMoves(fragments)
  }

  function TheMoves(id: string, name: string, fragments: seq<string>): seq<Move> {
    Begun(id, name, fragments) + [Move(Labelling(id, name), Concat(fragments), true)]
  }

  /** Looking past the first member. */
  lemma LookPast(m: Member, rest: seq<Member>, key: string)
    ensures Lookup([m] + rest, key) == if m.key == key then Some(m.value) else Lookup(rest, key)
  {
    assert ([m] + rest)[1..] == rest;
  }

  lemma Pair(k: string, v: Value, l: string, u: Value, key: string)
    ensures Get(Object([Member(k, v), Member(l, u)]), key)
         == if k == key then Some(v) else if l == key then Some(u) else None
  {
    LookPast(Member(k, v), [Member(l, u)], key);
    LookPast(Member(l, u), [], key);
    assert [Member(k, v)] + [Member(l, u)] == [Member(k, v), Member(l, u)] && [Member(l, u)] + [] == [Member(l, u)];
  }

  lemma CallFields(id: string, name: string, arguments: string)
    ensures var c := CallItem(id, name, arguments);
      && IsCall(c) && StringAt(c, "call_id") == Some(id)
      && StringAt(c, "name") == Some(name) && StringAt(c, "arguments") == Some(arguments)
  {
    var ms := CallItem(id, name, arguments).members;
    assert ms == [ms[0]] + ms[1..] && ms[1..] == [ms[1]] + ms[2..] && ms[2..] == [ms[2]] + ms[3..]
        && ms[3..] == [ms[3]] + [];
    assert ms[0].key == "type" && ms[1].key == "call_id" && ms[2].key == "name" && ms[3].key == "arguments";
    forall key
      ensures Lookup(ms, key) == if key == "type" then Some(ms[0].value) else if key == "call_id" then Some(ms[1].value)
                                 else if key == "name" then Some(ms[2].value)
                                      else if key == "arguments" then Some(ms[3].value) else None
    {
      LookPast(ms[0], ms[1..], key);
      LookPast(ms[1], ms[2..], key);
      LookPast(ms[2], ms[3..], key);
      LookPast(ms[3], [], key);
    }
  }

  lemma ItemFields(item: Value, key: string)
    ensures Get(Object([Member("output_index", Int(1)), Member("item", item)]), key)
         == if key == "output_index" then Some(Int(1)) else if key == "item" then Some(item) else None
  {
    Pair("output_index", Int(1), "item", item, key);
  }

  lemma SayMoves(text: string)
    ensures MoveOf(Said(text)).None? && VoiceOf(Said(text)) == Voice(text, "")
  {
  }

  lemma AddMoves(id: string, name: string)
    ensures MoveOf(Added(id, name)) == Some(Move(Labelling(id, name), "", false))
    ensures VoiceOf(Added(id, name)) == Voice("", "")
  {
    CallFields(id, name, "");
    ItemFields(CallItem(id, name, ""), "output_index");
    ItemFields(CallItem(id, name, ""), "item");
  }

  lemma ArgueMoves(fragment: string)
    ensures MoveOf(Argued(fragment)) == Some(Move(Label(Some(1), None, None), fragment, false))
    ensures VoiceOf(Argued(fragment)) == Voice("", "")
  {
    forall key
      ensures Get(Argued(fragment).value, key)
           == if key == "output_index" then Some(Int(1)) else if key == "delta" then Some(String(fragment)) else None
    {
      Pair("output_index", Int(1), "delta", String(fragment), key);
    }
    assert Get(Argued(fragment).value, "call_id").None? && Get(Argued(fragment).value, "name").None?;
  }

  lemma EndMoves(id: string, name: string, arguments: string)
    ensures MoveOf(Ended(id, name, arguments)) == Some(Move(Labelling(id, name), arguments, true))
    ensures VoiceOf(Ended(id, name, arguments)) == Voice("", "")
  {
    CallFields(id, name, arguments);
    ItemFields(CallItem(id, name, arguments), "output_index");
    ItemFields(CallItem(id, name, arguments), "item");
  }

  lemma OpeningMoves(text: string, id: string, name: string)
    ensures Moves(Opening(text, id, name)) == [Move(Labelling(id, name), "", false)]
    ensures Heard(Opening(text, id, name)) == text
  {
    SayMoves(text);
    AddMoves(id, name);
    OneMore([], Said(text));
    OneMore([Said(text)], Added(id, name));
    assert [] + [Said(text)] == [Said(text)] && [Said(text)] + [Added(id, name)] == Opening(text, id, name);
  }

  lemma {:induction false} ArgueAllMoves(before: seq<Event>, fragments: seq<string>)
    ensures Moves(before + ArgueAll(fragments)) == Moves(before) + FragmentMoves(fragments)
    ensures Heard(before + ArgueAll(fragments)) == Heard(before)
  {
    if fragments == [] {
      assert before + ArgueAll(fragments) == before && Moves(before) + FragmentMoves(fragments) == Moves(before);
    } else {
      var front, last := fragments[..|fragments| - 1], fragments[|fragments| - 1];
      assert ArgueAll(fragments) == ArgueAll(front) + [Argued(last)];
      assert before + ArgueAll(fragments) == before + ArgueAll(front) + [Argued(last)];
      ArgueAllMoves(before, front);
      ArgueMoves(last);
      OneMore(before + ArgueAll(front), Argued(last));
      assert FragmentMoves(fragments) == FragmentMoves(front) + [Move(Label(Some(1), None, None), last, false)];
    }
  }

  lemma StreamMoves(text: string, id: string, name: string, fragments: seq<string>)
    ensures Moves(Stream(text, id, name, fragments)) == TheMoves(id, name, fragments)
    ensures Heard(Stream(text, id, name, fragments)) == text
  {
    OpeningMoves(text, id, name);
    ArgueAllMoves(Opening(text, id, name), fragments);
    EndMoves(id, name, Concat(fragments));
    OneMore(Opening(text, id, name) + ArgueAll(fragments), Ended(id, name, Concat(fragments)));
  }

  lemma OneMore(es: seq<Event>, e: Event)
    ensures Moves(es + [e]) == Moves(es) + if MoveOf(e).Some? then [MoveOf(e).value] else []
    ensures VoiceOf(e).message == "" ==> Heard(es + [e]) == Heard(es) + VoiceOf(e).delta
  {
    MovesSnoc(es, e);
    HeardSnoc(es, e);
    assert Heard(es) + "" == Heard(es);
  }

  /** The response this stream tells. */
  lemma DoneTells(text: string, id: string, name: string, arguments: string)
    ensures var root := Root(Done(text, id, name, arguments).value);
      && ItemsAt(root, "output") == [MessageItem(text), CallItem(id, name, arguments)]
      && ResponseText(root) == text
      && CallPositions(ItemsAt(root, "output")) == [1]
  {
    var items := [MessageItem(text), CallItem(id, name, arguments)];
    Pair("status", String("completed"), "output", Array(items), "output");
    MessageFields(text);
    CallFields(id, name, arguments);
    assert items == [items[0]] + [items[1]] && items[..1] == [items[0]] && items[..1][..0] == [];
    assert CallPositions([]) == [] && CallPositions(items[..1]) == [];
    FilterConcat(IsAssistant, [items[0]], [items[1]]);
    assert [items[0]][1..] == [] && [items[1]][1..] == [];
    NotAssistant(id, name, arguments);
    assert Filter(IsAssistant, items) == [items[0]];
    assert ContentTexts([items[0]]) == [text];
    OnlyOne(text);
  }

  lemma OnlyOne(part: string)
    ensures Concat([part]) == part
  {
    assert [part][1..] == [] && part + "" == part;
  }

  lemma NotAssistant(id: string, name: string, arguments: string)
    ensures !IsAssistant(CallItem(id, name, arguments))
  {
    var ms := CallItem(id, name, arguments).members;
    assert ms == [ms[0]] + ms[1..] && ms[1..] == [ms[1]] + ms[2..] && ms[2..] == [ms[2]] + ms[3..]
        && ms[3..] == [ms[3]] + [];
    LookPast(ms[0], ms[1..], "role");
    LookPast(ms[1], ms[2..], "role");
    LookPast(ms[2], ms[3..], "role");
    LookPast(ms[3], [], "role");
    assert ms[0].key[0] == 't' && ms[1].key[0] == 'c' && ms[2].key[0] == 'n' && ms[3].key[0] == 'a';
  }

  lemma MessageFields(text: string)
    ensures var m := MessageItem(text); IsAssistant(m) && !IsCall(m) && ContentText(m) == text
  {
    var ms := MessageItem(text).members;
    assert ms == [ms[0]] + ms[1..] && ms[1..] == [ms[1]] + ms[2..] && ms[2..] == [ms[2]] + [];
    forall key | key in {"type", "role", "content"}
      ensures Lookup(ms, key) == if key == "type" then Some(ms[0].value)
                                 else if key == "role" then Some(ms[1].value) else Some(ms[2].value)
    {
      LookPast(ms[0], ms[1..], key);
      LookPast(ms[1], ms[2..], key);
      LookPast(ms[2], [], key);
    }
    var part := Object([Member("type", String("output_text")), Member("text", String(text))]);
    Pair("type", String("output_text"), "text", String(text), "type");
    Pair("type", String("output_text"), "text", String(text), "text");
    assert PartText(part) == text;
    assert ItemsAt(MessageItem(text), "content") == [part];
    OnlyOne(text);
    assert seq(1, i requires 0 <= i < 1 => PartText([part][i])) == [text];
  }

  lemma {:induction false} ConcatSnoc(parts: seq<string>, last: string)
    ensures Concat(parts + [last]) == Concat(parts) + last
  {
    if parts == [] {
      assert parts + [last] == [last] && [last][1..] == [] && last + "" == last && "" + last == last;
    } else {
      assert (parts + [last])[1..] == parts[1..] + [last];
      ConcatSnoc(parts[1..], last);
    }
  }

  lemma {:induction false} BegunSpeaks(id: string, name: string, fragments: seq<string>)
    ensures Mentions(Begun(id, name, fragments)) == [1]
    ensures Spoken(Begun(id, name, fragments)).stored == Concat(fragments)
  {
    var ms := Begun(id, name, fragments);
    if fragments == [] {
      assert ms[..0] == [] && Mentions([]) == [] && ToolMoves.Spoken([]).stored == "";
    } else {
      var front, last := fragments[..|fragments| - 1], fragments[|fragments| - 1];
      BegunSpeaks(id, name, front);
      ConcatSnoc(front, last);
      assert fragments == front + [last];
      assert ms[..|ms| - 1] == Begun(id, name, front);
    }
  }

  lemma MovesTell(id: string, name: string, fragments: seq<string>)
    ensures var ms := TheMoves(id, name, fragments);
      && Mentions(ms) == [1]
      && Concerning(ms, 1) == ms
      && SpeaksPlainly(ms) && Spoken(ms).stored == Concat(fragments)
  {
    AllConcern(TheMoves(id, name, fragments));
    EndSpeaks(Begun(id, name, fragments), id, name, fragments);
    BegunSpeaks(id, name, fragments);
    EndMentions(Begun(id, name, fragments), Move(Labelling(id, name), Concat(fragments), true));
  }

  lemma EndMentions(ms: seq<Move>, m: Move)
    requires forall n :: 0 <= n < |ms| ==> ms[n].tag.outputIndex.Some?
    requires Mentions(ms) == [1] && m.tag.outputIndex == Some(1)
    ensures Mentions(ms + [m]) == [1]
  {
    assert (ms + [m])[..|ms|] == ms;
  }

  lemma EndSpeaks(begun: seq<Move>, id: string, name: string, fragments: seq<string>)
    requires begun == Begun(id, name, fragments)
    ensures var ms := begun + [Move(Labelling(id, name), Concat(fragments), true)];
      SpeaksPlainly(ms) && Spoken(ms).stored == Concat(fragments)
  {
    BegunSpeaks(id, name, fragments);
    var last := Move(Labelling(id, name), Concat(fragments), true);
    var ms := begun + [last];
    SpokenSnoc(begun, last);
    assert ms[..|begun|] == begun && ms[|begun|] == last;
    assert forall n :: 0 <= n < |begun| ==> ms[n] == begun[n] && !begun[n].final;
  }

  lemma {:induction false} AllConcern(ms: seq<Move>)
    requires forall m :: m in ms ==> m.tag.outputIndex == Some(1)
    ensures Concerning(ms, 1) == ms
  {
    if ms != [] {
      assert ms[0] in ms && forall m :: m in ms[1..] ==> m in ms;
      AllConcern(ms[1..]);
    }
  }

  lemma MovesAreLabelled(id: string, name: string, fragments: seq<string>)
    ensures Labelled(TheMoves(id, name, fragments), map[1 := id])
  {
    var ms := TheMoves(id, name, fragments);
    forall n | 0 <= n < |ms|
      ensures Introduces(ms[..n], ms[n].tag)
    {
      if n > 0 {
        assert ms[..n][0].tag.outputIndex == ms[n].tag.outputIndex;
      }
    }
  }

  /** Whatever the text, the call and the way its arguments are cut, this stream is well formed. */
  lemma StreamIsWellFormed(text: string, id: string, name: string, fragments: seq<string>)
    ensures WellFormed(Stream(text, id, name, fragments), Done(text, id, name, Concat(fragments)), map[1 := id])
  {
    StreamMoves(text, id, name, fragments);
    DoneTells(text, id, name, Concat(fragments));
    MovesAreLabelled(id, name, fragments);
    TellsCall(id, name, fragments);
    StreamIsOpen(text, id, name, fragments);
    AllTogether(Stream(text, id, name, fragments), Done(text, id, name, Concat(fragments)), map[1 := id],
                TheMoves(id, name, fragments), [MessageItem(text), CallItem(id, name, Concat(fragments))]);
  }

  lemma TellsCall(id: string, name: string, fragments: seq<string>)
    ensures var ms := TheMoves(id, name, fragments);
      Mentions(ms) == [1] && CallTold(Concerning(ms, 1), CallItem(id, name, Concat(fragments)))
  {
    MovesTell(id, name, fragments);
    CallFields(id, name, Concat(fragments));
    assert TheMoves(id, name, fragments)[0] == Move(Labelling(id, name), "", false);
  }

  lemma StreamIsOpen(text: string, id: string, name: string, fragments: seq<string>)
    ensures Open(Stream(text, id, name, fragments))
  {
  }

  lemma AllTogether(es: seq<Event>, done: Event, ids: Ids, ms: seq<Move>, items: seq<Value>)
    requires Open(es) && done.kind.Completed? && ms == Moves(es) && Labelled(ms, ids)
    requires |items| == 2 && items == ItemsAt(Root(done.value), "output") && CallPositions(items) == [1]
    requires Mentions(ms) == [1] && CallTold(Concerning(ms, 1), items[1])
    requires Heard(es) in {"", ResponseText(Root(done.value))}
    ensures WellFormed(es, done, ids)
  {
  }
}
