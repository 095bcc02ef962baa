/** The tool calls of a stream: which call each event belongs to, and what the client makes of it. */
module ToolMoves {
  import opened Prelude
  import opened ChatCompletion
  import opened ChatAdapter

  /** One event about a tool call. */
  datatype Move = Move(tag: Label, text: string, final: bool)

  /** The adapter's calls, and beside them the calls as the client has them. */
  datatype Ledger = Ledger(tools: seq<Tool>, client: seq<ToolCall>)

  ghost predicate Paired(g: Ledger) {
    |g.client| == |g.tools| && forall i :: 0 <= i < |g.tools| ==> g.tools[i].announced
  }

  function Enter(g: Ledger, m: Move): (r: Ledger)
    requires Paired(g)
    ensures Paired(r)
  {
    var i, tools := Located(g.tools, m.tag), Ensured(g.tools, m.tag);
    var t := tools[i];
    var argued := Argue(t.arguments, m.text, m.final);
    var client := if i < |g.client| then g.client else g.client + [ToolCall(t.callId, t.name, "")];
    Ledger(tools[i := t.(announced := true, arguments := argued.stored)],
           client[i := client[i].(arguments := client[i].arguments + argued.emitted)])
  }

  function EnterAll(ms: seq<Move>): (r: Ledger)
    ensures Paired(r)
  {
    if ms == [] then Ledger([], []) else Enter(EnterAll(ms[..|ms| - 1]), ms[|ms| - 1])
  }

  lemma EnterAllSnoc(ms: seq<Move>, m: Move)
    ensures EnterAll(ms + [m]) == Enter(EnterAll(ms), m)
  {
    assert (ms + [m])[..|ms|] == ms;
  }

  // ---- The client has the stored arguments exactly when final values only ever extend -----------------

  ghost predicate Extends(g: Ledger, m: Move) {
    var i := Located(g.tools, m.tag);
    m.final && m.text != "" && i < |g.tools| ==> g.tools[i].arguments <= m.text
  }

  ghost predicate AlwaysExtends(ms: seq<Move>) {
    ms == [] || (AlwaysExtends(ms[..|ms| - 1]) && Extends(EnterAll(ms[..|ms| - 1]), ms[|ms| - 1]))
  }

  ghost predicate Agrees(g: Ledger) {
    |g.client| == |g.tools| && forall i :: 0 <= i < |g.tools| ==> g.client[i].arguments == g.tools[i].arguments
  }

  /** The client never has less than what is stored, and once it has more it always will. */
  ghost predicate NoLess(g: Ledger) {
    |g.client| == |g.tools| && forall i :: 0 <= i < |g.tools| ==>
      |g.client[i].arguments| >= |g.tools[i].arguments|
      && (|g.client[i].arguments| == |g.tools[i].arguments| ==> g.client[i].arguments == g.tools[i].arguments)
  }

  lemma EnterAgreesExactly(g: Ledger, m: Move)
    requires Paired(g) && NoLess(g)
    ensures NoLess(Enter(g, m))
    ensures Agrees(Enter(g, m)) <==> Agrees(g) && Extends(g, m)
  {
    var g' := Enter(g, m);
    var i := Located(g.tools, m.tag);
    assert forall j :: 0 <= j < |g.tools| && j != i ==>
      g'.client[j] == g.client[j] && g'.tools[j].arguments == g.tools[j].arguments;
    if i < |g.tools| {
      ArgueAgreesExactly(g.client[i].arguments, g.tools[i].arguments, m.text, m.final);
      assert g'.tools[i].arguments == Argue(g.tools[i].arguments, m.text, m.final).stored;
      if Agrees(g') {
        assert g'.client[i].arguments == g'.tools[i].arguments;
        assert forall j :: 0 <= j < |g.tools| ==> g'.client[j].arguments == g'.tools[j].arguments;
      }
    } else {
      ArgueAgreesExactly("", "", m.text, m.final);
      assert "" <= m.text;
      if Agrees(g') {
        assert forall j :: 0 <= j < |g.tools| ==> g'.client[j].arguments == g'.tools[j].arguments;
      }
    }
  }

  lemma ArgueAgreesExactly(had: string, stored: string, text: string, final: bool)
    requires |had| >= |stored| && (|had| == |stored| ==> had == stored)
    ensures var r := Argue(stored, text, final);
      && |had + r.emitted| >= |r.stored|
      && (|had + r.emitted| == |r.stored| ==> had + r.emitted == r.stored)
      && (had + r.emitted == r.stored <==> had == stored && (final && text != "" ==> stored <= text))
  {
    if final && text != "" && stored <= text {
      assert text == stored + text[|stored|..];
    }
  }

  lemma {:induction false} LedgerNoLess(ms: seq<Move>)
    ensures NoLess(EnterAll(ms))
    ensures Agrees(EnterAll(ms)) <==> AlwaysExtends(ms)
  {
    if ms != [] {
      var front, last := ms[..|ms| - 1], ms[|ms| - 1];
      LedgerNoLess(front);
      EnterAgreesExactly(EnterAll(front), last);
    }
  }

  // ---- Consistent labels ----------------------------------------------------------------------------------

  type Ids = map<int, string>

  /**
   * Every event names its output index, and no call id but the one that belongs to it. Calls whose
   * first event brings no id are given one, which must then not be mistaken for another call's.
   */
  ghost predicate Labelled(ms: seq<Move>, ids: Ids) {
    && IdsDistinct(ids)
    && (forall n :: 0 <= n < |ms| ==> LabelFits(ms[n].tag, ids))
    && (NoProxies(ids) || forall n :: 0 <= n < |ms| ==> Introduces(ms[..n], ms[n].tag))
  }

  /** The label brings a call id, unless its output index was mentioned before. */
  ghost predicate Introduces(before: seq<Move>, l: Label) {
    l.callId.Some? || exists k :: 0 <= k < |before| && before[k].tag.outputIndex == l.outputIndex
  }

  ghost predicate LabelFits(l: Label, ids: Ids) {
    l.outputIndex.Some? && l.outputIndex.value in ids && (l.callId.Some? ==> l.callId.value == ids[l.outputIndex.value])
  }

  ghost predicate IdsDistinct(ids: Ids) {
    forall x, y :: x in ids && y in ids && ids[x] == ids[y] ==> x == y
  }

  /** No call id looks like one the adapter makes up. */
  ghost predicate NoProxies(ids: Ids) {
    forall x, k: nat :: x in ids ==> ids[x] != ProxyId(k)
  }

  /** The output indices in the order of their first mention. */
  ghost function Mentions(ms: seq<Move>): seq<int>
    requires forall n :: 0 <= n < |ms| ==> ms[n].tag.outputIndex.Some?
  {
    if ms == [] then []
    else
      var before, oi := Mentions(ms[..|ms| - 1]), ms[|ms| - 1].tag.outputIndex.value;
      if oi in before then before else before + [oi]
  }

  ghost function IndexIn(s: seq<int>, x: int): (i: nat)
    ensures i <= |s| && (i < |s| ==> s[i] == x) && (forall j :: 0 <= j < i ==> s[j] != x)
    ensures i < |s| <==> x in s
  {
    if s == [] || s[0] == x then 0
    else
      var i := IndexIn(s[1..], x);
      assert forall j :: 1 <= j < |s| ==> s[j] == s[1..][j - 1];
      i + 1
  }

  /** The calls stand in the order of their output indices' first mention. */
  ghost predicate Filed(tools: seq<Tool>, mentions: seq<int>, ids: Ids) {
    && |tools| == |mentions| && NoDuplicates(mentions)
    && forall i :: 0 <= i < |tools| ==>
         tools[i].outputIndex == Some(mentions[i]) && mentions[i] in ids
         && FiledUnder(tools[i].callId, mentions[i], ids)
  }

  /** The call goes by its own id, or by one the adapter made up that is nobody else's. */
  ghost predicate FiledUnder(callId: string, oi: int, ids: Ids)
    requires oi in ids
  {
    callId == ids[oi] || (NoProxies(ids) && exists k: nat :: callId == ProxyId(k))
  }

  lemma LocatedByMention(tools: seq<Tool>, mentions: seq<int>, ids: Ids, l: Label)
    requires IdsDistinct(ids) && LabelFits(l, ids) && Filed(tools, mentions, ids)
    ensures Located(tools, l) == IndexIn(mentions, l.outputIndex.value)
  {
    var oi := l.outputIndex.value;
    var i := IndexIn(mentions, oi);
    var f := FindOutput(tools, oi);
    assert f < |tools| ==> tools[f].outputIndex == Some(mentions[f]);
    assert i < |tools| ==> tools[i].outputIndex == Some(oi);
    assert f == i;
    if l.callId.Some? {
      var c := FindCall(tools, l.callId.value);
      assert c < |tools| ==> tools[c].callId == ids[oi] && tools[c].callId == ids[mentions[c]];
      assert c < |tools| ==> mentions[c] == oi && c == i;
    }
  }

  lemma EnterFiles(g: Ledger, mentions: seq<int>, ids: Ids, m: Move)
    requires Paired(g) && IdsDistinct(ids) && LabelFits(m.tag, ids) && Filed(g.tools, mentions, ids)
    requires NoProxies(ids) || m.tag.callId.Some? || m.tag.outputIndex.value in mentions
    ensures var oi := m.tag.outputIndex.value;
      Filed(Enter(g, m).tools, if oi in mentions then mentions else mentions + [oi], ids)
  {
    var oi := m.tag.outputIndex.value;
    var mentions' := if oi in mentions then mentions else mentions + [oi];
    LocatedByMention(g.tools, mentions, ids, m.tag);
    var i, tools := Located(g.tools, m.tag), Enter(g, m).tools;
    assert forall j :: 0 <= j < |g.tools| && j != i ==> tools[j] == g.tools[j];
    EnteredTool(g, mentions, ids, m);
    forall j | 0 <= j < |tools|
      ensures tools[j].outputIndex == Some(mentions'[j]) && mentions'[j] in ids
      ensures FiledUnder(tools[j].callId, mentions'[j], ids)
    {
    }
  }

  lemma EnteredTool(g: Ledger, mentions: seq<int>, ids: Ids, m: Move)
    requires Paired(g) && IdsDistinct(ids) && LabelFits(m.tag, ids) && Filed(g.tools, mentions, ids)
    requires NoProxies(ids) || m.tag.callId.Some? || m.tag.outputIndex.value in mentions
    requires Located(g.tools, m.tag) == IndexIn(mentions, m.tag.outputIndex.value)
    ensures var t := Enter(g, m).tools[Located(g.tools, m.tag)];
      t.outputIndex == m.tag.outputIndex && FiledUnder(t.callId, m.tag.outputIndex.value, ids)
  {
    var i, oi := Located(g.tools, m.tag), m.tag.outputIndex.value;
    if i < |g.tools| {
      assert FiledUnder(g.tools[i].callId, mentions[i], ids);
    } else if m.tag.callId.None? {
      assert Enter(g, m).tools[i].callId == ProxyId(i);
    }
  }

  lemma {:induction false} RunFiles(ms: seq<Move>, ids: Ids)
    requires Labelled(ms, ids)
    ensures Filed(EnterAll(ms).tools, Mentions(ms), ids)
  {
    if ms != [] {
      var front, last := ms[..|ms| - 1], ms[|ms| - 1];
      LabelledPrefix(ms, ids, |front|);
      RunFiles(front, ids);
      assert LabelFits(last.tag, ids);
      if Introduces(front, last.tag) && last.tag.callId.None? {
        var k :| 0 <= k < |front| && front[k].tag.outputIndex == last.tag.outputIndex;
        MentionedAt(front, k);
      }
      EnterFiles(EnterAll(front), Mentions(front), ids, last);
    }
  }

  lemma LabelledPrefix(ms: seq<Move>, ids: Ids, n: nat)
    requires Labelled(ms, ids) && n <= |ms|
    ensures Labelled(ms[..n], ids)
  {
    assert forall k :: 0 <= k < n ==> ms[..n][..k] == ms[..k] && ms[..n][k] == ms[k];
  }

  lemma {:induction false} MentionedAt(ms: seq<Move>, k: nat)
    requires forall n :: 0 <= n < |ms| ==> ms[n].tag.outputIndex.Some?
    requires k < |ms|
    ensures ms[k].tag.outputIndex.value in Mentions(ms)
  {
    if k < |ms| - 1 {
      MentionedAt(ms[..|ms| - 1], k);
    }
  }

  lemma {:induction false} MentionsGrow(ms: seq<Move>, n: nat)
    requires n <= |ms| && forall k :: 0 <= k < |ms| ==> ms[k].tag.outputIndex.Some?
    ensures |Mentions(ms[..n])| <= |Mentions(ms)| && Mentions(ms)[..|Mentions(ms[..n])|] == Mentions(ms[..n])
  {
    if n == |ms| {
      assert ms[..n] == ms;
    } else {
      var front := ms[..|ms| - 1];
      assert front[..n] == ms[..n];
      MentionsGrow(front, n);
    }
  }

  /** With consistent labels every output index keeps one place, its own, for the whole stream. */
  lemma IndicesAreStable(ms: seq<Move>, ids: Ids, n: nat)
    requires Labelled(ms, ids) && n < |ms|
    ensures var oi := ms[n].tag.outputIndex.value;
      Located(EnterAll(ms[..n]).tools, ms[n].tag) == IndexIn(Mentions(ms), oi) < |Mentions(ms)|
    ensures NoDuplicates(Mentions(ms)) && |EnterAll(ms).tools| == |Mentions(ms)|
  {
    var oi := ms[n].tag.outputIndex.value;
    assert LabelFits(ms[n].tag, ids);
    LabelledPrefix(ms, ids, n);
    RunFiles(ms, ids);
    RunFiles(ms[..n], ids);
    LocatedByMention(EnterAll(ms[..n]).tools, Mentions(ms[..n]), ids, ms[n].tag);
    MentionKeepsPlace(ms, n);
  }

  /** Where an index is mentioned, or would be next, is where it stands in the end. */
  lemma MentionKeepsPlace(ms: seq<Move>, n: nat)
    requires n < |ms| && forall k :: 0 <= k < |ms| ==> ms[k].tag.outputIndex.Some?
    requires NoDuplicates(Mentions(ms))
    ensures var oi := ms[n].tag.outputIndex.value;
      IndexIn(Mentions(ms[..n]), oi) == IndexIn(Mentions(ms), oi) < |Mentions(ms)|
  {
    MentionsGrow(ms, n);
    MentionsGrow(ms, n + 1);
    assert ms[..n + 1][..n] == ms[..n];
    SamePlace(Mentions(ms[..n]), Mentions(ms), Mentions(ms[..n + 1]), ms[n].tag.outputIndex.value);
  }

  lemma SamePlace(early: seq<int>, all: seq<int>, later: seq<int>, oi: int)
    requires NoDuplicates(all) && later == if oi in early then early else early + [oi]
    requires |later| <= |all| && all[..|later|] == later
    ensures IndexIn(early, oi) == IndexIn(all, oi) < |all|
  {
    var i := IndexIn(early, oi);
    assert later[i] == oi && all[i] == later[i];
    var j := IndexIn(all, oi);
    assert i == j;
  }

  // ---- What each call amounts to --------------------------------------------------------------------------------

  ghost function Concerning(ms: seq<Move>, oi: int): seq<Move> {
    Filter((m: Move) => m.tag.outputIndex == Some(oi), ms)
  }

  /** What is stored for one call, and all that was sent of it. */
  ghost function Spoken(ms: seq<Move>): Argued {
    if ms == [] then Argued("", "")
    else
      var before, m := Spoken(ms[..|ms| - 1]), ms[|ms| - 1];
      var next := Argue(before.stored, m.text, m.final);
      Argued(next.stored, before.emitted + next.emitted)
  }

  /** The call the client ends up with: named by its first event, argued by all of them. */
  ghost function CallFrom(ms: seq<Move>, index: nat): ToolCall
    requires ms != []
  {
    ToolCall(ms[0].tag.callId.UnwrapOr(ProxyId(index)), ms[0].tag.name.UnwrapOr("tool"), Spoken(ms).emitted)
  }

  lemma ConcerningSnoc(ms: seq<Move>, m: Move, oi: int)
    ensures Concerning(ms + [m], oi) == Concerning(ms, oi) + if m.tag.outputIndex == Some(oi) then [m] else []
  {
    var keep := (x: Move) => x.tag.outputIndex == Some(oi);
    FilterConcat(keep, ms, [m]);
    assert [m][1..] == [];
    assert Filter(keep, [m]) == if keep(m) then [m] else [];
  }

  lemma SpokenSnoc(ms: seq<Move>, m: Move)
    ensures var next := Argue(Spoken(ms).stored, m.text, m.final);
      Spoken(ms + [m]) == Argued(next.stored, Spoken(ms).emitted + next.emitted)
  {
    assert (ms + [m])[..|ms|] == ms;
  }

  ghost predicate Accounted(g: Ledger, ms: seq<Move>, mentions: seq<int>) {
    && |g.tools| == |g.client| == |mentions|
    && forall i :: 0 <= i < |mentions| ==> AccountedAt(g, ms, mentions, i)
  }

  ghost predicate AccountedAt(g: Ledger, ms: seq<Move>, mentions: seq<int>, i: nat)
    requires i < |mentions| == |g.tools| == |g.client|
  {
    var own := Concerning(ms, mentions[i]);
    own != [] && g.tools[i].arguments == Spoken(own).stored && g.client[i] == CallFrom(own, i)
  }

  lemma {:induction false} UnmentionedUnconcerned(ms: seq<Move>, oi: int)
    requires forall n :: 0 <= n < |ms| ==> ms[n].tag.outputIndex.Some?
    ensures oi in Mentions(ms) <==> Concerning(ms, oi) != []
  {
    if ms != [] {
      var front, last := ms[..|ms| - 1], ms[|ms| - 1];
      UnmentionedUnconcerned(front, oi);
      assert ms == front + [last];
      ConcerningSnoc(front, last, oi);
    }
  }

  /** For consistently labelled events, each call is made of its own events and no others. */
  lemma {:induction false} CallsAccounted(ms: seq<Move>, ids: Ids)
    requires Labelled(ms, ids)
    ensures Accounted(EnterAll(ms), ms, Mentions(ms))
  {
    if ms != [] {
      var front, last := ms[..|ms| - 1], ms[|ms| - 1];
      assert ms == front + [last];
      LabelledPrefix(ms, ids, |front|);
      CallsAccounted(front, ids);
      RunFiles(front, ids);
      assert LabelFits(last.tag, ids);
      LocatedByMention(EnterAll(front).tools, Mentions(front), ids, last.tag);
      UnmentionedUnconcerned(front, last.tag.outputIndex.value);
      EnterAccounts(EnterAll(front), front, Mentions(front), last);
    }
  }

  lemma EnterAccounts(g: Ledger, ms: seq<Move>, mentions: seq<int>, m: Move)
    requires Paired(g) && m.tag.outputIndex.Some? && NoDuplicates(mentions)
    requires m.tag.outputIndex.value in mentions <==> Concerning(ms, m.tag.outputIndex.value) != []
    requires Accounted(g, ms, mentions)
    requires Located(g.tools, m.tag) == IndexIn(mentions, m.tag.outputIndex.value)
    ensures var oi := m.tag.outputIndex.value;
      Accounted(Enter(g, m), ms + [m], if oi in mentions then mentions else mentions + [oi])
  {
    var oi := m.tag.outputIndex.value;
    var mentions' := if oi in mentions then mentions else mentions + [oi];
    var g', k := Enter(g, m), IndexIn(mentions, oi);
    assert k < |mentions| ==> AccountedAt(g, ms, mentions, k);
    MovedAccounts(g, ms, mentions, m, k);
    ConcerningSnoc(ms, m, oi);
    assert AccountedAt(g', ms + [m], mentions', k);
    forall i | 0 <= i < |mentions| && i != k
      ensures AccountedAt(g', ms + [m], mentions', i)
    {
      assert AccountedAt(g, ms, mentions, i);
      OtherAccounts(g, ms, mentions, m, i);
    }
  }

  lemma OtherAccounts(g: Ledger, ms: seq<Move>, mentions: seq<int>, m: Move, i: nat)
    requires Paired(g) && i < |mentions| == |g.tools| && AccountedAt(g, ms, mentions, i)
    requires m.tag.outputIndex != Some(mentions[i]) && Located(g.tools, m.tag) != i
    ensures var own, g' := Concerning(ms + [m], mentions[i]), Enter(g, m);
      own == Concerning(ms, mentions[i]) && g'.tools[i] == g.tools[i] && g'.client[i] == g.client[i]
  {
    ConcerningSnoc(ms, m, mentions[i]);
  }

  lemma MovedAccounts(g: Ledger, ms: seq<Move>, mentions: seq<int>, m: Move, k: nat)
    requires Paired(g) && |g.tools| == |mentions| && m.tag.outputIndex.Some?
    requires k == Located(g.tools, m.tag) <= |mentions|
    requires k < |mentions| ==> mentions[k] == m.tag.outputIndex.value && AccountedAt(g, ms, mentions, k)
    requires k == |mentions| ==> Concerning(ms, m.tag.outputIndex.value) == []
    ensures var own, g' := Concerning(ms, m.tag.outputIndex.value) + [m], Enter(g, m);
      && g'.tools[k].arguments == Spoken(own).stored && g'.client[k] == CallFrom(own, k)
  {
    var before := Concerning(ms, m.tag.outputIndex.value);
    SpokenSnoc(before, m);
    assert (before + [m])[0] == if before == [] then m else before[0];
  }

  /** A call's events agree with its stored arguments when its final values extend them. */
  ghost predicate SpeaksPlainly(ms: seq<Move>) {
    forall n :: 0 <= n < |ms| && ms[n].final && ms[n].text != "" ==> Spoken(ms[..n]).stored <= ms[n].text
  }

  lemma {:induction false} PlainSpeechArrives(ms: seq<Move>)
    ensures |Spoken(ms).emitted| >= |Spoken(ms).stored|
    ensures |Spoken(ms).emitted| == |Spoken(ms).stored| ==> Spoken(ms).emitted == Spoken(ms).stored
    ensures SpeaksPlainly(ms) <==> Spoken(ms).emitted == Spoken(ms).stored
  {
    if ms != [] {
      var front, last := ms[..|ms| - 1], ms[|ms| - 1];
      PlainSpeechArrives(front);
      ArgueAgreesExactly(Spoken(front).emitted, Spoken(front).stored, last.text, last.final);
      assert forall n :: 0 <= n < |front| ==> ms[..n] == front[..n] && ms[n] == front[n];
    }
  }
}
