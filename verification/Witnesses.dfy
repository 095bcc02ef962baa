/**
 * Where the code does less than one might expect, it does so on inputs that can occur: for each limit
 * stated as an equivalence elsewhere, one that lies on the far side of it.
 */
module Witnesses {
  import opened Prelude
  import opened Models
  import opened Bus
  import opened CfState
  import opened AccountOps
  import opened Runs
  import ChatAdapter
  import ChatCompletion
  import ChatEndToEnd
  import ChatExample
  import ChatPipeline
  import ChatRefinement
  import Collector
  import ConversationRuns
  import ExecutionGuard
  import Json
  import LeaseSafety
  import Reconstruction
  import Replication
  import RetryLoop
  import SseFraming
  import SseRecord
  import StreamRelay
  import Text
  import Threads
  import ToolMoves
  import Upstream

  // ---- An event that nobody is told of --------------------------------------------------------------

  function DirectHit(id: AccountId, incidentId: string): Op {
    RouteEvent(id, Direct, CF_HIT, 0, incidentId, [])
  }

  function Unheard(id: AccountId): Op {
    RouteEvent(id, Direct, "", WARP_EJECTION, "", [])
  }

  /** A direct hit on an account that is not in warp raises its streak or sends it there. */
  lemma HitCounts(s: Store, id: AccountId, incidentId: string)
    requires Replication.LeaderInv(s) && id in s.routeStates && s.routeStates[id].warpEnteredAt.None?
    requires !KnowsIncident(s.incidents, incidentId)
    ensures Legal(s, DirectHit(id, incidentId))
    ensures var s' := RouteStep(s, DirectHit(id, incidentId)).store;
      && Replication.LeaderInv(s')
      && id in s'.routeStates && s'.routeStates[id] == AfterCfHit(s.routeStates[id], Direct, 0)
      && forall x :: KnowsIncident(s'.incidents, x) ==> x == incidentId || KnowsIncident(s.incidents, x)
  {
    Replication.RouteStepKeeps(s, DirectHit(id, incidentId));
    var r := AfterCfHit(s.routeStates[id], Direct, 0);
    var incident := IncidentOf(s, id, r, Severity(s.routeStates[id], Direct), incidentId, 0);
    assert RouteStep(s, DirectHit(id, incidentId)).store.incidents == Prepend(incident, s.incidents, INCIDENT_CAPACITY);
    PrependKnows(incident, s.incidents);
  }

  lemma PrependKnows(i: Incident, s: seq<Incident>)
    ensures forall x :: KnowsIncident(Prepend(i, s, INCIDENT_CAPACITY), x) ==> x == i.id || KnowsIncident(s, x)
  {
    var r := Prepend(i, s, INCIDENT_CAPACITY);
    forall x | KnowsIncident(r, x)
      ensures x == i.id || KnowsIncident(s, x)
    {
      var k :| 0 <= k < |r| && r[k].id == x;
      assert k > 0 ==> r[k] == s[k - 1];
    }
  }

  lemma {:induction false} RunOneMore(s: Store, ops: seq<Op>, op: Op, w: World)
    requires Replication.LeaderInv(s) && LeaseSafety.LegalRun(s, ops, w)
    requires Replication.LeaderInv(LeaseSafety.AfterRun(s, ops, w))
    requires Legal(LeaseSafety.AfterRun(s, ops, w), op)
    ensures LeaseSafety.LegalRun(s, ops + [op], w)
    ensures LeaseSafety.AfterRun(s, ops + [op], w) == Step(LeaseSafety.AfterRun(s, ops, w), op, w).store
    decreases |ops|
  {
    if ops == [] {
      assert ops + [op] == [op] && [op][1..] == [];
    } else {
      assert (ops + [op])[1..] == ops[1..] + [op] && (ops + [op])[0] == ops[0];
      Replication.StepKeeps(s, ops[0], w);
      RunOneMore(Step(s, ops[0], w).store, ops[1..], op, w);
    }
  }

  /** The run leads to a sound store in which the account has this route, and only these incidents are on file. */
  ghost predicate LeadsTo(ops: seq<Op>, w: World, id: AccountId, r: RouteState, incidents: set<string>) {
    && LeaseSafety.LegalRun(EMPTY_STORE, ops, w)
    && var s := LeaseSafety.AfterRun(EMPTY_STORE, ops, w);
       && Replication.LeaderInv(s) && id in s.routeStates && s.routeStates[id] == r
       && forall x :: KnowsIncident(s.incidents, x) ==> x in incidents
  }

  lemma ImportLeads(id: AccountId, request: ImportRequest, w: World)
    ensures LeadsTo([ImportAccount(id, request)], w, id, Fresh(id), {})
  {
    Replication.EmptyIsInvariant();
    Replication.PlainStepKeeps(EMPTY_STORE, ImportAccount(id, request));
    assert LeaseSafety.LegalRun(EMPTY_STORE, [], w) && LeaseSafety.AfterRun(EMPTY_STORE, [], w) == EMPTY_STORE;
    RunOneMore(EMPTY_STORE, [], ImportAccount(id, request), w);
    assert [] + [ImportAccount(id, request)] == [ImportAccount(id, request)];
  }

  lemma HitLeads(ops: seq<Op>, w: World, id: AccountId, r: RouteState, incidents: set<string>, incidentId: string)
    requires LeadsTo(ops, w, id, r, incidents) && r.warpEnteredAt.None? && incidentId !in incidents
    ensures LeadsTo(ops + [DirectHit(id, incidentId)], w, id, AfterCfHit(r, Direct, 0), incidents + {incidentId})
  {
    Replication.EmptyIsInvariant();
    var s := LeaseSafety.AfterRun(EMPTY_STORE, ops, w);
    HitCounts(s, id, incidentId);
    RunOneMore(EMPTY_STORE, ops, DirectHit(id, incidentId), w);
    HitIsAStep(s, DirectHit(id, incidentId), w);
  }

  lemma HitIsAStep(s: Store, op: Op, w: World)
    requires Inv(s) && Legal(s, op) && IsRouteChange(op)
    ensures Step(s, op, w) == RouteStep(s, op)
  {
  }

  function OneHit(id: AccountId, request: ImportRequest): seq<Op> {
    [ImportAccount(id, request)] + [DirectHit(id, "1")]
  }

  function TwoHits(id: AccountId, request: ImportRequest): seq<Op> {
    OneHit(id, request) + [DirectHit(id, "2")]
  }

  function ThreeHits(id: AccountId, request: ImportRequest): seq<Op> {
    TwoHits(id, request) + [DirectHit(id, "3")]
  }

  function HitsOn(r: RouteState, n: nat): RouteState {
    if n == 0 then r else AfterCfHit(HitsOn(r, n - 1), Direct, 0)
  }

  /** Two direct hits leave the account in direct mode, the third sends it to warp. */
  lemma ThirdHitEntersWarp(id: AccountId)
    ensures HitsOn(Fresh(id), 1).warpEnteredAt.None? && HitsOn(Fresh(id), 2).warpEnteredAt.None?
    ensures HitsOn(Fresh(id), 3).warpEnteredAt == Some(0)
  {
    var r1 := AfterCfHit(Fresh(id), Direct, 0);
    var r2 := AfterCfHit(r1, Direct, 0);
    assert HitsOn(Fresh(id), 1) == r1 && HitsOn(Fresh(id), 2) == r2;
  }

  lemma OneHitLeads(id: AccountId, request: ImportRequest, w: World)
    ensures LeadsTo(OneHit(id, request), w, id, HitsOn(Fresh(id), 1), {"1"})
  {
    ImportLeads(id, request, w);
    HitLeads([ImportAccount(id, request)], w, id, HitsOn(Fresh(id), 0), {}, "1");
    assert {} + {"1"} == {"1"};
  }

  lemma TwoHitsLead(id: AccountId, request: ImportRequest, w: World)
    ensures LeadsTo(TwoHits(id, request), w, id, HitsOn(Fresh(id), 2), {"1", "2"})
  {
    ThirdHitEntersWarp(id);
    OneHitLeads(id, request, w);
    HitLeads(OneHit(id, request), w, id, HitsOn(Fresh(id), 1), {"1"}, "2");
    assert {"1"} + {"2"} == {"1", "2"};
  }

  lemma ThreeHitsLead(id: AccountId, request: ImportRequest, w: World)
    ensures LeadsTo(ThreeHits(id, request), w, id, HitsOn(Fresh(id), 3), {"1", "2", "3"})
  {
    ThirdHitEntersWarp(id);
    TwoHitsLead(id, request, w);
    HitLeads(TwoHits(id, request), w, id, HitsOn(Fresh(id), 2), {"1", "2"}, "3");
    assert {"1", "2"} + {"3"} == {"1", "2", "3"};
  }

  /** Import an account, let it be hit three times, wait 72 hours, and report something unheard of. */
  lemma UnpublishedEventIsReachable(id: AccountId, request: ImportRequest, w: World)
    ensures LeaseSafety.LegalRun(EMPTY_STORE, ThreeHits(id, request), w)
    ensures var s := LeaseSafety.AfterRun(EMPTY_STORE, ThreeHits(id, request), w);
      && Replication.LeaderInv(s) && Legal(s, Unheard(id))
      && !Replication.Published(s, Unheard(id), w) && !Bridges(s, Step(s, Unheard(id), w))
  {
    ThirdHitEntersWarp(id);
    ThreeHitsLead(id, request, w);
    UnheardIsUnpublished(LeaseSafety.AfterRun(EMPTY_STORE, ThreeHits(id, request), w), id, w);
  }

  lemma UnheardIsUnpublished(s: Store, id: AccountId, w: World)
    requires Replication.LeaderInv(s) && id in s.routeStates && s.routeStates[id].warpEnteredAt == Some(0)
    requires !KnowsIncident(s.incidents, "")
    ensures Legal(s, Unheard(id))
    ensures !Replication.Published(s, Unheard(id), w) && !Bridges(s, Step(s, Unheard(id), w))
  {
    assert CF_HIT[0] == 'c' && SUCCESS[0] == 's';
    Replication.StepBridgesExactly(s, Unheard(id), w);
  }

  // ---- An unsafe link ----------------------------------------------------------------------------------

  function Child(tenant: Tenant): Op {
    UpsertThread(Threads.Upsert(tenant, "c", Some("p"), None, None, "", 0))
  }

  function Reparent(tenant: Tenant): Op {
    UpsertThread(Threads.Upsert(tenant, "p", Some("r"), None, None, "", 0))
  }

  /** After the first upsert the child is filed under its placeholder parent. */
  lemma ChildIsFiled(tenant: Tenant, w: World)
    ensures var threads := Threads.UpsertThread(EMPTY_STORE, Child(tenant).upsert, w.wording).store.threads;
      threads.Keys == {"c", "p"} && threads["c"].parentThreadId == Some("p")
  {
    Threads.UpsertThreadShape(EMPTY_STORE, Child(tenant).upsert, w.wording);
  }

  lemma ChildLeads(tenant: Tenant, w: World)
    ensures LeaseSafety.LegalRun(EMPTY_STORE, [Child(tenant)], w)
    ensures var s := LeaseSafety.AfterRun(EMPTY_STORE, [Child(tenant)], w);
      && Replication.LeaderInv(s)
      && s == Threads.UpsertThread(EMPTY_STORE, Child(tenant).upsert, w.wording).store
  {
    Replication.EmptyIsInvariant();
    Replication.StepKeeps(EMPTY_STORE, Child(tenant), w);
    assert LeaseSafety.LegalRun(EMPTY_STORE, [], w) && LeaseSafety.AfterRun(EMPTY_STORE, [], w) == EMPTY_STORE;
    RunOneMore(EMPTY_STORE, [], Child(tenant), w);
    assert [] + [Child(tenant)] == [Child(tenant)];
  }

  lemma ReparentIsUnsafe(s: Store, tenant: Tenant)
    requires s.threads.Keys == {"c", "p"} && s.threads["c"].parentThreadId == Some("p")
    ensures !ConversationRuns.LinksSafely(s, Reparent(tenant))
  {
    assert Threads.HasChild(s.threads, "p");
    assert "r" !in s.threads;
  }

  /** Give a thread a child, and then a parent: the child still names the old root. */
  lemma UnsafeLinkIsReachable(tenant: Tenant, w: World)
    ensures LeaseSafety.LegalRun(EMPTY_STORE, [Child(tenant)], w)
    ensures var s := LeaseSafety.AfterRun(EMPTY_STORE, [Child(tenant)], w);
      && Replication.LeaderInv(s) && Threads.Grounded(s.threads) && Legal(s, Reparent(tenant))
      && !Threads.Grounded(Step(s, Reparent(tenant), w).store.threads)
  {
    ChildLeads(tenant, w);
    ChildIsFiled(tenant, w);
    Threads.UpsertThreadKeepsForestExactly(EMPTY_STORE, Child(tenant).upsert, w.wording);
    var s := LeaseSafety.AfterRun(EMPTY_STORE, [Child(tenant)], w);
    ReparentIsUnsafe(s, tenant);
    ConversationRuns.StepKeepsForestExactly(s, Reparent(tenant), w);
  }

  // ---- Streams ---------------------------------------------------------------------------------------------

  const ALERT := StreamRelay.Classifier((r: string) => None, (r: string) => r == "a")

  const TWO_IN_ONE := [StreamRelay.Received("a\n\nb\n\n")]

  /** Two records in one chunk, the first of which releases the stream: the second is lost. */
  lemma PreflightTailIsLost(d: StreamRelay.Delivery)
    requires d.Delivered? && StreamRelay.Faithful(ALERT, TWO_IN_ONE, d)
    ensures d.handled == ["a"] && StreamRelay.Whole(TWO_IN_ONE) == ["a", "b"]
  {
    OneChunkIsRead(d.consumed);
    PassedAtOnce(TWO_IN_ONE);
    TwoRecords();
    OneIsHeld();
  }

  lemma PassedAtOnce(chunks: seq<StreamRelay.Chunk>)
    ensures var whole := StreamRelay.Whole(chunks);
      StreamRelay.Passed(ALERT, chunks, |chunks|, |chunks|)
      == StreamRelay.Visible(whole[..StreamRelay.HeldCount(ALERT, whole)])
  {
    assert chunks[..|chunks|] == chunks;
  }

  lemma OneChunkIsRead(n: nat)
    requires StreamRelay.PreflightAt(ALERT, TWO_IN_ONE, n)
    ensures n == 1
  {
    if n == 0 {
      assert TWO_IN_ONE[..0] == [];
      NothingStopsNothing();
    }
  }

  lemma NothingStopsNothing()
    ensures StreamRelay.NothingStops(ALERT, StreamRelay.Wire([]))
  {
  }

  lemma OneIsHeld()
    ensures var records := ["a", "b"];
      StreamRelay.Visible(records[..StreamRelay.HeldCount(ALERT, records)]) == ["a"]
  {
    var records := ["a", "b"];
    assert StreamRelay.Stops(ALERT, records[0]) && StreamRelay.StopIndex(ALERT, records) == 0;
    assert records[..1] == ["a"];
    AIsVisible();
  }

  lemma TwoRecords()
    ensures StreamRelay.Whole(TWO_IN_ONE) == ["a", "b"]
  {
    var text := "a\n\nb\n\n";
    assert [StreamRelay.Received(text)][1..] == [];
    assert StreamRelay.Texts([StreamRelay.Received(text)]) == [text];
    SseFraming.OneNormalized(text);
    NoCarriageReturn(text);
    TwoAreFramed();
  }

  lemma TwoAreFramed()
    ensures SseFraming.Frame("a\n\nb\n\n").records == ["a", "b"]
  {
    assert ["a", "b"][1..] == ["b"] && ["b"][1..] == [];
    assert SseFraming.Relayed(["a", "b"]) == "a\n\nb\n\n";
    SseFraming.RelayReframesExactly(["a", "b"]);
  }

  lemma {:induction false} NoCarriageReturn(s: string)
    requires forall i :: 0 <= i < |s| ==> s[i] != '\r'
    ensures SseFraming.Normalize(s) == s
  {
    if s != "" {
      NoCarriageReturn(s[1..]);
      assert s == [s[0]] + s[1..];
    }
  }

  lemma AIsVisible()
    ensures StreamRelay.Visible(["a"]) == ["a"]
  {
    assert StreamRelay.IsVisible("a");
    assert ["a"][1..] == [];
  }

  /** A CRLF cut in two leaves a carriage return behind and frames differently. */
  lemma SplitCrlfShows()
    ensures SseFraming.Splits(["a\r", "\nb"]) == 1
    ensures SseFraming.Frame(SseFraming.NormalizeEach(["a\r", "\nb"]))
         != SseFraming.Frame(SseFraming.Normalize(SseFraming.Flatten(["a\r", "\nb"])))
  {
    assert ["a\r", "\nb"][1..] == ["\nb"] && ["\nb"][1..] == [];
    assert SseFraming.Flatten(["\nb"]) == "\nb";
    SseFraming.ChunkingIsInvisibleExactly(["a\r", "\nb"]);
  }

  // ---- A completion without its blank line ------------------------------------------------------------------

  /** A completed event that tells a text nobody told before. */
  function TextOnly(text: string): ChatAdapter.Event {
    ChatAdapter.Event(ChatAdapter.Completed, Json.Object([Json.Member("response", Json.Object([
      Json.Member("status", Json.String("completed")),
      Json.Member("output", Json.Array([ChatExample.MessageItem(text)]))]))]))
  }

  /** Every document of this stream is that event's. */
  function OneDocument(text: string): SseRecord.Codec {
    SseRecord.Codec((data: string) => Some(TextOnly(text).value), (name: string) => ChatAdapter.Completed)
  }

  const NEVER := (v: Json.Value) => false
  const UNTERMINATED := [StreamRelay.Received("data:x")]
  const TRUSTING := StreamRelay.Classifier((r: string) => None, (r: string) => false)

  lemma TextOnlyTells(text: string)
    ensures var root := Json.Root(TextOnly(text).value);
      && Json.ItemsAt(root, "output") == [ChatExample.MessageItem(text)]
      && ChatCompletion.ResponseText(root) == text && ChatCompletion.ResponseCalls(root) == []
      && Reconstruction.IsCompleted(TextOnly(text).value)
  {
    var items := [ChatExample.MessageItem(text)];
    ChatExample.LookPast(Json.Member("response", Json.Root(TextOnly(text).value)), [], "response");
    ChatExample.Pair("status", Json.String("completed"), "output", Json.Array(items), "output");
    ChatExample.Pair("status", Json.String("completed"), "output", Json.Array(items), "status");
    ChatExample.MessageFields(text);
    FilterCons(ChatCompletion.IsAssistant, items[0], []);
    FilterCons(ChatCompletion.IsCall, items[0], []);
    assert [items[0]] + [] == items;
    assert ChatCompletion.ContentTexts(items) == [text];
    ChatExample.OnlyOne(text);
  }

  /** On its own the event is a well formed stream, and nothing was streamed beyond its output. */
  lemma TextOnlyIsWellFormed(text: string)
    ensures ChatEndToEnd.WellFormed([], TextOnly(text), map[])
    ensures ChatEndToEnd.NothingBeyond([], TextOnly(text), NEVER)
  {
    TextOnlyTells(text);
    var items := [ChatExample.MessageItem(text)];
    ChatExample.MessageFields(text);
    assert items[..0] == [] && ChatEndToEnd.CallPositions([]) == [];
    assert ChatEndToEnd.CallPositions(items) == [];
    NothingWritten(text);
  }

  lemma NothingWritten(text: string)
    ensures ChatEndToEnd.NothingBeyond([], TextOnly(text), NEVER)
  {
    TextOnlyTells(text);
    var p := Reconstruction.Piece(TextOnly(text).value, false);
    var ps := ChatEndToEnd.PiecesOf([] + [TextOnly(text)], NEVER);
    assert ps == [p] && ps[..0] == [];
    ChatExample.LookPast(Json.Member("response", Json.Root(p.value)), [], "output_index");
    ChatExample.LookPast(Json.Member("response", Json.Root(p.value)), [], "item");
    assert Reconstruction.Introduced(p).None?;
    forall i: nat | i >= 1
      ensures Reconstruction.LastWrite(ps, i).None?
    {
      assert Reconstruction.WrittenAt(p, i).None?;
    }
  }

  lemma UnterminatedFrames()
    ensures StreamRelay.Whole(UNTERMINATED) == []
    ensures Collector.LastRecord(SseFraming.Frame(StreamRelay.Wire(UNTERMINATED)).residue) == ["data:x"]
  {
    UnterminatedWire();
    NoBreak("data:x");
    Text.TrimFixed("data:x");
  }

  lemma UnterminatedWire()
    ensures StreamRelay.Wire(UNTERMINATED) == "data:x"
  {
    assert UNTERMINATED[1..] == [] && StreamRelay.Texts(UNTERMINATED) == ["data:x"];
    SseFraming.OneNormalized("data:x");
    NoCarriageReturn("data:x");
  }

  lemma {:induction false} NoBreak(s: string)
    requires forall i :: 0 <= i < |s| ==> s[i] != '\n'
    ensures SseFraming.FirstBreak(s) == |s|
  {
    if s != "" {
      NoBreak(s[1..]);
    }
  }

  lemma UnterminatedDecodes(text: string)
    ensures ChatPipeline.Decoded(["data:x"], OneDocument(text)) == [TextOnly(text)]
  {
    assert SseRecord.ParsedRecord("data:x") == Some(SseRecord.Parsed("", "x"));
    assert ["data:x"][..0] == [];
  }

  lemma UnterminatedEvents(text: string)
    ensures ChatPipeline.Decoded(Collector.AllRecords(UNTERMINATED), OneDocument(text)) == [] + [TextOnly(text)]
    ensures ChatPipeline.Decoded(["data:x"], OneDocument(text)) != []
    ensures Reconstruction.IsCompleted(TextOnly(text).value)
  {
    UnterminatedFrames();
    UnterminatedDecodes(text);
    TextOnlyTells(text);
    assert [] + ["data:x"] == ["data:x"] && [] + [TextOnly(text)] == [TextOnly(text)];
  }

  lemma TextIsLeftToSay(text: string, w: ChatCompletion.Wordlist)
    requires text != ""
    ensures !Collector.NothingLeftToSay([], TextOnly(text), w)
  {
    TextOnlyTells(text);
    assert ChatRefinement.Heard([]) == "";
  }

  /**
   * The completed event comes without its blank line: collected, the answer is its text; streamed, the
   * text never comes.
   */
  lemma UnterminatedCompletionIsDropped(
      id: string, model: string, text: string, r: ChatPipeline.Served, fallback: string, w: ChatCompletion.Wordlist)
    requires text != ""
    requires Collector.ServedInFull(r, false, TRUSTING, UNTERMINATED, id, model, OneDocument(text), w)
    ensures StreamRelay.Healthy(TRUSTING, UNTERMINATED)
    ensures !Collector.Agrees(
      r.out, Collector.Answer(TRUSTING, UNTERMINATED, OneDocument(text), NEVER), fallback, w)
  {
    var done, codec := TextOnly(text), OneDocument(text);
    UnterminatedFrames();
    UnterminatedEvents(text);
    TextOnlyIsWellFormed(text);
    TextIsLeftToSay(text, w);
    Collector.BothWaysAgreeExactly(UNTERMINATED, TRUSTING, false, id, model, codec, NEVER, w, r,
                                   [], done, map[], fallback);
  }

  // ---- Arguments that do not add up -------------------------------------------------------------------------

  /** The final value of a call's arguments. */
  function Finally(arguments: string): ChatAdapter.Event {
    ChatAdapter.Event(ChatAdapter.ArgumentsDone, Json.Object([
      Json.Member("output_index", Json.Int(1)), Json.Member("arguments", Json.String(arguments))]))
  }

  lemma FinallyMoves(arguments: string)
    ensures ChatRefinement.MoveOf(Finally(arguments))
       == Some(ToolMoves.Move(ChatAdapter.Label(Some(1), None, None), arguments, true))
  {
    forall key
      ensures Json.Get(Finally(arguments).value, key)
           == if key == "output_index" then Some(Json.Int(1))
              else if key == "arguments" then Some(Json.String(arguments)) else None
    {
      ChatExample.Pair("output_index", Json.Int(1), "arguments", Json.String(arguments), key);
    }
    var v := Finally(arguments).value;
    assert Json.Get(v, "call_id").None? && Json.Get(v, "name").None? && Json.Get(v, "delta").None?;
  }

  /** One fragment, and a final value that does not begin with it: the client is sent both. */
  lemma FragmentsDisagree(id: string, model: string, fragment: string, final: string, w: ChatCompletion.Wordlist)
    requires final != "" && !(fragment <= final)
    ensures var es := [ChatExample.Argued(fragment), Finally(final)];
      var r := ChatAdapter.TranslateAll(ChatAdapter.Fresh(id, model), es, w);
      var msg := ChatRefinement.ReadAll(ChatRefinement.BLANK, r.chunks);
      && !ToolMoves.AlwaysExtends(ChatRefinement.Moves(es))
      && exists i: nat ::
           i < |r.adapter.tools| && i in msg.tools && msg.tools[i].arguments != r.adapter.tools[i].arguments
  {
    var es := [ChatExample.Argued(fragment), Finally(final)];
    DisagreeingMoves(fragment, final);
    MovesDisagree(fragment, final);
    ChatRefinement.FragmentsSpellArgumentsExactly(id, model, es, w);
  }

  function TwoMoves(fragment: string, final: string): seq<ToolMoves.Move> {
    var l := ChatAdapter.Label(Some(1), None, None);
    [ToolMoves.Move(l, fragment, false)] + [ToolMoves.Move(l, final, true)]
  }

  lemma DisagreeingMoves(fragment: string, final: string)
    ensures ChatRefinement.Moves([ChatExample.Argued(fragment), Finally(final)]) == TwoMoves(fragment, final)
  {
    ChatExample.ArgueMoves(fragment);
    FinallyMoves(final);
    MovesOfTwo(ChatExample.Argued(fragment), Finally(final), TwoMoves(fragment, final)[0],
               TwoMoves(fragment, final)[1]);
  }

  lemma MovesOfTwo(e: ChatAdapter.Event, f: ChatAdapter.Event, m: ToolMoves.Move, n: ToolMoves.Move)
    requires ChatRefinement.MoveOf(e) == Some(m) && ChatRefinement.MoveOf(f) == Some(n)
    ensures ChatRefinement.Moves([e, f]) == [m] + [n]
  {
    ChatRefinement.MovesSnoc([], e);
    ChatRefinement.MovesSnoc([e], f);
    assert [] + [e] == [e] && [e] + [f] == [e, f];
  }

  lemma MovesDisagree(fragment: string, final: string)
    requires final != "" && !(fragment <= final)
    ensures !ToolMoves.AlwaysExtends(TwoMoves(fragment, final))
  {
    var ms := TwoMoves(fragment, final);
    assert ms[..1] == [ms[0]] && ms[..0] == [];
    ToolMoves.EnterAllSnoc([], ms[0]);
    assert [] + [ms[0]] == [ms[0]];
    var g := ToolMoves.EnterAll([ms[0]]);
    assert "" + fragment == fragment;
    assert |g.tools| == 1 && g.tools[0].outputIndex == Some(1) && g.tools[0].arguments == fragment;
    assert !ToolMoves.Extends(g, ms[1]);
  }

  // ---- Requests -----------------------------------------------------------------------------------------------

  /** One failure that calls for another account, when the selector has none. */
  lemma TurnIsLeftPending()
    ensures var p := RetryLoop.Run(RetryLoop.Start(false, 0), [RetryLoop.GENERIC.(offered := None)], 1);
      p.outcome.Left? && p.outcome.exit == RetryLoop.NoAccount && p.outcome.loop.pending
  {
  }

  /** A chat request that compacts its input goes round to find no lease. */
  lemma ChatLosesItsLease(next: RetryLoop.Round)
    ensures var s := RetryLoop.Start(false, 0);
      var r := RetryLoop.Round(true, RetryLoop.Hidden(Upstream.Length), true, Some(1));
      && RetryLoop.ChatTurn(s, r, 1).Again?
      && RetryLoop.ChatTurn(RetryLoop.ChatTurn(s, r, 1).loop, next, 1).Left?
      && RetryLoop.ChatTurn(RetryLoop.ChatTurn(s, r, 1).loop, next, 1).exit == RetryLoop.NoLease
  {
  }

  /** Take the guard of an account, and have the account deleted. */
  lemma GuardedAccountIsReachable(a: AccountId)
    ensures var steps := [ExecutionGuard.Request(0, a), ExecutionGuard.Acquire(0), ExecutionGuard.Count(0)];
      && ExecutionGuard.Run(ExecutionGuard.EMPTY, steps)
      && var s := ExecutionGuard.After(ExecutionGuard.EMPTY, steps);
         ExecutionGuard.CanDouble(ExecutionGuard.Next(s, ExecutionGuard.Delete(a)), a)
  {
    var request, acquire, count := ExecutionGuard.Request(0, a), ExecutionGuard.Acquire(0), ExecutionGuard.Count(0);
    var s1 := ExecutionGuard.Next(ExecutionGuard.EMPTY, request);
    var s2 := ExecutionGuard.Next(s1, acquire);
    var s3 := ExecutionGuard.Next(s2, count);
    assert ExecutionGuard.Run(s3, []) && ExecutionGuard.After(s3, []) == s3;
    GuardStep(s2, count, []);
    GuardStep(s1, acquire, [count]);
    GuardStep(ExecutionGuard.EMPTY, request, [acquire, count]);
    assert [count] + [] == [count];
    var steps := [request, acquire, count];
    assert [request] + ([acquire] + [count]) == steps && [acquire] + [count] == [acquire, count];
    assert s3.tasks[0].Guarding? && ExecutionGuard.SomeoneBound(s3, a);
    ExecutionGuard.ReachableDeletionDoublesExactly(steps, a);
  }

  lemma GuardStep(s: ExecutionGuard.State, e: ExecutionGuard.Step, rest: seq<ExecutionGuard.Step>)
    requires ExecutionGuard.Enabled(s, e) && ExecutionGuard.Run(ExecutionGuard.Next(s, e), rest)
    ensures ExecutionGuard.Run(s, [e] + rest)
    ensures ExecutionGuard.After(s, [e] + rest) == ExecutionGuard.After(ExecutionGuard.Next(s, e), rest)
  {
    assert ([e] + rest)[0] == e && ([e] + rest)[1..] == rest;
  }
}
