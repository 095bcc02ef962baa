/** The conversation a principal carries from one upstream account to the next. */
module Memory {
  import opened Prelude
  import opened Models
  import opened Bus
  import opened AccountOps
  import opened Summaries
  import Json
  import Text

  const TURN_LIMIT: nat := 12
  const PRESERVED_TURNS: nat := 4

  // ---- Turns come and go --------------------------------------------------------------------------

  /** The fixed phrases of the texts kept with a conversation. Nothing proved here depends on what they say. */
  datatype Wording = Wording(spineHead: string, spineTail: string, compactionMark: string, summaryHeading: string,
                             summaryRequest: string, placeholderTitle: string, placeholderSource: string,
                             tenantMark: string, threadMark: string)

  const GATEWAY_WORDING := Wording(
    "task_continuity=preserve\nmodel=", "\npreserve_tool_state=true\npreserve_decisions=true",
    "\ncompaction_summary=\n", SUMMARY_HEADING, "[compacted context]", "Imported parent thread",
    "header_parent_placeholder", "tenant:", "/thread:")

  const SUMMARY_HEADING := "[cmgr compacted thread summary]"

  function WorkflowSpine(model: string, w: Wording): string {
    w.spineHead + model + w.spineTail
  }

  function ContextOr(s: Store, p: PrincipalId): Context {
    if p in s.contexts then s.contexts[p] else Context("", "", "", None, [], None)
  }

  function Ensured(c: Context, p: PrincipalId, model: string, w: Wording): Context {
    c.(principalId := p, model := model,
       workflowSpine := if Text.IsBlank(c.workflowSpine) then WorkflowSpine(model, w) else c.workflowSpine)
  }

  function Publish(s: Store, c: Context): Outcome {
    Outcome(s.(contexts := s.contexts[c.principalId := c]), [ContextUpsert(c)])
  }

  function BeginTurn(s: Store, p: PrincipalId, model: string, pending: PendingTurn, now: Time, w: Wording): Outcome {
    Publish(s, Ensured(ContextOr(s, p), p, model, w).(pendingTurn := Some(pending), updatedAt := Some(now)))
  }

  function DiscardTurn(s: Store, p: PrincipalId, now: Time): Outcome {
    if p !in s.contexts || s.contexts[p].pendingTurn.None? then Outcome(s, SILENT)
    else Publish(s, s.contexts[p].(pendingTurn := None, updatedAt := Some(now)))
  }

  predicate IsFunctionCall(item: Json.Value) {
    Json.StringAt(item, "type") == Some("function_call")
  }

  function CompletedTurn(pending: PendingTurn, summary: string, responseId: Option<string>, output: seq<Json.Value>,
                         now: Time): Turn {
    Turn(pending.generation, pending.requestSummary, Some(summary), pending.requestInputItems, Success, responseId,
         output, exists i :: 0 <= i < |output| && IsFunctionCall(output[i]), None, now)
  }

  // ---- Compaction -----------------------------------------------------------------------------------

  function SummaryItem(summary: string, w: Wording): Json.Value {
    Json.Object([
      Json.Member("role", Json.String("developer")),
      Json.Member("content", Json.Array([Json.Object([
        Json.Member("type", Json.String("input_text")),
        Json.Member("text", Json.String(w.summaryHeading + "\n" + summary))])]))])
  }

  function SummaryTurn(generation: nat, summary: string, now: Time, w: Wording): Turn {
    Turn(generation, w.summaryRequest, Some(summary), [SummaryItem(summary, w)], Success, None, [], false,
         Some(COMPACTION_SUMMARY), now)
  }

  function Kept(preserve: nat): nat {
    if preserve < 2 then 2 else preserve
  }

  /** The summary of everything but the last `keep` turns stands in front of those. */
  function CompactedTurns(turns: seq<Turn>, keep: nat, merged: string, now: Time, w: Wording): seq<Turn>
    requires |turns| > keep
  {
    [SummaryTurn(turns[0].generation, merged, now, w)] + turns[|turns| - keep..]
  }

  function CompactedContext(c: Context, keep: nat, merged: string, now: Time, w: Wording): Context
    requires |c.turns| > keep
  {
    c.(turns := CompactedTurns(c.turns, keep, merged, now, w),
       workflowSpine := WorkflowSpine(c.model, w) + w.compactionMark + merged,
       updatedAt := Some(now))
  }

  function CompactedThread(t: Thread, merged: string, now: Time): Thread {
    t.(compactionSummary := Some(merged), lastCompactionAt := Some(now), status := "compacted", updatedAt := now)
  }

  /** The conversation without its archived turns, as it is left when these cannot be summarised. */
  function Drained(s: Store, p: PrincipalId, keep: nat): Store
    requires p in s.contexts && |s.contexts[p].turns| > keep
  {
    var c := s.contexts[p];
    s.(contexts := s.contexts[p := c.(turns := c.turns[|c.turns| - keep..])])
  }

  function PublishBoth(s: Store, c: Context, t: Thread): Outcome {
    Outcome(s.(contexts := s.contexts[c.principalId := c], threads := s.threads[t.threadId := t]),
            [ContextUpsert(c), ThreadUpsert(t)])
  }

  /** What is archived of a conversation that keeps its last `keep` turns. */
  function Archived(c: Context, keep: nat): seq<Turn>
    requires |c.turns| > keep
  {
    c.turns[..|c.turns| - keep]
  }

  /** The turns are taken out first: if they cannot be summarised they are gone, and nobody is told. */
  function Compact(s: Store, id: ThreadId, preserve: nat, now: Time, w: Wording): Outcome
    requires id in s.threads
  {
    var thread := s.threads[id];
    var p := thread.principalId;
    var keep := Kept(preserve);
    if p !in s.contexts || |s.contexts[p].turns| <= keep then Outcome(s, SILENT)
    else
      var c := s.contexts[p];
      var merged := Fold(thread.compactionSummary, Archived(c, keep), w.summaryHeading);
      if merged.None? then Outcome(Drained(s, p, keep), SILENT)
      else PublishBoth(s, CompactedContext(c, keep, merged.value, now, w), CompactedThread(thread, merged.value, now))
  }

  /** The compaction has nothing to archive, or what it archives can be summarised. */
  ghost predicate Completes(s: Store, id: ThreadId, preserve: nat, w: Wording)
    requires id in s.threads
  {
    var thread := s.threads[id];
    var p := thread.principalId;
    p in s.contexts && |s.contexts[p].turns| > Kept(preserve) ==>
      Foldable(thread.compactionSummary, Archived(s.contexts[p], Kept(preserve)), w.summaryHeading)
  }

  /**
   * The turn to be recorded fires no compaction, or one that can summarise what it archives: of the
   * turns on file all but the last three.
   */
  ghost predicate RecordCompletes(s: Store, p: PrincipalId, backing: Option<ThreadId>, w: Wording)
    requires backing.Some? ==> backing.value in s.threads
  {
    p in s.contexts && s.contexts[p].pendingTurn.Some? && |s.contexts[p].turns| >= TURN_LIMIT && backing.Some? ==>
      Foldable(s.threads[backing.value].compactionSummary, Archived(s.contexts[p], PRESERVED_TURNS - 1),
               w.summaryHeading)
  }

  /** `backing` is the thread found for the principal, if any thread has that principal. */
  ghost predicate Backs(s: Store, p: PrincipalId, backing: Option<ThreadId>) {
    match backing
    case None => forall t :: t in s.threads ==> s.threads[t].principalId != p
    case Some(t) => t in s.threads && s.threads[t].principalId == p
  }

  /** The turns on file once a turn is recorded, before any compaction. */
  function Grown(c: Context, summary: string, responseId: Option<string>, output: seq<Json.Value>, now: Time): seq<Turn>
    requires c.pendingTurn.Some?
  {
    c.turns + [CompletedTurn(c.pendingTurn.value, summary, responseId, output, now)]
  }

  /** The conversation once a turn is recorded and before it is compacted. */
  function Recorded(c: Context, summary: string, responseId: Option<string>, output: seq<Json.Value>,
                    now: Time): Context
    requires c.pendingTurn.Some?
  {
    c.(pendingTurn := None, turns := Grown(c, summary, responseId, output, now), updatedAt := Some(now))
  }

  function RecordTurn(
      s: Store, p: PrincipalId, summary: string, responseId: Option<string>, output: seq<Json.Value>, now: Time,
      backing: Option<ThreadId>, w: Wording): Outcome
    requires backing.Some? ==> backing.value in s.threads
  {
    if p !in s.contexts || s.contexts[p].pendingTurn.None? then Outcome(s, SILENT)
    else
      var c := s.contexts[p];
      var recorded := Publish(s, Recorded(c, summary, responseId, output, now));
      if |c.turns| + 1 > TURN_LIMIT && backing.Some? then
        var compacted := Compact(recorded.store, backing.value, PRESERVED_TURNS, now, w);
        Then(recorded, compacted)
      else recorded
  }

  // ---- Replay ---------------------------------------------------------------------------------------

  predicate IsSuccessful(t: Turn) {
    t.outcome == Success
  }

  predicate IsTyped(item: Json.Value) {
    Json.StringAt(item, "type").Some?
  }

  function SuccessfulTurns(c: Context): seq<Turn> {
    Filter(IsSuccessful, c.turns)
  }

  function TypedItems(items: seq<Json.Value>): seq<Json.Value> {
    Filter(IsTyped, items)
  }

  function ReplayOf(t: Turn): seq<Json.Value> {
    if IsSummary(t) then t.requestInputItems else t.requestInputItems + TypedItems(t.responseOutputItems)
  }

  /** One turn that kept no request items makes the whole structured replay impossible. */
  function ReplayItems(turns: seq<Turn>): Option<seq<Json.Value>> {
    if turns == [] then Some([])
    else if turns[0].requestInputItems == [] then None
    else
      var rest := ReplayItems(turns[1..]);
      if rest.None? then None else Some(ReplayOf(turns[0]) + rest.value)
  }

  function StructuredReplay(turns: seq<Turn>): Option<seq<Json.Value>> {
    if ReplayItems(turns) == Some([]) then None else ReplayItems(turns)
  }

  method BuildStructuredReplay(turns: seq<Turn>) returns (r: Option<seq<Json.Value>>)
    ensures r == StructuredReplay(turns)
  {
    var items: seq<Json.Value> := [];
    assert turns[0..] == turns;
    PrefixedNothing(ReplayItems(turns));
    for i := 0 to |turns|
      invariant ReplayItems(turns) == Prefixed(items, ReplayItems(turns[i..]))
    {
      var turn := turns[i];
      assert turns[i..][0] == turn && turns[i..][1..] == turns[i + 1..];
      PrefixedTwice(items, ReplayOf(turn), ReplayItems(turns[i + 1..]));
      if turn.syntheticKind == Some(COMPACTION_SUMMARY) {
        if turn.requestInputItems == [] {
          return None;
        }
        items := items + turn.requestInputItems;
        continue;
      }
      if turn.requestInputItems == [] {
        return None;
      }
      assert items + turn.requestInputItems + TypedItems(turn.responseOutputItems) == items + ReplayOf(turn);
      items := items + turn.requestInputItems;
      items := items + TypedItems(turn.responseOutputItems);
    }
    assert items + [] == items;
    r := if items == [] then None else Some(items);
  }

  function Prefixed(items: seq<Json.Value>, rest: Option<seq<Json.Value>>): Option<seq<Json.Value>> {
    if rest.None? then None else Some(items + rest.value)
  }

  lemma PrefixedNothing(rest: Option<seq<Json.Value>>)
    ensures Prefixed([], rest) == rest
  {
    if rest.Some? {
      assert [] + rest.value == rest.value;
    }
  }

  lemma PrefixedTwice(a: seq<Json.Value>, b: seq<Json.Value>, rest: Option<seq<Json.Value>>)
    ensures Prefixed(a, Prefixed(b, rest)) == Prefixed(a + b, rest)
  {
    if rest.Some? {
      assert a + (b + rest.value) == (a + b) + rest.value;
    }
  }

  datatype Recovery = FailoverStabilization | ContinuationRecovery

  /**
   * The text sent along with a plan. A note is headed by the recovery it belongs to; a transcript names
   * it too, with the generation and the previous response. How either is laid out is not modelled.
   */
  datatype Fallback =
    | NoText
    | StructuredNote(recovery: Recovery, turnCount: nat, itemCount: nat)
    | Transcript(recovery: Recovery, generation: nat, previousId: Option<string>, context: Context, turns: seq<Turn>)

  datatype ReplayPlan = ReplayPlan(items: seq<Json.Value>, fallback: Fallback, dropPreviousResponseId: bool)

  const NO_REPLAY := ReplayPlan([], NoText, false)

  /** A previous response id counts only if there is something to it. */
  function Named(previousId: Option<string>): Option<string> {
    if previousId.Some? && !Text.IsBlank(previousId.value) then Some(Text.Trim(previousId.value)) else None
  }

  function PlanFor(c: Context, recovery: Recovery, generation: nat, previousId: Option<string>): ReplayPlan {
    var turns := SuccessfulTurns(c);
    match StructuredReplay(turns)
    case Some(items) => ReplayPlan(items, StructuredNote(recovery, |turns|, |items|), true)
    case None =>
      var text := if turns == [] then NoText else Transcript(recovery, generation, Named(previousId), c, turns);
      ReplayPlan([], text, true)
  }

  /** After a failover the generation is above 1, and the conversation has to be replayed. */
  function ReplayPlanFor(s: Store, p: PrincipalId, generation: nat, previousId: Option<string>): ReplayPlan {
    if generation <= 1 || p !in s.contexts then NO_REPLAY
    else PlanFor(s.contexts[p], FailoverStabilization, generation, previousId)
  }

  function ContinuationPlanFor(s: Store, p: PrincipalId, previousId: Option<string>): ReplayPlan {
    if p !in s.contexts then NO_REPLAY.(dropPreviousResponseId := true)
    else PlanFor(s.contexts[p], ContinuationRecovery, 1, previousId)
  }

  // ---- What every context keeps -----------------------------------------------------------------------

  /** Only completed turns, and a summary only at the very front. */
  ghost predicate TurnsInv(turns: seq<Turn>) {
    && (forall i :: 0 <= i < |turns| ==> turns[i].outcome == Success)
    && (forall i :: 0 < i < |turns| ==> !IsSummary(turns[i]))
  }

  ghost predicate ContextsInv(s: Store) {
    forall p :: p in s.contexts ==> TurnsInv(s.contexts[p].turns)
  }

  lemma CompactKeeps(s: Store, id: ThreadId, preserve: nat, now: Time, w: Wording)
    requires ContextsInv(s) && id in s.threads
    ensures ContextsInv(Compact(s, id, preserve, now, w).store)
  {
    var p, keep := s.threads[id].principalId, Kept(preserve);
    if p in s.contexts && |s.contexts[p].turns| > keep {
      var c := s.contexts[p];
      CompactCases(s, id, preserve, now, w);
      SuffixInv(c.turns, keep);
      var merged := Fold(s.threads[id].compactionSummary, Archived(c, keep), w.summaryHeading);
      if merged.Some? {
        CompactedTurnsInv(c.turns, keep, merged.value, now, w);
        ContextWritten(s, CompactedContext(c, keep, merged.value, now, w), c.principalId,
                       Compact(s, id, preserve, now, w).store);
      } else {
        ContextWritten(s, c.(turns := c.turns[|c.turns| - keep..]), p, Drained(s, p, keep));
      }
    }
  }

  lemma ContextWritten(s: Store, c: Context, p: PrincipalId, s': Store)
    requires ContextsInv(s) && TurnsInv(c.turns) && s'.contexts == s.contexts[p := c]
    ensures ContextsInv(s')
  {
  }

  lemma CompactedTurnsInv(turns: seq<Turn>, keep: nat, merged: string, now: Time, w: Wording)
    requires TurnsInv(turns) && |turns| > keep
    ensures TurnsInv(CompactedTurns(turns, keep, merged, now, w))
  {
    var split := |turns| - keep;
    var r := CompactedTurns(turns, keep, merged, now, w);
    assert forall i :: 0 < i < |r| ==> r[i] == turns[split + i - 1];
  }

  lemma SuffixInv(turns: seq<Turn>, keep: nat)
    requires TurnsInv(turns) && |turns| > keep
    ensures TurnsInv(turns[|turns| - keep..])
  {
    var split := |turns| - keep;
    assert forall i :: 0 <= i < keep ==> turns[split..][i] == turns[split + i];
  }

  // ---- What recording and compacting do to the conversation ----------------------------------------------

  /** What is archived when a turn is recorded does not depend on that turn. */
  lemma ArchivedBefore(c: Context, summary: string, responseId: Option<string>, output: seq<Json.Value>, now: Time)
    requires c.pendingTurn.Some? && |c.turns| >= TURN_LIMIT
    ensures Archived(Recorded(c, summary, responseId, output, now), PRESERVED_TURNS) == Archived(c, PRESERVED_TURNS - 1)
  {
  }

  /** Whether the compaction completes can be told before the turn is recorded. */
  lemma CompletesOnceRecorded(
      s: Store, p: PrincipalId, summary: string, responseId: Option<string>, output: seq<Json.Value>, now: Time,
      id: ThreadId, w: Wording)
    requires Keyed(s) && p in s.contexts && s.contexts[p].pendingTurn.Some? && Backs(s, p, Some(id))
    requires |s.contexts[p].turns| >= TURN_LIMIT
    ensures var s1 := Publish(s, Recorded(s.contexts[p], summary, responseId, output, now)).store;
      && Keyed(s1) && id in s1.threads
      && (Completes(s1, id, PRESERVED_TURNS, w) <==> RecordCompletes(s, p, Some(id), w))
  {
    ArchivedBefore(s.contexts[p], summary, responseId, output, now);
  }

  /** The summary a recorded turn's compaction would write, if it can. */
  function FoldedBy(s: Store, p: PrincipalId, id: ThreadId, w: Wording): Option<string>
    requires p in s.contexts && |s.contexts[p].turns| >= TURN_LIMIT && id in s.threads
  {
    Fold(s.threads[id].compactionSummary, Archived(s.contexts[p], PRESERVED_TURNS - 1), w.summaryHeading)
  }

  /** The turns a conversation is left with when a recorded turn fires compaction. */
  function Shortened(s: Store, p: PrincipalId, id: ThreadId, all: seq<Turn>, now: Time, w: Wording): seq<Turn>
    requires p in s.contexts && |all| > |s.contexts[p].turns| >= TURN_LIMIT && id in s.threads
  {
    var merged := FoldedBy(s, p, id, w);
    if merged.Some? then CompactedTurns(all, PRESERVED_TURNS, merged.value, now, w)
    else all[|all| - PRESERVED_TURNS..]
  }

  lemma RecordThenCompact(
      s: Store, p: PrincipalId, summary: string, responseId: Option<string>, output: seq<Json.Value>, now: Time,
      id: ThreadId, w: Wording)
    requires p in s.contexts && s.contexts[p].principalId == p && s.contexts[p].pendingTurn.Some?
    requires Backs(s, p, Some(id)) && |s.contexts[p].turns| >= TURN_LIMIT
    ensures var all := Grown(s.contexts[p], summary, responseId, output, now);
      var s' := RecordTurn(s, p, summary, responseId, output, now, Some(id), w).store;
      && p in s'.contexts && s'.contexts[p].pendingTurn.None?
      && s'.contexts[p].turns == Shortened(s, p, id, all, now, w)
  {
    var c := Recorded(s.contexts[p], summary, responseId, output, now);
    var s1 := Publish(s, c).store;
    RecordingCompacts(s, p, summary, responseId, output, now, id, w);
    FoldedLater(s, p, summary, responseId, output, now, id, w);
    CompactShortens(s1, p, id, FoldedBy(s, p, id, w), now, w);
  }

  lemma FoldedLater(
      s: Store, p: PrincipalId, summary: string, responseId: Option<string>, output: seq<Json.Value>, now: Time,
      id: ThreadId, w: Wording)
    requires p in s.contexts && s.contexts[p].pendingTurn.Some? && |s.contexts[p].turns| >= TURN_LIMIT
    requires id in s.threads
    ensures var c := Recorded(s.contexts[p], summary, responseId, output, now);
      FoldedBy(s, p, id, w) == Fold(s.threads[id].compactionSummary, Archived(c, PRESERVED_TURNS), w.summaryHeading)
  {
    ArchivedBefore(s.contexts[p], summary, responseId, output, now);
  }

  /** What recording the thirteenth turn leaves is what compacting leaves of the recorded conversation. */
  lemma RecordingCompacts(
      s: Store, p: PrincipalId, summary: string, responseId: Option<string>, output: seq<Json.Value>, now: Time,
      id: ThreadId, w: Wording)
    requires p in s.contexts && s.contexts[p].principalId == p && s.contexts[p].pendingTurn.Some?
    requires id in s.threads && |s.contexts[p].turns| >= TURN_LIMIT
    ensures var c := Recorded(s.contexts[p], summary, responseId, output, now);
      var s1 := Publish(s, c).store;
      && s1.threads == s.threads && p in s1.contexts && s1.contexts[p] == c
      && RecordTurn(s, p, summary, responseId, output, now, Some(id), w).store
         == Compact(s1, id, PRESERVED_TURNS, now, w).store
  {
  }

  lemma CompactShortens(s: Store, p: PrincipalId, id: ThreadId, merged: Option<string>, now: Time, w: Wording)
    requires id in s.threads && s.threads[id].principalId == p
    requires p in s.contexts && s.contexts[p].principalId == p && |s.contexts[p].turns| > PRESERVED_TURNS
    requires merged
          == Fold(s.threads[id].compactionSummary, Archived(s.contexts[p], PRESERVED_TURNS), w.summaryHeading)
    ensures var c, s' := s.contexts[p], Compact(s, id, PRESERVED_TURNS, now, w).store;
      && p in s'.contexts && s'.contexts[p].pendingTurn == c.pendingTurn
      && s'.contexts[p].turns ==
           if merged.Some? then CompactedTurns(c.turns, PRESERVED_TURNS, merged.value, now, w)
           else c.turns[|c.turns| - PRESERVED_TURNS..]
  {
    CompactCases(s, id, PRESERVED_TURNS, now, w);
  }

  /** A compaction with something to archive either publishes the summary or leaves the turns drained. */
  lemma CompactCases(s: Store, id: ThreadId, preserve: nat, now: Time, w: Wording)
    requires id in s.threads && s.threads[id].principalId in s.contexts
    requires |s.contexts[s.threads[id].principalId].turns| > Kept(preserve)
    ensures var thread, p, keep := s.threads[id], s.threads[id].principalId, Kept(preserve);
      var c := s.contexts[p];
      var merged := Fold(thread.compactionSummary, Archived(c, keep), w.summaryHeading);
      Compact(s, id, preserve, now, w) ==
        if merged.None? then Outcome(Drained(s, p, keep), SILENT)
        else PublishBoth(s, CompactedContext(c, keep, merged.value, now, w), CompactedThread(thread, merged.value, now))
  {
  }

  lemma CompactedShape(turns: seq<Turn>, keep: nat, merged: string, now: Time, w: Wording)
    requires |turns| > keep
    ensures var r := CompactedTurns(turns, keep, merged, now, w);
      |r| == keep + 1 && IsSummary(r[0]) && r[1..] == turns[|turns| - keep..]
  {
  }

  /**
   * Recording a turn adds exactly it, or, past twelve, leaves the last four behind a summary of the
   * others; if the others cannot be summarised the last four are left alone.
   */
  lemma RecordTurnKeepsSuffix(
      s: Store, p: PrincipalId, summary: string, responseId: Option<string>, output: seq<Json.Value>, now: Time,
      backing: Option<ThreadId>, w: Wording)
    requires Keyed(s) && p in s.contexts && s.contexts[p].pendingTurn.Some? && Backs(s, p, backing)
    ensures var before, all := s.contexts[p].turns, Grown(s.contexts[p], summary, responseId, output, now);
      var s' := RecordTurn(s, p, summary, responseId, output, now, backing, w).store;
      && p in s'.contexts && s'.contexts[p].pendingTurn.None?
      && var after := s'.contexts[p].turns;
         if |before| < TURN_LIMIT || backing.None? then after == all
         else if RecordCompletes(s, p, backing, w) then
           |after| == PRESERVED_TURNS + 1 && IsSummary(after[0]) && after[1..] == all[|all| - PRESERVED_TURNS..]
         else after == all[|all| - PRESERVED_TURNS..]
  {
    if |s.contexts[p].turns| >= TURN_LIMIT && backing.Some? {
      var all := Grown(s.contexts[p], summary, responseId, output, now);
      RecordThenCompact(s, p, summary, responseId, output, now, backing.value, w);
      FoldedByExactly(s, p, backing.value, w);
      var merged := FoldedBy(s, p, backing.value, w);
      if merged.Some? {
        CompactedShape(all, PRESERVED_TURNS, merged.value, now, w);
      }
    } else {
      RecordOnly(s, p, summary, responseId, output, now, backing, w);
    }
  }

  lemma FoldedByExactly(s: Store, p: PrincipalId, id: ThreadId, w: Wording)
    requires p in s.contexts && s.contexts[p].pendingTurn.Some? && |s.contexts[p].turns| >= TURN_LIMIT
    requires id in s.threads
    ensures FoldedBy(s, p, id, w).Some? <==> RecordCompletes(s, p, Some(id), w)
  {
    FoldsExactly(s.threads[id].compactionSummary, Archived(s.contexts[p], PRESERVED_TURNS - 1), w.summaryHeading);
  }

  lemma RecordOnly(
      s: Store, p: PrincipalId, summary: string, responseId: Option<string>, output: seq<Json.Value>, now: Time,
      backing: Option<ThreadId>, w: Wording)
    requires Keyed(s) && p in s.contexts && s.contexts[p].pendingTurn.Some? && Backs(s, p, backing)
    requires |s.contexts[p].turns| < TURN_LIMIT || backing.None?
    ensures var s' := RecordTurn(s, p, summary, responseId, output, now, backing, w).store;
      && p in s'.contexts && s'.contexts[p].pendingTurn.None?
      && s'.contexts[p].turns == Grown(s.contexts[p], summary, responseId, output, now)
  {
  }

  /** A thread-backed context that starts at twelve turns or fewer is still there after every recorded turn. */
  lemma RecordTurnStaysBounded(
      s: Store, p: PrincipalId, summary: string, responseId: Option<string>, output: seq<Json.Value>, now: Time,
      backing: Option<ThreadId>, w: Wording)
    requires Keyed(s) && p in s.contexts && Backs(s, p, backing) && backing.Some?
    requires |s.contexts[p].turns| <= TURN_LIMIT
    ensures |RecordTurn(s, p, summary, responseId, output, now, backing, w).store.contexts[p].turns| <= TURN_LIMIT
  {
    if s.contexts[p].pendingTurn.Some? {
      RecordTurnKeepsSuffix(s, p, summary, responseId, output, now, backing, w);
    }
  }

  lemma {:induction false} AllSuccessful(turns: seq<Turn>)
    requires TurnsInv(turns)
    ensures Filter(IsSuccessful, turns) == turns
  {
    if turns != [] {
      assert turns[0].outcome == Success;
      assert TurnsInv(turns[1..]) by {
        assert forall i :: 0 <= i < |turns| - 1 ==> turns[1..][i] == turns[i + 1];
      }
      AllSuccessful(turns[1..]);
    }
  }

  /** `plan` drops the old response id and sends `front` and then the structured replay of `turns`. */
  ghost predicate Replays(plan: ReplayPlan, front: seq<Json.Value>, turns: seq<Turn>) {
    var tail := StructuredReplay(turns);
    plan.dropPreviousResponseId && plan.items == if tail.Some? then front + tail.value else []
  }

  /** Compaction replaces what it folds by one summary item and leaves the replay of the rest alone. */
  lemma CompactedReplay(turns: seq<Turn>, keep: nat, merged: string, now: Time, w: Wording)
    requires TurnsInv(turns) && 2 <= keep < |turns|
    ensures var tail := StructuredReplay(turns[|turns| - keep..]);
      StructuredReplay(CompactedTurns(turns, keep, merged, now, w))
      == if tail.Some? then Some([SummaryItem(merged, w)] + tail.value) else None
  {
    var split := |turns| - keep;
    var r := CompactedTurns(turns, keep, merged, now, w);
    assert r[1..] == turns[split..];
    assert IsSummary(r[0]);
    NonemptyReplay(turns[split..]);
  }

  lemma NonemptyReplay(turns: seq<Turn>)
    requires turns != []
    ensures StructuredReplay(turns) == ReplayItems(turns)
  {
  }

  /**
   * When recording fires compaction, the plan built after the next failover sends the structured replay
   * of the four newest turns, behind the summary item exactly if the others could be summarised.
   */
  lemma ReplayAfterCompaction(
      s: Store, p: PrincipalId, summary: string, responseId: Option<string>, output: seq<Json.Value>, now: Time,
      id: ThreadId, generation: nat, previousId: Option<string>, w: Wording, s': Store, all: seq<Turn>)
    requires Keyed(s) && ContextsInv(s) && generation > 1
    requires p in s.contexts && s.contexts[p].pendingTurn.Some? && Backs(s, p, Some(id))
    requires |s.contexts[p].turns| >= TURN_LIMIT
    requires s' == RecordTurn(s, p, summary, responseId, output, now, Some(id), w).store
    requires all == Grown(s.contexts[p], summary, responseId, output, now)
    ensures RecordCompletes(s, p, Some(id), w) <==> FoldedBy(s, p, id, w).Some?
    ensures Replays(ReplayPlanFor(s', p, generation, previousId), Front(FoldedBy(s, p, id, w), w),
                    all[|all| - PRESERVED_TURNS..])
  {
    FoldedByExactly(s, p, id, w);
    GrownTurnsInv(s, p, summary, responseId, output, now);
    RecordThenCompact(s, p, summary, responseId, output, now, id, w);
    ShortenedReplay(s, p, id, all, now, w);
    PlanOfSuccessful(s', p, generation, previousId);
  }

  /** What the replay of a shortened conversation begins with. */
  function Front(merged: Option<string>, w: Wording): seq<Json.Value> {
    if merged.Some? then [SummaryItem(merged.value, w)] else []
  }

  lemma ShortenedReplay(s: Store, p: PrincipalId, id: ThreadId, all: seq<Turn>, now: Time, w: Wording)
    requires p in s.contexts && |all| > |s.contexts[p].turns| >= TURN_LIMIT && id in s.threads && TurnsInv(all)
    ensures TurnsInv(Shortened(s, p, id, all, now, w))
    ensures var tail := StructuredReplay(all[|all| - PRESERVED_TURNS..]);
      StructuredReplay(Shortened(s, p, id, all, now, w)) ==
        if tail.Some? then Some(Front(FoldedBy(s, p, id, w), w) + tail.value) else None
  {
    var merged := FoldedBy(s, p, id, w);
    if merged.Some? {
      CompactedTurnsInv(all, PRESERVED_TURNS, merged.value, now, w);
      CompactedReplay(all, PRESERVED_TURNS, merged.value, now, w);
    } else {
      SuffixInv(all, PRESERVED_TURNS);
      NothingInFront(StructuredReplay(all[|all| - PRESERVED_TURNS..]));
    }
  }

  lemma NothingInFront(tail: Option<seq<Json.Value>>)
    ensures tail.Some? ==> [] + tail.value == tail.value
  {
  }

  lemma GrownTurnsInv(s: Store, p: PrincipalId, summary: string, responseId: Option<string>, output: seq<Json.Value>,
                      now: Time)
    requires ContextsInv(s) && p in s.contexts && s.contexts[p].pendingTurn.Some?
    ensures TurnsInv(Grown(s.contexts[p], summary, responseId, output, now))
  {
    assert TurnsInv(s.contexts[p].turns);
  }

  lemma PlanOfSuccessful(s: Store, p: PrincipalId, generation: nat, previousId: Option<string>)
    requires p in s.contexts && TurnsInv(s.contexts[p].turns) && generation > 1
    ensures var plan, items := ReplayPlanFor(s, p, generation, previousId), StructuredReplay(s.contexts[p].turns);
      plan.dropPreviousResponseId && plan.items == items.UnwrapOr([])
  {
    AllSuccessful(s.contexts[p].turns);
  }

  /** Of all conversations at most the one of `p` changes, and threads keep their places. */
  ghost predicate OnlyFolds(s: Store, s': Store, p: PrincipalId) {
    && s'.threads.Keys == s.threads.Keys && s'.contexts.Keys == s.contexts.Keys
    && (forall q :: q in s.contexts && q != p ==> s'.contexts[q] == s.contexts[q])
    && (forall t :: t in s.threads ==> SamePlace(s.threads[t], s'.threads[t]))
  }

  predicate SamePlace(t: Thread, t': Thread) {
    t'.parentThreadId == t.parentThreadId && t'.rootThreadId == t.rootThreadId && t'.principalId == t.principalId
  }

  lemma CompactFolds(s: Store, id: ThreadId, preserve: nat, now: Time, w: Wording)
    requires Keyed(s) && id in s.threads
    ensures OnlyFolds(s, Compact(s, id, preserve, now, w).store, s.threads[id].principalId)
  {
    var thread, keep := s.threads[id], Kept(preserve);
    var p := thread.principalId;
    if p in s.contexts && |s.contexts[p].turns| > keep {
      var c := s.contexts[p];
      var merged := Fold(thread.compactionSummary, Archived(c, keep), w.summaryHeading);
      if merged.Some? {
        PublishBothFolds(s, CompactedContext(c, keep, merged.value, now, w),
                         CompactedThread(thread, merged.value, now));
      } else {
        DrainedFolds(s, p, keep);
      }
    }
  }

  lemma DrainedFolds(s: Store, p: PrincipalId, keep: nat)
    requires p in s.contexts && |s.contexts[p].turns| > keep
    ensures OnlyFolds(s, Drained(s, p, keep), p)
  {
  }

  lemma PublishBothFolds(s: Store, c: Context, t: Thread)
    requires c.principalId in s.contexts && t.threadId in s.threads && SamePlace(s.threads[t.threadId], t)
    ensures OnlyFolds(s, PublishBoth(s, c, t).store, c.principalId)
  {
  }

  lemma RecordTurnFolds(
      s: Store, p: PrincipalId, summary: string, responseId: Option<string>, output: seq<Json.Value>, now: Time,
      backing: Option<ThreadId>, w: Wording)
    requires Keyed(s) && Backs(s, p, backing)
    ensures OnlyFolds(s, RecordTurn(s, p, summary, responseId, output, now, backing, w).store, p)
  {
    if p in s.contexts && s.contexts[p].pendingTurn.Some? {
      var c := s.contexts[p];
      var s1 := Publish(s, Recorded(c, summary, responseId, output, now)).store;
      assert OnlyFolds(s, s1, p);
      if |c.turns| + 1 > TURN_LIMIT && backing.Some? {
        CompactFolds(s1, backing.value, PRESERVED_TURNS, now, w);
      }
    }
  }

  // ---- What a continuation replays -----------------------------------------------------------------------

  /**
   * A continuation always forgets the previous response, and replays the items a failover would. The
   * plans as a whole agree exactly when no text is sent with them, for want of anything to tell.
   */
  lemma ContinuationReplaysAsFailover(s: Store, p: PrincipalId, generation: nat, previousId: Option<string>)
    requires ContextsInv(s) && generation > 1
    ensures var continued := ContinuationPlanFor(s, p, previousId);
      && continued.dropPreviousResponseId
      && (p in s.contexts ==>
            var failedOver := ReplayPlanFor(s, p, generation, previousId);
            && continued.items == failedOver.items == StructuredReplay(s.contexts[p].turns).UnwrapOr([])
            && (continued == failedOver <==> s.contexts[p].turns == []))
      && (p !in s.contexts ==> continued.items == [])
  {
    if p in s.contexts {
      AllSuccessful(s.contexts[p].turns);
    }
  }

  // ---- The messages rebuild the change ----------------------------------------------------------------

  lemma PublishBridges(s: Store, c: Context)
    ensures Bridges(s, Publish(s, c))
  {
    ApplyOne(s, ContextUpsert(c));
  }

  lemma BeginTurnBridges(s: Store, p: PrincipalId, model: string, pending: PendingTurn, now: Time, w: Wording)
    ensures Bridges(s, BeginTurn(s, p, model, pending, now, w))
  {
    PublishBridges(s, Ensured(ContextOr(s, p), p, model, w).(pendingTurn := Some(pending), updatedAt := Some(now)));
  }

  lemma DiscardTurnBridges(s: Store, p: PrincipalId, now: Time)
    ensures Bridges(s, DiscardTurn(s, p, now))
  {
    if p in s.contexts && s.contexts[p].pendingTurn.Some? {
      PublishBridges(s, s.contexts[p].(pendingTurn := None, updatedAt := Some(now)));
    }
  }

  /** A compaction is told in full exactly when it completes: the turns it loses otherwise nobody hears of. */
  lemma CompactBridgesExactly(s: Store, id: ThreadId, preserve: nat, now: Time, w: Wording)
    requires Keyed(s) && id in s.threads
    ensures Bridges(s, Compact(s, id, preserve, now, w)) <==> Completes(s, id, preserve, w)
  {
    var p, keep := s.threads[id].principalId, Kept(preserve);
    if p in s.contexts && |s.contexts[p].turns| > keep {
      var c, thread := s.contexts[p], s.threads[id];
      FoldsExactly(thread.compactionSummary, Archived(c, keep), w.summaryHeading);
      var merged := Fold(thread.compactionSummary, Archived(c, keep), w.summaryHeading);
      if merged.Some? {
        PublishBothBridges(s, CompactedContext(c, keep, merged.value, now, w),
                           CompactedThread(thread, merged.value, now));
      } else {
        DrainedDiffers(s, p, keep);
      }
    }
  }

  lemma DrainedDiffers(s: Store, p: PrincipalId, keep: nat)
    requires p in s.contexts && |s.contexts[p].turns| > keep
    ensures Drained(s, p, keep) != s
  {
    assert |Drained(s, p, keep).contexts[p].turns| < |s.contexts[p].turns|;
  }

  lemma PublishBothBridges(s: Store, c: Context, t: Thread)
    ensures Bridges(s, PublishBoth(s, c, t))
  {
    ApplyTwo(s, ContextUpsert(c), ThreadUpsert(t));
  }

  /** Recording a turn is told in full exactly when it fires no compaction, or one that completes. */
  lemma RecordTurnBridgesExactly(
      s: Store, p: PrincipalId, summary: string, responseId: Option<string>, output: seq<Json.Value>, now: Time,
      backing: Option<ThreadId>, w: Wording)
    requires Keyed(s) && Backs(s, p, backing)
    ensures Bridges(s, RecordTurn(s, p, summary, responseId, output, now, backing, w))
       <==> RecordCompletes(s, p, backing, w)
  {
    if p in s.contexts && s.contexts[p].pendingTurn.Some? {
      var c := Recorded(s.contexts[p], summary, responseId, output, now);
      var recorded := Publish(s, c);
      PublishBridges(s, c);
      if |s.contexts[p].turns| + 1 > TURN_LIMIT && backing.Some? {
        CompletesOnceRecorded(s, p, summary, responseId, output, now, backing.value, w);
        CompactBridgesExactly(recorded.store, backing.value, PRESERVED_TURNS, now, w);
        ThenBridges(s, recorded, Compact(recorded.store, backing.value, PRESERVED_TURNS, now, w));
      }
    }
  }

  /** After a compaction that failed, the next time the conversation is published the follower has caught up. */
  lemma NextPublishHeals(s: Store, p: PrincipalId, keep: nat, c: Context)
    requires p in s.contexts && |s.contexts[p].turns| > keep && c.principalId == p
    ensures var next := Publish(Drained(s, p, keep), c); ApplyAll(s, next.sent) == next.store
  {
    PublishOverwrites(s, Drained(s, p, keep).contexts[p], c);
    PublishBridges(s, c);
  }

  lemma PublishOverwrites(s: Store, before: Context, c: Context)
    ensures Publish(s.(contexts := s.contexts[c.principalId := before]), c) == Publish(s, c)
  {
    WrittenTwice(s.contexts, c.principalId, before, c);
  }

  lemma WrittenTwice(m: map<PrincipalId, Context>, p: PrincipalId, c: Context, d: Context)
    ensures m[p := c][p := d] == m[p := d]
  {
  }
}
