/** What no run of operations can do to a lease, and how long a quota mark protects an account. */
module LeaseSafety {
  import opened Prelude
  import opened Models
  import opened Bus
  import opened CfState
  import opened AccountOps
  import opened Runs
  import Json
  import Memory
  import Router
  import Selection
  import SelectionTheorems
  import Replication
  import Threads

  // ---- Runs of the leader alone ----------------------------------------------------------------------

  ghost predicate LegalRun(s: Store, ops: seq<Op>, w: World)
    decreases |ops|
  {
    ops == [] || (Replication.LeaderInv(s) && Legal(s, ops[0]) && LegalRun(Step(s, ops[0], w).store, ops[1..], w))
  }

  ghost function AfterRun(s: Store, ops: seq<Op>, w: World): Store
    requires LegalRun(s, ops, w)
    decreases |ops|
  {
    if ops == [] then s else AfterRun(Step(s, ops[0], w).store, ops[1..], w)
  }

  lemma {:induction false} RunKeepsInv(s: Store, ops: seq<Op>, w: World)
    requires Replication.LeaderInv(s) && LegalRun(s, ops, w)
    ensures Replication.LeaderInv(AfterRun(s, ops, w))
    decreases |ops|
  {
    if ops != [] {
      Replication.StepKeeps(s, ops[0], w);
      RunKeepsInv(Step(s, ops[0], w).store, ops[1..], w);
    }
  }

  /** In every reachable store a lease is filed under its principal, on a known account of its own tenant. */
  lemma ReachableLeasesAreSound(ops: seq<Op>, w: World, p: PrincipalId)
    requires LegalRun(EMPTY_STORE, ops, w) && p in AfterRun(EMPTY_STORE, ops, w).leases
    ensures var s := AfterRun(EMPTY_STORE, ops, w);
      var lease := s.leases[p];
      && lease.principalId == p
      && lease.accountId in s.accounts && s.accounts[lease.accountId].tenantId == lease.tenantId
  {
    Replication.EmptyIsInvariant();
    RunKeepsInv(EMPTY_STORE, ops, w);
  }

  // ---- Generations -----------------------------------------------------------------------------------

  /** A lease is kept with its account, or replaced by the next generation. */
  ghost predicate Succeeds(before: Lease, after: Lease) {
    (after.generation == before.generation && after.accountId == before.accountId)
    || after.generation == before.generation + 1
  }

  lemma ConversationLeavesAccounts(s: Store, op: Op, w: World)
    requires IsConversation(op) && (op.RecordTurn? && op.backing.Some? ==> op.backing.value in s.threads)
    ensures Replication.SameAccounts(s, ConversationStep(s, op, w).store)
  {
    match op {
      case UpsertThread(u) =>
        Threads.UpsertThreadLeavesRest(s, u, w.wording);
      case ForkThread(tenant, parent, child, model, title, source, now) =>
        ForkLeavesAccounts(s, tenant, parent, child, model, title, source, now, w.wording);
      case BeginTurn(_, _, _, _) =>
      case DiscardTurn(_, _) =>
      case CompactThread(id, preserve, now) =>
        if id in s.threads {
          CompactLeavesAccounts(s, id, preserve, now, w.wording);
        }
      case RecordTurn(p, summary, responseId, output, now, backing) =>
        RecordLeavesAccounts(s, p, summary, responseId, output, now, backing, w.wording);
    }
  }

  lemma CompactLeavesAccounts(s: Store, id: ThreadId, preserve: nat, now: Time, w: Memory.Wording)
    requires id in s.threads
    ensures Replication.SameAccounts(s, Memory.Compact(s, id, preserve, now, w).store)
  {
    var p := s.threads[id].principalId;
    if p in s.contexts && |s.contexts[p].turns| > Memory.Kept(preserve) {
      Memory.CompactCases(s, id, preserve, now, w);
    }
  }

  lemma PublishLeavesAccounts(s: Store, c: Context)
    ensures Replication.SameAccounts(s, Memory.Publish(s, c).store)
    ensures Memory.Publish(s, c).store.threads == s.threads
  {
  }

  lemma RecordLeavesAccounts(s: Store, p: PrincipalId, summary: string, responseId: Option<string>,
                             output: seq<Json.Value>, now: Time, backing: Option<ThreadId>, w: Memory.Wording)
    requires backing.Some? ==> backing.value in s.threads
    ensures Replication.SameAccounts(s, Memory.RecordTurn(s, p, summary, responseId, output, now, backing, w).store)
  {
    if p in s.contexts && s.contexts[p].pendingTurn.Some? {
      var c := Memory.Recorded(s.contexts[p], summary, responseId, output, now);
      PublishLeavesAccounts(s, c);
      if |s.contexts[p].turns| + 1 > Memory.TURN_LIMIT && backing.Some? {
        CompactLeavesAccounts(Memory.Publish(s, c).store, backing.value, Memory.PRESERVED_TURNS, now, w);
      }
    }
  }

  lemma ForkLeavesAccounts(s: Store, tenant: Tenant, parent: ThreadId, child: ThreadId, model: Option<string>,
                           title: Option<string>, source: string, now: Time, w: Memory.Wording)
    ensures var r := Threads.ForkThread(s, tenant, parent, child, model, title, source, now, w);
      r.Forked? ==> Replication.SameAccounts(s, r.outcome.store)
  {
    if parent in s.threads {
      var model' := if model.Some? then model else s.threads[parent].model;
      var u := Threads.Upsert(tenant, child, Some(s.threads[parent].threadId), model', title, source, now);
      Threads.UpsertThreadLeavesRest(s, u, w);
    }
  }

  /** The four operations that take leases away, and when they do. */
  ghost predicate Evicts(s: Store, op: Op) {
    match op
    case DeleteAccount(id, _) => id in s.accounts
    case RouteEvent(id, mode, kind, _, _, _) => id in s.routeStates && EventEvicts(s, id, mode, kind)
    case FailOver(id, severity, _, _, _, _) => id in s.routeStates && !Spared(s, id, severity)
    case MarkQuota(id, _, _, _, _, _) => id in s.routeStates
    case _ => false
  }

  /** One route state is written, with the deadline it had unless `moved`, and leases go if `evict`. */
  ghost predicate OneRouteWritten(s: Store, s': Store, id: AccountId, moved: bool, evict: bool) {
    && s'.leases == (if evict then WithoutAccount(s.leases, id) else s.leases)
    && s'.routeStates.Keys == s.routeStates.Keys
    && (forall k :: k in s.routeStates && k != id ==> s'.routeStates[k] == s.routeStates[k])
    && (id in s.routeStates && !moved ==> s'.routeStates[id].cooldownUntil == s.routeStates[id].cooldownUntil)
  }

  lemma RouteStepWrites(s: Store, op: Op)
    requires IsRouteChange(op) && s.accounts.Keys == s.routeStates.Keys
    ensures OneRouteWritten(s, RouteStep(s, op).store, op.id, Rewrites(op, op.id), Evicts(s, op))
  {
    match op {
      case RouteEvent(id, mode, kind, now, incidentId, order) =>
        RouteEventWrites(s, id, mode, kind, now, incidentId, order);
      case FailOver(id, severity, seconds, now, incidentId, order) =>
        FailoverWrites(s, id, severity, seconds, now, incidentId, order);
      case MarkQuota(id, resetAt, message, now, incidentId, order) =>
        QuotaWrites(s, id, resetAt, message, now, incidentId, order);
    }
  }

  lemma FailoverWrites(s: Store, id: AccountId, severity: string, seconds: int, now: Time, incidentId: string,
                       order: seq<PrincipalId>)
    requires s.accounts.Keys == s.routeStates.Keys
    ensures OneRouteWritten(s, FailoverOutcome(s, id, severity, seconds, now, incidentId, order).store, id, true,
                            id in s.routeStates && !Spared(s, id, severity))
  {
    if id in s.routeStates {
      var until := if Spared(s, id, severity) then None else Some(now + seconds * SECOND);
      var r := AfterFailover(s.routeStates[id], severity, until, now);
      PublishWrites(s, id, r, Some(IncidentOf(s, id, r, severity, incidentId, now)), !Spared(s, id, severity), order);
    }
  }

  lemma QuotaWrites(s: Store, id: AccountId, resetAt: Option<Time>, message: Option<string>, now: Time,
                    incidentId: string, order: seq<PrincipalId>)
    requires s.accounts.Keys == s.routeStates.Keys
    ensures OneRouteWritten(s, QuotaOutcome(s, id, resetAt, message, now, incidentId, order).store, id, true,
                            id in s.routeStates)
  {
    if id in s.routeStates {
      var r := AfterQuotaMark(s.routeStates[id], resetAt.UnwrapOr(now + 30 * MINUTE), QuotaReason(message));
      PublishWrites(s, id, r, Some(IncidentOf(s, id, r, QUOTA_EXHAUSTED, incidentId, now)), true, order);
    }
  }

  lemma RouteEventWrites(s: Store, id: AccountId, mode: RouteMode, kind: string, now: Time, incidentId: string,
                         order: seq<PrincipalId>)
    requires s.accounts.Keys == s.routeStates.Keys
    ensures OneRouteWritten(s, RouteEventOutcome(s, id, mode, kind, now, incidentId, order).store, id,
                            mode == Warp && kind == CF_HIT, id in s.routeStates && EventEvicts(s, id, mode, kind))
  {
    if id in s.routeStates {
      if kind == CF_HIT {
        CfHitWrites(s, id, mode, now, incidentId, EventEvicts(s, id, mode, kind), order);
      } else if kind == SUCCESS {
        SuccessWrites(s, id, now);
      } else {
        UnrecognisedWrites(s, id, now);
      }
    }
  }

  lemma UnrecognisedWrites(s: Store, id: AccountId, now: Time)
    requires id in s.routeStates
    ensures OneRouteWritten(s, s.(routeStates := s.routeStates[id := AfterReconcile(s.routeStates[id], now)]), id,
                            false, false)
  {
  }

  lemma CfHitWrites(s: Store, id: AccountId, mode: RouteMode, now: Time, incidentId: string, evict: bool,
                    order: seq<PrincipalId>)
    requires id in s.routeStates && id in s.accounts
    ensures OneRouteWritten(s, CfHitOutcome(s, id, mode, now, incidentId, evict, order).store, id, mode == Warp, evict)
  {
    var r0 := AfterReconcile(s.routeStates[id], now);
    var r := AfterCfHit(r0, mode, now);
    PublishWrites(s, id, r, Some(IncidentOf(s, id, r, Severity(r0, mode), incidentId, now)), evict, order);
  }

  lemma SuccessWrites(s: Store, id: AccountId, now: Time)
    requires id in s.routeStates && id in s.accounts
    ensures OneRouteWritten(s, SuccessOutcome(s, id, now).store, id, false, false)
  {
    PublishWrites(s, id, AfterSuccess(AfterReconcile(s.routeStates[id], now), now).(cooldownReason := None), None,
                  false, []);
  }

  lemma PublishWrites(s: Store, id: AccountId, r: RouteState, incident: Option<Incident>, evict: bool,
                      order: seq<PrincipalId>)
    requires id in s.accounts
    ensures var s' := PublishRoute(s, id, r, incident, evict, order).store;
      && s'.leases == (if evict then WithoutAccount(s.leases, id) else s.leases)
      && s'.routeStates == s.routeStates[id := r]
  {
  }

  lemma PlainStepLeases(s: Store, op: Op)
    requires IsPlain(op)
    ensures PlainStep(s, op).store.leases == if Evicts(s, op) then WithoutAccount(s.leases, op.id) else s.leases
  {
  }

  /** Some operations take leases away, none but a selection writes one. */
  lemma OnlySelectionWrites(s: Store, op: Op, w: World)
    requires Replication.LeaderInv(s) && Legal(s, op) && !op.SelectLease?
    ensures Step(s, op, w).store.leases == if Evicts(s, op) then WithoutAccount(s.leases, op.id) else s.leases
  {
    if IsConversation(op) {
      ConversationLeavesAccounts(s, op, w);
    } else if IsRouteChange(op) {
      RouteStepWrites(s, op);
    } else {
      PlainStepLeases(s, op);
    }
  }

  lemma SelectionWritesOne(s: Store, op: Op, w: World)
    requires Replication.LeaderInv(s) && Legal(s, op) && op.SelectLease?
    ensures var r := Selection.Resolve(s, op.selection, op.now, op.routeOrder, op.accountOrder, w.rank);
      Step(s, op, w).store.leases ==
        if r.verdict.Selected? then s.leases[op.selection.principalId := r.verdict.lease] else s.leases
  {
    Selection.ResolveWrites(s, op.selection, op.now, op.routeOrder, op.accountOrder, w.rank);
  }

  lemma StepSucceeds(s: Store, op: Op, w: World, p: PrincipalId)
    requires Replication.LeaderInv(s) && Legal(s, op)
    requires p in s.leases && p in Step(s, op, w).store.leases
    ensures Succeeds(s.leases[p], Step(s, op, w).store.leases[p])
  {
    if op.SelectLease? {
      SelectionSucceeds(s, op, w, p);
    } else {
      OnlySelectionWrites(s, op, w);
    }
  }

  lemma SelectionSucceeds(s: Store, op: Op, w: World, p: PrincipalId)
    requires Replication.LeaderInv(s) && op.SelectLease? && Legal(s, op) && p in s.leases
    ensures p in Step(s, op, w).store.leases && Succeeds(s.leases[p], Step(s, op, w).store.leases[p])
  {
    SelectionWritesOne(s, op, w);
  }

  /** The principal holds some lease at every moment of the run. */
  ghost predicate HeldThroughout(s: Store, ops: seq<Op>, w: World, p: PrincipalId)
    requires LegalRun(s, ops, w)
    decreases |ops|
  {
    p in s.leases && (ops != [] ==> HeldThroughout(Step(s, ops[0], w).store, ops[1..], w, p))
  }

  /** Between evictions the generation never falls, and it rises whenever the account changes. */
  lemma {:induction false} GenerationsRise(s: Store, ops: seq<Op>, w: World, p: PrincipalId)
    requires Replication.LeaderInv(s) && LegalRun(s, ops, w) && HeldThroughout(s, ops, w, p)
    ensures p in AfterRun(s, ops, w).leases
    ensures var before, after := s.leases[p], AfterRun(s, ops, w).leases[p];
      && before.generation <= after.generation <= before.generation + |ops|
      && (before.generation == after.generation ==> before.accountId == after.accountId)
    decreases |ops|
  {
    if ops != [] {
      var s1 := Step(s, ops[0], w).store;
      Replication.StepKeeps(s, ops[0], w);
      assert p in s1.leases;
      StepSucceeds(s, ops[0], w, p);
      GenerationsRise(s1, ops[1..], w, p);
    }
  }

  /** A held lease is taken away exactly by an evicting operation on its account. */
  lemma LeaseLostExactly(s: Store, op: Op, w: World, p: PrincipalId)
    requires Replication.LeaderInv(s) && Legal(s, op) && p in s.leases
    ensures p !in Step(s, op, w).store.leases <==> Evicts(s, op) && op.id == s.leases[p].accountId
  {
    if op.SelectLease? {
      SelectionWritesOne(s, op, w);
    } else {
      OnlySelectionWrites(s, op, w);
    }
  }

  ghost predicate GenerationsStartAtOne(s: Store) {
    forall p :: p in s.leases ==> s.leases[p].generation >= 1
  }

  lemma StepKeepsGenerations(s: Store, op: Op, w: World)
    requires Replication.LeaderInv(s) && Legal(s, op) && GenerationsStartAtOne(s)
    ensures GenerationsStartAtOne(Step(s, op, w).store)
  {
    if op.SelectLease? {
      SelectionWritesOne(s, op, w);
    } else {
      OnlySelectionWrites(s, op, w);
    }
  }

  lemma {:induction false} RunKeepsGenerations(s: Store, ops: seq<Op>, w: World)
    requires Replication.LeaderInv(s) && LegalRun(s, ops, w) && GenerationsStartAtOne(s)
    ensures GenerationsStartAtOne(AfterRun(s, ops, w))
    decreases |ops|
  {
    if ops != [] {
      Replication.StepKeeps(s, ops[0], w);
      StepKeepsGenerations(s, ops[0], w);
      RunKeepsGenerations(Step(s, ops[0], w).store, ops[1..], w);
    }
  }

  /** The lease a selection gives where none can be reused. */
  ghost predicate GivesFreshLease(s: Store, select: Op, w: World)
    requires Inv(s) && select.SelectLease? && Legal(s, select)
  {
    var s1 := Selection.Reconciled(s, select.now);
    var r := Selection.Resolve(s, select.selection, select.now, select.routeOrder, select.accountOrder, w.rank);
    !Selection.Reusable(s1, select.selection, select.now) && r.verdict.Selected?
  }

  /** In every reachable store a fresh lease is of generation 1 exactly when its principal holds none. */
  lemma FreshGenerationExactly(ops: seq<Op>, select: Op, w: World)
    requires LegalRun(EMPTY_STORE, ops, w) && select.SelectLease? && Inv(AfterRun(EMPTY_STORE, ops, w))
    requires Legal(AfterRun(EMPTY_STORE, ops, w), select) && GivesFreshLease(AfterRun(EMPTY_STORE, ops, w), select, w)
    ensures var s, p := AfterRun(EMPTY_STORE, ops, w), select.selection.principalId;
      && p in Step(s, select, w).store.leases
      && (Step(s, select, w).store.leases[p].generation == 1 <==> p !in s.leases)
  {
    Replication.EmptyIsInvariant();
    RunKeepsInv(EMPTY_STORE, ops, w);
    RunKeepsGenerations(EMPTY_STORE, ops, w);
    SelectionWritesOne(AfterRun(EMPTY_STORE, ops, w), select, w);
  }

  /** A principal without a lease starts over at generation 1, whoever writes its next lease. */
  lemma NextLeaseIsFirst(s: Store, op: Op, w: World, p: PrincipalId)
    requires Replication.LeaderInv(s) && Legal(s, op) && p !in s.leases && p in Step(s, op, w).store.leases
    ensures Step(s, op, w).store.leases[p].generation == 1
  {
    if op.SelectLease? {
      SelectionWritesOne(s, op, w);
    } else {
      OnlySelectionWrites(s, op, w);
    }
  }

  /** The principal holds no lease at any moment of the run. */
  ghost predicate AbsentThroughout(s: Store, ops: seq<Op>, w: World, p: PrincipalId)
    requires LegalRun(s, ops, w)
    decreases |ops|
  {
    p !in s.leases && (ops != [] ==> AbsentThroughout(Step(s, ops[0], w).store, ops[1..], w, p))
  }

  lemma {:induction false} AbsentAtEnd(s: Store, ops: seq<Op>, w: World, p: PrincipalId)
    requires LegalRun(s, ops, w) && AbsentThroughout(s, ops, w, p)
    ensures p !in AfterRun(s, ops, w).leases
    decreases |ops|
  {
    if ops != [] {
      AbsentAtEnd(Step(s, ops[0], w).store, ops[1..], w, p);
    }
  }

  /**
   * Every eviction forgets the generation: whichever operation took the lease, and however long the
   * principal went without one, its next lease is its first again.
   */
  lemma EvictionRestartsGenerations(s: Store, evict: Op, ops: seq<Op>, next: Op, w: World, p: PrincipalId)
    requires Replication.LeaderInv(s) && Legal(s, evict)
    requires p in s.leases && Evicts(s, evict) && evict.id == s.leases[p].accountId
    requires LegalRun(Step(s, evict, w).store, ops, w) && AbsentThroughout(Step(s, evict, w).store, ops, w, p)
    requires Inv(AfterRun(Step(s, evict, w).store, ops, w)) && Legal(AfterRun(Step(s, evict, w).store, ops, w), next)
    ensures var s1 := AfterRun(Step(s, evict, w).store, ops, w);
      p in Step(s1, next, w).store.leases ==> Step(s1, next, w).store.leases[p].generation == 1
  {
    Replication.StepKeeps(s, evict, w);
    RunKeepsInv(Step(s, evict, w).store, ops, w);
    AbsentAtEnd(Step(s, evict, w).store, ops, w, p);
    var s1 := AfterRun(Step(s, evict, w).store, ops, w);
    if p in Step(s1, next, w).store.leases {
      NextLeaseIsFirst(s1, next, w, p);
    }
  }

  // ---- The quota shield ----------------------------------------------------------------------------------

  /** The account rests until `t`. */
  ghost predicate RestsUntil(s: Store, id: AccountId, t: Time) {
    id in s.routeStates && s.routeStates[id].cooldownUntil == Some(t)
  }

  /** The operations that write the account's cooldown, or replace the account altogether. */
  ghost predicate Rewrites(op: Op, id: AccountId) {
    match op
    case ImportAccount(newId, _) => newId == id
    case DeleteAccount(other, _) => other == id
    case RouteEvent(other, mode, kind, _, _, _) => other == id && mode == Warp && kind == CF_HIT
    case FailOver(other, _, _, _, _, _) => other == id
    case MarkQuota(other, _, _, _, _, _) => other == id
    case _ => false
  }

  lemma StepKeepsRest(s: Store, op: Op, w: World, id: AccountId, t: Time)
    requires Replication.LeaderInv(s) && Legal(s, op) && RestsUntil(s, id, t) && !Rewrites(op, id)
    ensures RestsUntil(Step(s, op, w).store, id, t)
  {
    if op.SelectLease? {
      SelectKeepsRest(s, op, w, id, t);
    } else if IsConversation(op) {
      ConversationKeepsRest(s, op, w, id, t);
    } else if IsRouteChange(op) {
      RouteChangeKeepsRest(s, op, w, id, t);
    } else {
      PlainKeepsRest(s, op, w, id, t);
    }
  }

  lemma SelectKeepsRest(s: Store, op: Op, w: World, id: AccountId, t: Time)
    requires Inv(s) && Legal(s, op) && op.SelectLease? && RestsUntil(s, id, t)
    ensures RestsUntil(Step(s, op, w).store, id, t)
  {
    Selection.ResolveWrites(s, op.selection, op.now, op.routeOrder, op.accountOrder, w.rank);
  }

  lemma ConversationKeepsRest(s: Store, op: Op, w: World, id: AccountId, t: Time)
    requires Inv(s) && Legal(s, op) && IsConversation(op) && RestsUntil(s, id, t)
    ensures RestsUntil(Step(s, op, w).store, id, t)
  {
    ConversationLeavesAccounts(s, op, w);
  }

  lemma RouteChangeKeepsRest(s: Store, op: Op, w: World, id: AccountId, t: Time)
    requires Inv(s) && Legal(s, op) && IsRouteChange(op) && !Rewrites(op, id) && RestsUntil(s, id, t)
    ensures RestsUntil(Step(s, op, w).store, id, t)
  {
    RouteStepKeepsRest(s, op, id, t);
  }

  lemma RouteStepKeepsRest(s: Store, op: Op, id: AccountId, t: Time)
    requires IsRouteChange(op) && s.accounts.Keys == s.routeStates.Keys
    requires !Rewrites(op, id) && RestsUntil(s, id, t)
    ensures RestsUntil(RouteStep(s, op).store, id, t)
  {
    RouteStepWrites(s, op);
    assert Rewrites(op, op.id) ==> id != op.id;
  }

  lemma PlainKeepsRest(s: Store, op: Op, w: World, id: AccountId, t: Time)
    requires Inv(s) && Legal(s, op) && IsPlain(op) && !Rewrites(op, id) && RestsUntil(s, id, t)
    ensures RestsUntil(Step(s, op, w).store, id, t)
  {
    PlainStepKeepsRest(s, op, id, t);
  }

  lemma PlainStepKeepsRest(s: Store, op: Op, id: AccountId, t: Time)
    requires IsPlain(op) && !Rewrites(op, id) && RestsUntil(s, id, t)
    ensures RestsUntil(PlainStep(s, op).store, id, t)
  {
    match op {
      case ImportAccount(newId, request) =>
      case DeleteAccount(other, order) =>
      case _ =>
    }
  }

  lemma RestingIsNotSelected(s: Store, select: Op, w: World, id: AccountId, t: Time)
    requires Replication.LeaderInv(s) && select.SelectLease? && Legal(s, select) && RestsUntil(s, id, t)
    requires select.now < t
    ensures var v := Selection.Resolve(s, select.selection, select.now, select.routeOrder, select.accountOrder,
                                       w.rank).verdict;
      v.Selected? ==> v.lease.accountId != id
  {
    var req, now := select.selection, select.now;
    var s1 := Selection.Reconciled(s, now);
    SelectionTheorems.ReconcilingKeepsInv(s, now);
    SelectionTheorems.ReconcilingKeepsThePool(s, req, now, now);
    Selection.ResolveWrites(s, req, now, select.routeOrder, select.accountOrder, w.rank);
    assert SelectionTheorems.Resting(s, id, now);
    RestingIsNotChosen(s1, req, now, select.accountOrder, w.rank, id);
  }

  lemma RestingIsNotChosen(s: Store, req: Selection.Request, now: Time, accountOrder: seq<AccountId>, rank: Router.Rank,
                           id: AccountId)
    requires Inv(s) && SelectionTheorems.AllListed(s, accountOrder) && SelectionTheorems.Resting(s, id, now)
    ensures var v := Selection.VerdictOf(s, req, now, accountOrder, rank);
      v.Selected? ==> v.lease.accountId != id
  {
    if Selection.Reusable(s, req, now) {
      SelectionTheorems.ReuseIsSound(s, req, now, accountOrder, rank);
    } else if Selection.VerdictOf(s, req, now, accountOrder, rank).Selected? {
      SelectionTheorems.FreshPlacementIsSound(s, req, now, accountOrder, rank);
    }
  }

  /** No operation of the run writes the account's cooldown, and every selection reads the clock before `t`. */
  ghost predicate Undisturbed(ops: seq<Op>, id: AccountId, t: Time) {
    forall i :: 0 <= i < |ops| ==> !Rewrites(ops[i], id) && (ops[i].SelectLease? ==> ops[i].now < t)
  }

  ghost predicate Vacated(s: Store, id: AccountId) {
    forall p :: p in s.leases ==> s.leases[p].accountId != id
  }

  lemma StepKeepsVacated(s: Store, op: Op, w: World, id: AccountId, t: Time)
    requires Replication.LeaderInv(s) && Legal(s, op) && RestsUntil(s, id, t) && Vacated(s, id)
    requires op.SelectLease? ==> op.now < t
    ensures Vacated(Step(s, op, w).store, id)
  {
    if op.SelectLease? {
      SelectionWritesOne(s, op, w);
      RestingIsNotSelected(s, op, w, id, t);
    } else {
      OnlySelectionWrites(s, op, w);
    }
  }

  lemma {:induction false} RestOutlastsRun(s: Store, ops: seq<Op>, w: World, id: AccountId, t: Time)
    requires Replication.LeaderInv(s) && LegalRun(s, ops, w) && RestsUntil(s, id, t) && Vacated(s, id)
    requires Undisturbed(ops, id, t)
    ensures RestsUntil(AfterRun(s, ops, w), id, t) && Vacated(AfterRun(s, ops, w), id)
    decreases |ops|
  {
    if ops != [] {
      var s1 := Step(s, ops[0], w).store;
      Replication.StepKeeps(s, ops[0], w);
      StepKeepsRest(s, ops[0], w, id, t);
      StepKeepsVacated(s, ops[0], w, id, t);
      assert Undisturbed(ops[1..], id, t) by {
        assert forall i :: 0 <= i < |ops| - 1 ==> ops[1..][i] == ops[i + 1];
      }
      RestOutlastsRun(s1, ops[1..], w, id, t);
    }
  }

  lemma QuotaMarkRests(s: Store, mark: Op, w: World)
    requires Replication.LeaderInv(s) && mark.MarkQuota? && Legal(s, mark) && mark.id in s.routeStates
    ensures var s1 := Step(s, mark, w).store;
      RestsUntil(s1, mark.id, mark.resetAt.UnwrapOr(mark.now + 30 * MINUTE)) && Vacated(s1, mark.id)
  {
    MarkRests(s, mark.id, mark.resetAt, mark.message, mark.now, mark.incidentId, mark.leaseOrder);
  }

  lemma MarkRests(s: Store, id: AccountId, resetAt: Option<Time>, message: Option<string>, now: Time,
                  incidentId: string, order: seq<PrincipalId>)
    requires id in s.routeStates && id in s.accounts
    ensures var s1 := QuotaOutcome(s, id, resetAt, message, now, incidentId, order).store;
      RestsUntil(s1, id, resetAt.UnwrapOr(now + 30 * MINUTE)) && Vacated(s1, id)
  {
    var r := AfterQuotaMark(s.routeStates[id], resetAt.UnwrapOr(now + 30 * MINUTE), QuotaReason(message));
    PublishWrites(s, id, r, Some(IncidentOf(s, id, r, QUOTA_EXHAUSTED, incidentId, now)), true, order);
  }

  /**
   * From a quota mark to its deadline nobody holds or is given the account, however many
   * successes, imports, failovers of other accounts and selections come in between.
   */
  lemma QuotaShield(s: Store, mark: Op, ops: seq<Op>, select: Op, w: World)
    requires Replication.LeaderInv(s) && mark.MarkQuota? && Legal(s, mark) && mark.id in s.routeStates
    requires LegalRun(s, [mark] + ops, w)
    requires var t := mark.resetAt.UnwrapOr(mark.now + 30 * MINUTE);
      Undisturbed(ops, mark.id, t) && select.SelectLease? && select.now < t
    requires Legal(AfterRun(s, [mark] + ops, w), select)
    ensures var s' := AfterRun(s, [mark] + ops, w);
      && Inv(s') && Vacated(s', mark.id)
      && var v := Selection.Resolve(s', select.selection, select.now, select.routeOrder, select.accountOrder,
                                    w.rank).verdict;
         v.Selected? ==> v.lease.accountId != mark.id
  {
    var t := mark.resetAt.UnwrapOr(mark.now + 30 * MINUTE);
    var run := [mark] + ops;
    assert run[0] == mark && run[1..] == ops;
    var s1 := Step(s, mark, w).store;
    assert LegalRun(s1, ops, w) && AfterRun(s, run, w) == AfterRun(s1, ops, w);
    Replication.StepKeeps(s, mark, w);
    QuotaMarkRests(s, mark, w);
    RunKeepsInv(s1, ops, w);
    RestOutlastsRun(s1, ops, w, mark.id, t);
    RestingIsNotSelected(AfterRun(s1, ops, w), select, w, mark.id, t);
  }

  /** A later failover writes its own deadline over the mark's, and a spared account gets none at all. */
  lemma FailoverOverwritesRest(s: Store, failover: Op, w: World, t: Time)
    requires Replication.LeaderInv(s) && failover.FailOver? && Legal(s, failover) && RestsUntil(s, failover.id, t)
    ensures RestsUntil(Step(s, failover, w).store, failover.id, t)
       <==> !Spared(s, failover.id, failover.severity) && failover.now + failover.seconds * SECOND == t
  {
  }
}
