/** The pending queue always bridges the follower to the leader. */
module Replication {
  import opened Prelude
  import opened Models
  import opened Bus
  import opened CfState
  import opened AccountOps
  import opened Runs
  import Json
  import Memory
  import Router
  import Selection
  import SelectionTheorems
  import Summaries
  import Threads

  /** Everything the leader's operations keep about its own store. */
  ghost predicate LeaderInv(s: Store) {
    Inv(s) && Memory.ContextsInv(s) && Threads.LinksKnown(s)
  }

  lemma EmptyIsInvariant()
    ensures LeaderInv(EMPTY_STORE)
  {
  }

  // ---- One operation ----------------------------------------------------------------------------------

  /** Account tables, routes and leases are untouched. */
  ghost predicate SameAccounts(s: Store, s': Store) {
    && s'.accounts == s.accounts && s'.credentials == s.credentials
    && s'.routeStates == s.routeStates && s'.leases == s.leases
  }

  lemma SameAccountsKeeps(s: Store, s': Store)
    requires Inv(s) && SameAccounts(s, s') && Keyed(s')
    ensures Inv(s')
  {
  }

  lemma SelectKeeps(s: Store, op: Op, w: World)
    requires LeaderInv(s) && op.SelectLease? && Legal(s, op)
    ensures LeaderInv(SelectStep(s, op, w).store)
  {
    var req, now := op.selection, op.now;
    var s1, s' := Selection.Reconciled(s, now), SelectStep(s, op, w).store;
    SelectionTheorems.ReconcilingKeepsInv(s, now);
    Selection.ResolveWrites(s, req, now, op.routeOrder, op.accountOrder, w.rank);
    var v := Selection.VerdictOf(s1, req, now, op.accountOrder, w.rank);
    if v.Selected? {
      SelectedFits(s1, req, now, op.accountOrder, w.rank);
      LeaseWritten(s1, v.lease, s');
    } else {
      SameAccountsKeeps(s1, s');
    }
    ThreadsUntouched(s, s');
  }

  /** Reused or fresh, the selected lease is the principal's, on a known account of the lease's tenant. */
  lemma SelectedFits(s: Store, req: Selection.Request, now: Time, accountOrder: seq<AccountId>, rank: Router.Rank)
    requires Inv(s) && SelectionTheorems.AllListed(s, accountOrder)
    ensures var v := Selection.VerdictOf(s, req, now, accountOrder, rank);
      v.Selected? ==>
        && v.lease.principalId == req.principalId && v.lease.accountId in s.accounts
        && v.lease.tenantId == s.accounts[v.lease.accountId].tenantId
  {
    SelectedKeepsPrincipal(s, req, now, accountOrder, rank);
    if Selection.Reusable(s, req, now) {
      SelectionTheorems.ReuseIsSound(s, req, now, accountOrder, rank);
    } else if Selection.VerdictOf(s, req, now, accountOrder, rank).Selected? {
      SelectionTheorems.FreshPlacementIsSound(s, req, now, accountOrder, rank);
    }
  }

  lemma LeaseWritten(s: Store, lease: Lease, s': Store)
    requires Inv(s) && s' == s.(leases := s.leases[lease.principalId := lease], metrics := s'.metrics)
    requires lease.accountId in s.accounts && lease.tenantId == s.accounts[lease.accountId].tenantId
    ensures Inv(s')
  {
  }

  lemma ThreadsUntouched(s: Store, s': Store)
    requires Threads.LinksKnown(s) && s'.threads == s.threads && s'.edges == s.edges
    ensures Threads.LinksKnown(s')
  {
    forall t | t in s'.threads
      ensures Threads.LinkKnown(s', t)
    {
      assert Threads.LinkKnown(s, t);
    }
  }

  /** A thread may change anything but its key and its parent. */
  lemma ThreadRewritten(s: Store, s': Store, t: Thread)
    requires Threads.LinksKnown(s) && s'.edges == s.edges
    requires t.threadId in s.threads && s'.threads == s.threads[t.threadId := t]
    requires t.parentThreadId == s.threads[t.threadId].parentThreadId
    ensures Threads.LinksKnown(s')
  {
    assert s'.threads.Keys == s.threads.Keys;
    forall x | x in s'.threads
      ensures Threads.LinkKnown(s', x)
    {
      assert Threads.LinkKnown(s, x);
    }
  }

  lemma CompactStoreKeeps(s: Store, id: ThreadId, preserve: nat, now: Time, w: Memory.Wording)
    requires LeaderInv(s) && id in s.threads
    ensures LeaderInv(Memory.Compact(s, id, preserve, now, w).store)
  {
    Memory.CompactKeeps(s, id, preserve, now, w);
    var s' := Memory.Compact(s, id, preserve, now, w).store;
    CompactWrites(s, id, preserve, now, w);
    if s'.threads != s.threads {
      ThreadRewritten(s, s', s'.threads[id]);
    } else {
      ThreadsUntouched(s, s');
    }
    SameAccountsKeeps(s, s');
  }

  /** Of the threads only the compacted one is written, and it keeps its place. */
  lemma CompactWrites(s: Store, id: ThreadId, preserve: nat, now: Time, w: Memory.Wording)
    requires Keyed(s) && id in s.threads
    ensures var s' := Memory.Compact(s, id, preserve, now, w).store;
      && SameAccounts(s, s') && Keyed(s') && s'.edges == s.edges && id in s'.threads
      && s'.threads == s.threads[id := s'.threads[id]]
      && s'.threads[id].parentThreadId == s.threads[id].parentThreadId
  {
    assert s.threads[id := s.threads[id]] == s.threads;
    var thread, keep := s.threads[id], Memory.Kept(preserve);
    var p := thread.principalId;
    if p in s.contexts && |s.contexts[p].turns| > keep {
      Memory.CompactCases(s, id, preserve, now, w);
      var c := s.contexts[p];
      var merged := Summaries.Fold(thread.compactionSummary, Memory.Archived(c, keep), w.summaryHeading);
      if merged.Some? {
        BothKeyed(s, Memory.CompactedContext(c, keep, merged.value, now, w),
                  Memory.CompactedThread(thread, merged.value, now));
      } else {
        DrainedKeyed(s, p, keep);
      }
    }
  }

  lemma BothKeyed(s: Store, c: Context, t: Thread)
    requires Keyed(s)
    ensures var s' := Memory.PublishBoth(s, c, t).store; Keyed(s') && SameAccounts(s, s') && s'.edges == s.edges
  {
  }

  lemma DrainedKeyed(s: Store, p: PrincipalId, keep: nat)
    requires Keyed(s) && p in s.contexts && |s.contexts[p].turns| > keep
    ensures var s' := Memory.Drained(s, p, keep);
      Keyed(s') && SameAccounts(s, s') && s'.edges == s.edges && s'.threads == s.threads
  {
  }

  lemma PublishStoreKeeps(s: Store, c: Context)
    requires LeaderInv(s) && Memory.TurnsInv(c.turns)
    ensures LeaderInv(Memory.Publish(s, c).store)
  {
    var s' := Memory.Publish(s, c).store;
    ThreadsUntouched(s, s');
    SameAccountsKeeps(s, s');
  }

  lemma RecordStoreKeeps(s: Store, p: PrincipalId, summary: string, responseId: Option<string>,
                         output: seq<Json.Value>, now: Time, backing: Option<ThreadId>, w: Memory.Wording)
    requires LeaderInv(s) && (backing.Some? ==> backing.value in s.threads)
    ensures LeaderInv(Memory.RecordTurn(s, p, summary, responseId, output, now, backing, w).store)
  {
    if p in s.contexts && s.contexts[p].pendingTurn.Some? {
      var c := Memory.Recorded(s.contexts[p], summary, responseId, output, now);
      Memory.GrownTurnsInv(s, p, summary, responseId, output, now);
      PublishStoreKeeps(s, c);
      if |s.contexts[p].turns| + 1 > Memory.TURN_LIMIT && backing.Some? {
        CompactStoreKeeps(Memory.Publish(s, c).store, backing.value, Memory.PRESERVED_TURNS, now, w);
      }
    }
  }

  lemma UpsertStoreKeeps(s: Store, u: Threads.Upsert, w: Memory.Wording)
    requires LeaderInv(s)
    ensures LeaderInv(Threads.UpsertThread(s, u, w).store)
    ensures Threads.UpsertThread(s, u, w).store.contexts == s.contexts
  {
    Threads.UpsertThreadBridges(s, u, w);
    Threads.UpsertThreadKeepsLinks(s, u, w);
    Threads.UpsertThreadLeavesRest(s, u, w);
    SameAccountsKeeps(s, Threads.UpsertThread(s, u, w).store);
  }

  lemma ForkStoreKeeps(s: Store, tenant: Tenant, parentId: ThreadId, childId: ThreadId, model: Option<string>,
                       title: Option<string>, source: string, now: Time, w: Memory.Wording)
    requires LeaderInv(s)
    ensures var r := Threads.ForkThread(s, tenant, parentId, childId, model, title, source, now, w);
      r.Forked? ==> LeaderInv(r.outcome.store)
  {
    var r := Threads.ForkThread(s, tenant, parentId, childId, model, title, source, now, w);
    if r.Forked? {
      var parent := s.threads[parentId];
      var model' := if model.Some? then model else parent.model;
      var u := Threads.Upsert(tenant, childId, Some(parent.threadId), model', title, source, now);
      UpsertStoreKeeps(s, u, w);
      var s1 := Threads.UpsertThread(s, u, w).store;
      if parent.principalId in s.contexts && childId in s1.threads {
        var c := Threads.InheritedContext(s1, s1.threads[childId], parent, s.contexts[parent.principalId], model', now);
        PublishStoreKeeps(s1, c);
      }
    }
  }

  /** Every legal operation keeps the invariant. */
  lemma StepKeeps(s: Store, op: Op, w: World)
    requires LeaderInv(s) && Legal(s, op)
    ensures LeaderInv(Step(s, op, w).store)
  {
    if op.SelectLease? {
      SelectKeeps(s, op, w);
    } else if IsConversation(op) {
      ConversationStepKeeps(s, op, w);
    } else if IsRouteChange(op) {
      RouteStepKeeps(s, op);
    } else {
      PlainStepKeeps(s, op);
    }
  }

  lemma ConversationStepKeeps(s: Store, op: Op, w: World)
    requires LeaderInv(s) && IsConversation(op)
    requires (op.RecordTurn? && op.backing.Some? ==> op.backing.value in s.threads)
    ensures LeaderInv(ConversationStep(s, op, w).store)
  {
    match op {
      case BeginTurn(p, model, pending, now) =>
        var c := Memory.Ensured(Memory.ContextOr(s, p), p, model, w.wording);
        PublishStoreKeeps(s, c.(pendingTurn := Some(pending), updatedAt := Some(now)));
      case DiscardTurn(p, now) =>
        if p in s.contexts && s.contexts[p].pendingTurn.Some? {
          PublishStoreKeeps(s, s.contexts[p].(pendingTurn := None, updatedAt := Some(now)));
        }
      case RecordTurn(p, summary, responseId, output, now, backing) =>
        RecordStoreKeeps(s, p, summary, responseId, output, now, backing, w.wording);
      case CompactThread(id, preserve, now) =>
        if id in s.threads {
          CompactStoreKeeps(s, id, preserve, now, w.wording);
        }
      case UpsertThread(u) => UpsertStoreKeeps(s, u, w.wording);
      case ForkThread(tenant, parent, child, model, title, source, now) =>
        ForkStoreKeeps(s, tenant, parent, child, model, title, source, now, w.wording);
    }
  }

  /** The conversation side is untouched, so its part of the invariant holds as before. */
  lemma AccountSideKeeps(s: Store, s': Store)
    requires LeaderInv(s) && Inv(s') && SameConversations(s, s')
    ensures LeaderInv(s')
  {
    ThreadsUntouched(s, s');
  }

  lemma RouteStepKeeps(s: Store, op: Op)
    requires LeaderInv(s) && IsRouteChange(op)
    ensures LeaderInv(RouteStep(s, op).store) && SameConversations(s, RouteStep(s, op).store)
  {
    match op {
      case RouteEvent(id, mode, kind, now, incidentId, order) =>
        RouteEventKeeps(s, id, mode, kind, now, incidentId, order);
      case FailOver(id, severity, seconds, now, incidentId, order) =>
        FailoverKeeps(s, id, severity, seconds, now, incidentId, order);
      case MarkQuota(id, resetAt, message, now, incidentId, order) =>
        QuotaKeeps(s, id, resetAt, message, now, incidentId, order);
    }
    AccountSideKeeps(s, RouteStep(s, op).store);
  }

  lemma PlainStepKeeps(s: Store, op: Op)
    requires LeaderInv(s) && IsPlain(op) && Legal(s, op)
    ensures LeaderInv(PlainStep(s, op).store) && SameConversations(s, PlainStep(s, op).store)
  {
    var s' := PlainStep(s, op).store;
    match op {
      case ImportAccount(id, request) => ImportKeeps(s, id, request);
      case DeleteAccount(id, order) => DeleteKeeps(s, id, order);
      case RefreshSignals(id, h, h5, h7) => RefreshSignalsKeeps(s, id, h, h5, h7);
      case UpdateCredential(c) => CredentialKeeps(s, c);
      case CreateTenant(_) => SameAccountsKeeps(s, s');
      case CreateApiKey(_) => SameAccountsKeeps(s, s');
      case RecordLog(_) => SameAccountsKeeps(s, s');
    }
    AccountSideKeeps(s, s');
  }

  lemma RefreshSignalsKeeps(s: Store, id: AccountId, h: real, h5: real, h7: real)
    requires Inv(s)
    ensures var s' := AccountOps.RefreshSignals(s, id, h, h5, h7).store; Inv(s') && SameConversations(s, s')
  {
    var s' := AccountOps.RefreshSignals(s, id, h, h5, h7).store;
    assert s'.accounts.Keys == s.accounts.Keys;
  }

  /** An unrecognised event that ejects an account from warp keeps it to itself. */
  ghost predicate RoutePublished(s: Store, op: Op) {
    op.RouteEvent? ==>
      op.kind == CF_HIT || op.kind == SUCCESS || op.id !in s.routeStates || !WarpExpired(s.routeStates[op.id], op.now)
  }

  /** A compaction that cannot summarise the turns it takes out keeps their loss to itself. */
  ghost predicate ConversationPublished(s: Store, op: Op, w: World) {
    match op
    case RecordTurn(p, _, _, _, _, backing) =>
      (backing.Some? ==> backing.value in s.threads) ==> Memory.RecordCompletes(s, p, backing, w.wording)
    case CompactThread(id, preserve, _) => id in s.threads ==> Memory.Completes(s, id, preserve, w.wording)
    case _ => true
  }

  /** All operations tell everything they do, but for three that do so under a condition. */
  ghost predicate Published(s: Store, op: Op, w: World) {
    if IsRouteChange(op) then RoutePublished(s, op)
    else if IsConversation(op) then ConversationPublished(s, op, w)
    else true
  }

  /** What an operation sends rebuilds what it did exactly when it is published. */
  lemma StepBridgesExactly(s: Store, op: Op, w: World)
    requires LeaderInv(s) && Legal(s, op)
    ensures Bridges(s, Step(s, op, w)) <==> Published(s, op, w)
  {
    if op.SelectLease? {
      SelectBridges(s, op, w);
    } else if IsConversation(op) {
      ConversationStepBridgesExactly(s, op, w);
    } else if IsRouteChange(op) {
      RouteStepBridgesExactly(s, op);
    } else {
      PlainStepBridges(s, op);
    }
  }

  lemma PlainStepBridges(s: Store, op: Op)
    requires LeaderInv(s) && IsPlain(op) && Legal(s, op)
    ensures Bridges(s, PlainStep(s, op))
  {
    match op {
      case CreateTenant(t) => ApplyOne(s, TenantUpsert(t));
      case CreateApiKey(k) => ApplyOne(s, ApiKeyUpsert(k));
      case ImportAccount(id, request) => ImportBridges(s, id, request);
      case DeleteAccount(id, order) => DeleteBridges(s, id, order);
      case RefreshSignals(id, h, h5, h7) => RefreshSignalsBridges(s, id, h, h5, h7);
      case UpdateCredential(c) => UpdateCredentialBridges(s, c);
      case RecordLog(log) => RecordLogBridges(s, log);
    }
  }

  lemma RouteStepBridgesExactly(s: Store, op: Op)
    requires LeaderInv(s) && IsRouteChange(op) && Legal(s, op)
    ensures Bridges(s, RouteStep(s, op)) <==> RoutePublished(s, op)
  {
    match op {
      case RouteEvent(id, mode, kind, now, incidentId, order) =>
        RouteEventBridgesExactly(s, id, mode, kind, now, incidentId, order);
      case FailOver(id, severity, seconds, now, incidentId, order) =>
        FailoverBridges(s, id, severity, seconds, now, incidentId, order);
      case MarkQuota(id, resetAt, message, now, incidentId, order) =>
        QuotaBridges(s, id, resetAt, message, now, incidentId, order);
    }
  }

  lemma ConversationStepBridgesExactly(s: Store, op: Op, w: World)
    requires LeaderInv(s) && IsConversation(op) && Legal(s, op)
    ensures Bridges(s, ConversationStep(s, op, w)) <==> ConversationPublished(s, op, w)
  {
    match op {
      case BeginTurn(p, model, pending, now) => Memory.BeginTurnBridges(s, p, model, pending, now, w.wording);
      case DiscardTurn(p, now) => Memory.DiscardTurnBridges(s, p, now);
      case RecordTurn(p, summary, responseId, output, now, backing) =>
        Memory.RecordTurnBridgesExactly(s, p, summary, responseId, output, now, backing, w.wording);
      case CompactThread(id, preserve, now) =>
        if id in s.threads {
          Memory.CompactBridgesExactly(s, id, preserve, now, w.wording);
        }
      case UpsertThread(u) => Threads.UpsertThreadBridges(s, u, w.wording);
      case ForkThread(tenant, parent, child, model, title, source, now) =>
        Threads.ForkThreadBridges(s, tenant, parent, child, model, title, source, now, w.wording);
    }
  }

  lemma SelectBridges(s: Store, op: Op, w: World)
    requires LeaderInv(s) && op.SelectLease? && Legal(s, op)
    ensures Bridges(s, SelectStep(s, op, w))
  {
    ResolveBridgesExactly(s, op.selection, op.now, op.routeOrder, op.accountOrder, w.rank);
    forall k | k in s.routeStates && WarpExpired(s.routeStates[k], op.now)
      ensures s.routeStates[k].routeMode == Warp
    {
      assert RouteInv(s.routeStates[k]);
    }
  }

  lemma RecordLogBridges(s: Store, log: RequestLog)
    requires !KnowsLog(s.logs, log.id)
    ensures Bridges(s, RecordLogOutcome(s, log))
  {
    var o := RecordLogOutcome(s, log);
    ApplyTwo(s, LogInsert(log), MetricsUpsert(o.store.metrics));
  }

  // ---- Any interleaving with deliveries -------------------------------------------------------------------

  datatype System = System(leader: Store, follower: Store, queue: seq<Message>)

  datatype Action = Lead(op: Op) | Deliver

  ghost predicate Enabled(sys: System, a: Action) {
    match a
    case Lead(op) => LeaderInv(sys.leader) && Legal(sys.leader, op)
    case Deliver => sys.queue != []
  }

  ghost function Next(sys: System, a: Action, w: World): System
    requires Enabled(sys, a)
  {
    match a
    case Lead(op) => var o := Step(sys.leader, op, w); System(o.store, sys.follower, sys.queue + o.sent)
    case Deliver => System(sys.leader, Apply(sys.follower, sys.queue[0]), sys.queue[1..])
  }

  /** What is still queued would turn the follower into the leader. */
  ghost predicate Bridged(sys: System) {
    ApplyAll(sys.follower, sys.queue) == sys.leader
  }

  /** One step keeps the bridge unless it is an unpublished operation, and such an operation breaks it. */
  lemma NextKeepsBridgeExactly(sys: System, a: Action, w: World)
    requires LeaderInv(sys.leader) && Bridged(sys) && Enabled(sys, a)
    ensures LeaderInv(Next(sys, a, w).leader)
    ensures Bridged(Next(sys, a, w)) <==> (a.Lead? ==> Published(sys.leader, a.op, w))
  {
    match a {
      case Lead(op) =>
        StepKeeps(sys.leader, op, w);
        ApplyAllConcat(sys.follower, sys.queue, Step(sys.leader, op, w).sent);
        StepBridgesExactly(sys.leader, op, w);
      case Deliver =>
    }
  }

  /** A run: every action is possible when its turn comes, and every operation is published. */
  ghost predicate Runnable(sys: System, actions: seq<Action>, w: World)
    decreases |actions|
  {
    actions == [] ||
    (Enabled(sys, actions[0]) && (actions[0].Lead? ==> Published(sys.leader, actions[0].op, w))
     && Runnable(Next(sys, actions[0], w), actions[1..], w))
  }

  ghost function Final(sys: System, actions: seq<Action>, w: World): System
    requires Runnable(sys, actions, w)
    decreases |actions|
  {
    if actions == [] then sys else Final(Next(sys, actions[0], w), actions[1..], w)
  }

  /** After any run the queue bridges follower to leader; once it is drained they are equal. */
  lemma {:induction false} FollowerCatchesUp(sys: System, actions: seq<Action>, w: World)
    requires LeaderInv(sys.leader) && Bridged(sys) && Runnable(sys, actions, w)
    ensures var end := Final(sys, actions, w);
      LeaderInv(end.leader) && Bridged(end) && (end.queue == [] ==> end.follower == end.leader)
    decreases |actions|
  {
    if actions != [] {
      NextKeepsBridgeExactly(sys, actions[0], w);
      FollowerCatchesUp(Next(sys, actions[0], w), actions[1..], w);
    }
  }

  /** Draining the queue after any run from the empty start reproduces the leader. */
  lemma DrainedFollowerEqualsLeader(actions: seq<Action>, w: World)
    requires Runnable(System(EMPTY_STORE, EMPTY_STORE, []), actions, w)
    ensures var end := Final(System(EMPTY_STORE, EMPTY_STORE, []), actions, w);
      ApplyAll(end.follower, end.queue) == end.leader
  {
    EmptyIsInvariant();
    FollowerCatchesUp(System(EMPTY_STORE, EMPTY_STORE, []), actions, w);
  }
}
