/** The leader at work: operations that edit the runtime in place and enqueue what they changed. */
module AppState {
  import opened Prelude
  import opened Models
  import opened Bus
  import opened CfState
  import opened AccountOps
  import Json
  import Memory
  import Router
  import Runs
  import Selection
  import SelectionTheorems
  import Summaries
  import Text
  import Threads

  class Leader {
    const runtime: Runtime
    const world: Runs.World
    var outbox: seq<Message>

    /** The replicated state, and everything enqueued so far. */
    function State(): Outcome
      reads this, runtime
    {
      Outcome(runtime.Snapshot(), outbox)
    }

    constructor (world: Runs.World)
      ensures fresh(runtime) && this.world == world && State() == Outcome(EMPTY_STORE, [])
    {
      var r := new Runtime();
      runtime := r;
      this.world := world;
      outbox := [];
    }

    method EnqueueMany(messages: seq<Message>)
      modifies this`outbox
      ensures outbox == old(outbox) + messages
    {
      for i := 0 to |messages|
        invariant outbox == old(outbox) + messages[..i]
      {
        outbox := outbox + [messages[i]];
      }
      assert messages[..|messages|] == messages;
    }

    method EvictLeases(id: AccountId) returns (messages: seq<Message>, ghost order: seq<PrincipalId>)
      requires forall p :: p in runtime.leases ==> runtime.leases[p].principalId == p
      modifies runtime`leases
      ensures Enumerates(order, LeasesOn(old(runtime.Snapshot()), id))
      ensures runtime.leases == WithoutAccount(old(runtime.leases), id)
      ensures messages == LeaseDeletes(order)
    {
      var evicted;
      evicted, order := runtime.EvictLeases(id);
      messages := [];
      for i := 0 to |evicted|
        invariant messages == LeaseDeletes(order[..i])
      {
        messages := messages + [LeaseDelete(evicted[i].principalId)];
        assert order[..i + 1] == order[..i] + [order[i]];
      }
      assert order[..|order|] == order;
    }

    method IsSoleAccount(id: AccountId) returns (sole: bool)
      ensures sole <==> SoleAccount(runtime.Snapshot(), id)
    {
      if id !in runtime.accounts {
        return false;
      }
      var tenant := runtime.accounts[id].tenantId;
      var serving :=
        set a | a in runtime.accounts && runtime.accounts[a].tenantId == tenant && a in runtime.credentials;
      sole := |serving| == 1;
    }

    // ---- Accounts -----------------------------------------------------------------------------------

    method ImportAccount(id: AccountId, request: ImportRequest)
      requires id !in runtime.accounts
      modifies this, runtime
      ensures State() == Then(old(State()), Import(old(runtime.Snapshot()), id, request))
    {
      var account := ImportedAccount(id, request);
      runtime.routeStates := runtime.routeStates[id := Fresh(id)];
      runtime.accounts := runtime.accounts[id := account];
      var messages := [AccountUpsert(account)];
      if request.credential.Some? {
        var credential := request.credential.value.(accountId := id);
        runtime.credentials := runtime.credentials[id := credential];
        messages := messages + [CredentialUpsert(credential)];
      }
      EnqueueMany(messages + [RouteStateUpsert(Fresh(id))]);
    }

    method DeleteAccount(id: AccountId) returns (known: bool, ghost order: seq<PrincipalId>)
      requires Keyed(runtime.Snapshot())
      modifies this, runtime
      ensures known <==> id in old(runtime.accounts)
      ensures known ==> Enumerates(order, LeasesOn(old(runtime.Snapshot()), id))
      ensures State() == Then(old(State()), Delete(old(runtime.Snapshot()), id, order))
    {
      order := [];
      known := id in runtime.accounts;
      if !known {
        return;
      }
      runtime.accounts := runtime.accounts - {id};
      runtime.credentials := runtime.credentials - {id};
      runtime.routeStates := runtime.routeStates - {id};
      var messages;
      messages, order := EvictLeases(id);
      EnqueueMany(messages);
      EnqueueMany([Message.AccountDelete(id)]);
    }

    /**
     * The common tail of a route change: the mode is synced, the incident filed, the leases dropped, and all
     * of it sent.
     */
    method PublishRouteChange(id: AccountId, r: RouteState, severity: Option<string>, incidentId: string, now: Time,
                              evict: bool)
        returns (ghost order: seq<PrincipalId>)
      requires Keyed(runtime.Snapshot()) && id in runtime.accounts && r.accountId == id
      modifies this, runtime
      ensures evict ==> Enumerates(order, LeasesOn(old(runtime.Snapshot()), id))
      ensures !evict ==> order == []
      ensures State() == Then(old(State()), PublishRoute(
        old(runtime.Snapshot()), id, r,
        if severity.Some? then Some(IncidentOf(old(runtime.Snapshot()), id, r, severity.value, incidentId, now))
        else None,
        evict, order))
    {
      order := [];
      runtime.routeStates := runtime.routeStates[id := r];
      var account := runtime.accounts[id].(currentMode := r.routeMode);
      runtime.accounts := runtime.accounts[id := account];
      var messages := [AccountUpsert(account), RouteStateUpsert(r)];
      if severity.Some? {
        var incident := Incident(incidentId, id, account.displayLabel, r.routeMode, severity.value, now,
                                 r.cooldownLevel);
        runtime.incidents := Prepend(incident, runtime.incidents, INCIDENT_CAPACITY);
        messages := messages + [IncidentInsert(incident)];
      }
      if evict {
        var deletes;
        deletes, order := EvictLeases(id);
        messages := messages + deletes;
      }
      assert Outcome(runtime.Snapshot(), messages) == PublishRoute(
        old(runtime.Snapshot()), id, r,
        if severity.Some? then Some(IncidentOf(old(runtime.Snapshot()), id, r, severity.value, incidentId, now))
        else None,
        evict, order);
      EnqueueMany(messages);
    }

    method RecordRouteEvent(id: AccountId, mode: RouteMode, kind: string, now: Time, incidentId: string)
        returns (r: Option<RouteState>, ghost order: seq<PrincipalId>)
      requires Inv(runtime.Snapshot())
      modifies this, runtime
      ensures id in old(runtime.routeStates) ==>
        Enumerates(order, RouteEventEvicted(old(runtime.Snapshot()), id, mode, kind))
      ensures State() == Then(
        old(State()), RouteEventOutcome(old(runtime.Snapshot()), id, mode, kind, now, incidentId, order))
      ensures r == if id in runtime.routeStates then Some(runtime.routeStates[id]) else None
    {
      order := [];
      if id !in runtime.routeStates {
        return None, order;
      }
      var cell := new RouteCell(runtime.routeStates[id]);
      cell.Reconcile(now);
      if kind == CF_HIT {
        var outcome := cell.RegisterCfHit(mode, now);
        var severity := if outcome.switchedToWarp then "direct-escalation" else "cooldown";
        var sole := IsSoleAccount(id);
        order := PublishRouteChange(id, cell.Snapshot(), Some(severity), incidentId, now,
                                    outcome.failoverRequired && !sole);
      } else if kind == SUCCESS {
        cell.RegisterSuccess(now);
        cell.cooldownReason := None;
        order := PublishRouteChange(id, cell.Snapshot(), None, incidentId, now, false);
      } else {
        runtime.routeStates := runtime.routeStates[id := cell.Snapshot()];
      }
      r := Some(runtime.routeStates[id]);
    }

    method FailoverAccount(id: AccountId, severity: string, seconds: int, now: Time, incidentId: string)
        returns (r: Option<RouteState>, ghost order: seq<PrincipalId>)
      requires Inv(runtime.Snapshot())
      modifies this, runtime
      ensures id in old(runtime.routeStates) ==>
        Enumerates(order, FailoverEvicted(old(runtime.Snapshot()), id, severity))
      ensures State() == Then(
        old(State()), FailoverOutcome(old(runtime.Snapshot()), id, severity, seconds, now, incidentId, order))
      ensures r == if id in runtime.routeStates then Some(runtime.routeStates[id]) else None
    {
      order := [];
      var sole := IsSoleAccount(id);
      if id !in runtime.routeStates {
        return None, order;
      }
      var spared := sole && severity != QUOTA;
      var before := runtime.routeStates[id];
      var route := before.(
        successStreak := 0,
        cooldownUntil := if spared then None else Some(now + seconds * SECOND),
        cooldownLevel := if before.cooldownLevel < 1 then 1 else before.cooldownLevel,
        cooldownReason := Some(severity),
        lastCfAt := Some(now));
      order := PublishRouteChange(id, route, Some(severity), incidentId, now, !spared);
      r := Some(route);
    }

    method MarkQuotaExhausted(id: AccountId, resetAt: Option<Time>, message: Option<string>, now: Time,
                              incidentId: string)
        returns (r: Option<RouteState>, ghost order: seq<PrincipalId>)
      requires Inv(runtime.Snapshot())
      modifies this, runtime
      ensures id in old(runtime.routeStates) ==> Enumerates(order, LeasesOn(old(runtime.Snapshot()), id))
      ensures State() == Then(
        old(State()), QuotaOutcome(old(runtime.Snapshot()), id, resetAt, message, now, incidentId, order))
      ensures r == if id in runtime.routeStates then Some(runtime.routeStates[id]) else None
    {
      order := [];
      var until := resetAt.UnwrapOr(now + 30 * MINUTE);
      if id !in runtime.routeStates {
        return None, order;
      }
      var before := runtime.routeStates[id];
      var route := before.(
        successStreak := 0,
        cooldownLevel := if before.cooldownLevel < 1 then 1 else before.cooldownLevel,
        cooldownUntil := Some(until),
        cooldownReason := Some(QuotaReason(message)));
      order := PublishRouteChange(id, route, Some(QUOTA_EXHAUSTED), incidentId, now, true);
      r := Some(route);
    }

    // ---- Selection ----------------------------------------------------------------------------------

    /** Reconciles every route state and publishes the ones whose mode changed. */
    method ReconcileDrift(now: Time) returns (ghost routeOrder: seq<AccountId>)
      requires Inv(runtime.Snapshot())
      modifies this, runtime`routeStates, runtime`accounts
      ensures Enumerates(routeOrder, old(runtime.routeStates).Keys)
      ensures State() == Then(old(State()), Outcome(Selection.Reconciled(old(runtime.Snapshot()), now),
                                                    Selection.DriftMessages(old(runtime.Snapshot()), now, routeOrder)))
    {
      ghost var s := runtime.Snapshot();
      var changed;
      changed, routeOrder := ReconcileRoutes(now);
      SyncDrifted(s, now, routeOrder, changed);
    }

    method ReconcileOne(id: AccountId, now: Time) returns (drifted: bool)
      requires id in runtime.routeStates
      modifies runtime`routeStates
      ensures var before := old(runtime.routeStates)[id];
        && runtime.routeStates == old(runtime.routeStates)[id := AfterReconcile(before, now)]
        && drifted == (AfterReconcile(before, now).routeMode != before.routeMode)
    {
      var cell := new RouteCell(runtime.routeStates[id]);
      var previousMode := cell.routeMode;
      cell.Reconcile(now);
      drifted := previousMode != cell.routeMode;
      runtime.routeStates := runtime.routeStates[id := cell.Snapshot()];
    }

    method ReconcileRoutes(now: Time) returns (changed: seq<AccountId>, ghost routeOrder: seq<AccountId>)
      requires Inv(runtime.Snapshot())
      modifies runtime`routeStates
      ensures Enumerates(routeOrder, old(runtime.routeStates).Keys)
      ensures runtime.routeStates == Selection.ReconciledRoutes(old(runtime.Snapshot()), now)
      ensures changed == Selection.Drifted(old(runtime.Snapshot()), now, routeOrder)
    {
      ghost var s := runtime.Snapshot();
      var ids := ArbitraryOrder(runtime.routeStates.Keys);
      routeOrder := ids;
      changed := [];
      assert ids[..0] == [];
      for i := 0 to |ids|
        invariant runtime.routeStates == PartlyReconciled(s, now, ids[..i])
        invariant changed == Selection.Drifted(s, now, ids[..i])
      {
        var id := ids[i];
        assert id in ids;
        DriftedSnoc(s, now, ids, i);
        PartlySnoc(s, now, ids, i);
        var drifted := ReconcileOne(id, now);
        changed := if drifted then changed + [id] else changed;
      }
      assert ids[..|ids|] == ids;
      AllReconciled(s, now, ids);
    }

    method SyncDrifted(ghost s: Store, now: Time, ghost routeOrder: seq<AccountId>, changed: seq<AccountId>)
      requires Inv(s) && runtime.Snapshot() == s.(routeStates := Selection.ReconciledRoutes(s, now))
      requires Enumerates(routeOrder, s.routeStates.Keys) && changed == Selection.Drifted(s, now, routeOrder)
      modifies this, runtime`accounts
      ensures State() == Outcome(Selection.Reconciled(s, now),
                                 old(outbox) + Selection.DriftMessages(s, now, routeOrder))
    {
      DriftedMembers(s, now, routeOrder);
      var routeMessages, accountMessages := SyncModes(s, Selection.Reconciled(s, now), changed);
      SyncedAll(s, now, changed);
      EnqueueMany(routeMessages + accountMessages);
    }

    /** Gives each listed account the mode of its route, and snapshots both. */
    method SyncModes(ghost s: Store, ghost s1: Store, ids: seq<AccountId>)
        returns (routeMessages: seq<Message>, accountMessages: seq<Message>)
      requires runtime.accounts == s.accounts && runtime.routeStates == s1.routeStates
      requires forall k :: k in ids ==> k in s1.routeStates && k in s1.accounts && Runs.Remoded(s, s1, k)
      modifies runtime`accounts
      ensures runtime.accounts == PartlySynced(s, s1, ids)
      ensures routeMessages == Selection.RouteUpserts(s1, ids) && accountMessages == Selection.AccountUpserts(s1, ids)
    {
      routeMessages, accountMessages := [], [];
      assert PartlySynced(s, s1, ids[..0]) == s.accounts;
      for i := 0 to |ids|
        invariant runtime.accounts == PartlySynced(s, s1, ids[..i])
        invariant routeMessages == Selection.RouteUpserts(s1, ids)[..i]
        invariant accountMessages == Selection.AccountUpserts(s1, ids)[..i]
      {
        var id := ids[i];
        assert id in ids;
        SyncedSnoc(s, s1, ids, i);
        var account := runtime.accounts[id].(currentMode := runtime.routeStates[id].routeMode);
        runtime.accounts := runtime.accounts[id := account];
        routeMessages := routeMessages + [RouteStateUpsert(runtime.routeStates[id])];
        accountMessages := accountMessages + [AccountUpsert(account)];
      }
      assert ids[..|ids|] == ids;
    }

    /** Judges the pool of a request on copies of the tables, without changing them. */
    method Judge(s: Store, req: Selection.Request, now: Time, ids: seq<AccountId>) returns (v: Selection.Verdict)
      requires forall k :: k in ids ==> k in s.accounts
      requires !Selection.Reusable(s, req, now)
      ensures v == Selection.VerdictOf(s, req, now, ids, world.rank)
    {
      var all := Selection.Listed(s, ids);
      var tenant := Selection.TenantAccounts(req, all);
      var routable := Selection.RoutableAccounts(s, req, all);
      var matching := Selection.ModelAccounts(s, req, all);
      var t := Selection.TallyAccounts(matching, s.routeStates, now);
      var candidates := Selection.SortByLabel(t.candidates);
      if candidates == [] {
        var kind :=
          if matching == [] then (if routable == [] then Selection.ExhaustedKind.Unavailable else Selection.Capability)
          else if t.quota == |matching| && t.quota > 0 then Selection.QuotaExhausted
          else if t.cooling > 0 then Selection.Cooldown
          else Selection.ExhaustedKind.Unavailable;
        return Selection.Exhausted(Selection.Exhaustion(
          kind, seq(|matching|, i requires 0 <= i < |matching| => matching[i].id), t.quota, t.cooling, 0,
          if routable == [] then 0 else |routable| - |matching|, |tenant| - |routable|, t.resetAt, t.retryAt));
      }
      var dual := Router.SelectDualCandidates(req.placementAffinityKey, req.model, candidates, world.rank);
      var placed := Selection.BestOf(s, req, candidates, dual);
      v := Selection.Selected(Selection.FreshLease(s, req, now, placed), req.cacheAffinityKey,
                              Selection.CurrentWarmup(s));
    }

    /** Reuses the principal's lease, places a fresh one, or says why neither. */
    method ResolveLease(req: Selection.Request, now: Time)
        returns (v: Selection.Verdict, ghost routeOrder: seq<AccountId>, ghost accountOrder: seq<AccountId>)
      requires Inv(runtime.Snapshot())
      modifies this, runtime
      ensures Enumerates(routeOrder, old(runtime.routeStates).Keys)
      ensures Enumerates(accountOrder, old(runtime.accounts).Keys)
      ensures var r := Selection.Resolve(old(runtime.Snapshot()), req, now, routeOrder, accountOrder, world.rank);
        v == r.verdict && State() == Then(old(State()), r.outcome)
    {
      ghost var s, before := runtime.Snapshot(), State();
      routeOrder := ReconcileDrift(now);
      ghost var drift := Outcome(runtime.Snapshot(), Selection.DriftMessages(s, now, routeOrder));
      SelectionTheorems.ReconcilingKeepsInv(s, now);
      var ids := ArbitraryOrder(runtime.accounts.Keys);
      accountOrder := ids;
      v := SelectOn(req, now, ids);
      TailResolves(s, req, now, routeOrder, ids, world.rank, v);
      ThenJoins(before, drift, Tail(drift.store, req, now, v), State(),
                Selection.Resolve(s, req, now, routeOrder, ids, world.rank).outcome);
    }

    method SelectOn(req: Selection.Request, now: Time, ids: seq<AccountId>) returns (v: Selection.Verdict)
      requires forall k :: k in ids ==> k in runtime.accounts
      modifies this, runtime
      ensures v == Selection.VerdictOf(old(runtime.Snapshot()), req, now, ids, world.rank)
      ensures State() == Then(old(State()), Tail(old(runtime.Snapshot()), req, now, v))
    {
      var s := runtime.Snapshot();
      if Selection.Reusable(s, req, now) {
        var lease := Selection.RefreshedLease(s, req, now);
        runtime.leases := runtime.leases[req.principalId := lease];
        EnqueueMany([LeaseUpsert(lease)]);
        v := Selection.Selected(lease, req.cacheAffinityKey, Selection.CurrentWarmup(s));
        return;
      }
      v := Judge(s, req, now, ids);
      if v.Selected? {
        runtime.leases := runtime.leases[req.principalId := v.lease];
        runtime.metrics := Selection.CurrentMetrics(runtime.logs, runtime.metrics);
        EnqueueMany([LeaseUpsert(v.lease), MetricsUpsert(runtime.metrics)]);
      }
    }

    // ---- Conversations --------------------------------------------------------------------------------

    method PublishContext(c: Context)
      modifies this`outbox, runtime`contexts
      ensures State() == Then(old(State()), Memory.Publish(old(runtime.Snapshot()), c))
    {
      runtime.contexts := runtime.contexts[c.principalId := c];
      EnqueueMany([ContextUpsert(c)]);
    }

    method BeginTurn(p: PrincipalId, model: string, pending: PendingTurn, now: Time)
      modifies this`outbox, runtime`contexts
      ensures State() == Then(
        old(State()), Memory.BeginTurn(old(runtime.Snapshot()), p, model, pending, now, world.wording))
    {
      var c := if p in runtime.contexts then runtime.contexts[p] else Context("", "", "", None, [], None);
      var spine := if Text.IsBlank(c.workflowSpine) then Memory.WorkflowSpine(model, world.wording)
                   else c.workflowSpine;
      PublishContext(Context(p, model, spine, Some(pending), c.turns, Some(now)));
    }

    method DiscardTurn(p: PrincipalId, now: Time)
      modifies this`outbox, runtime`contexts
      ensures State() == Then(old(State()), Memory.DiscardTurn(old(runtime.Snapshot()), p, now))
    {
      if p !in runtime.contexts {
        return;
      }
      var c := runtime.contexts[p];
      if c.pendingTurn.None? {
        return;
      }
      PublishContext(c.(pendingTurn := None, updatedAt := Some(now)));
    }

    /** The archived turns are taken out before their summary is known to exist; without one the rest is not done. */
    method CompactThread(id: ThreadId, preserve: nat, now: Time) returns (completed: bool)
      requires Keyed(runtime.Snapshot()) && id in runtime.threads
      modifies this`outbox, runtime`contexts, runtime`threads
      ensures completed <==> Memory.Completes(old(runtime.Snapshot()), id, preserve, world.wording)
      ensures State() == Then(old(State()), Memory.Compact(old(runtime.Snapshot()), id, preserve, now, world.wording))
    {
      completed := true;
      var thread := runtime.threads[id];
      var keep := Memory.Kept(preserve);
      var p := thread.principalId;
      if p in runtime.contexts && |runtime.contexts[p].turns| > keep {
        var c := runtime.contexts[p];
        var archived := Memory.Archived(c, keep);
        runtime.contexts := runtime.contexts[p := c.(turns := c.turns[|c.turns| - keep..])];
        Summaries.FoldsExactly(thread.compactionSummary, archived, world.wording.summaryHeading);
        var summary := Summaries.Summarize(archived, world.wording.summaryHeading);
        if summary.None? {
          return false;
        }
        var merged := Summaries.MergeSummary(thread.compactionSummary, summary.value);
        if merged.None? {
          return false;
        }
        PublishBoth(Memory.CompactedContext(c, keep, merged.value, now, world.wording),
                    Memory.CompactedThread(thread, merged.value, now));
      }
    }

    method PublishBoth(c: Context, t: Thread)
      modifies this`outbox, runtime`contexts, runtime`threads
      ensures State() == Then(old(State()), Memory.PublishBoth(old(runtime.Snapshot()), c, t))
    {
      runtime.contexts := runtime.contexts[c.principalId := c];
      runtime.threads := runtime.threads[t.threadId := t];
      EnqueueMany([ContextUpsert(c), ThreadUpsert(t)]);
    }

    /** Some thread of the principal, if it has one; which of several is up to the table. */
    method ThreadOf(p: PrincipalId) returns (backing: Option<ThreadId>)
      ensures Memory.Backs(runtime.Snapshot(), p, backing)
    {
      var ids := ArbitraryOrder(runtime.threads.Keys);
      for i := 0 to |ids|
        invariant forall k :: 0 <= k < i ==> ids[k] in runtime.threads && runtime.threads[ids[k]].principalId != p
      {
        assert ids[i] in ids;
        if runtime.threads[ids[i]].principalId == p {
          return Some(ids[i]);
        }
      }
      assert forall t :: t in runtime.threads ==> t in ids;
      backing := None;
    }

    method RecordTurn(p: PrincipalId, summary: string, responseId: Option<string>, output: seq<Json.Value>, now: Time)
        returns (completed: bool, ghost backing: Option<ThreadId>)
      requires Keyed(runtime.Snapshot())
      modifies this`outbox, runtime`contexts, runtime`threads
      ensures Memory.Backs(old(runtime.Snapshot()), p, backing)
      ensures completed <==> Memory.RecordCompletes(old(runtime.Snapshot()), p, backing, world.wording)
      ensures State() == Then(
        old(State()),
        Memory.RecordTurn(old(runtime.Snapshot()), p, summary, responseId, output, now, backing, world.wording))
    {
      completed := true;
      var thread := ThreadOf(p);
      backing := thread;
      if p !in runtime.contexts || runtime.contexts[p].pendingTurn.None? {
        return;
      }
      var c := runtime.contexts[p];
      ghost var s := runtime.Snapshot();
      PublishContext(Memory.Recorded(c, summary, responseId, output, now));
      ghost var recorded := Memory.Publish(s, Memory.Recorded(c, summary, responseId, output, now));
      assert State() == Then(old(State()), recorded);
      if |c.turns| + 1 > Memory.TURN_LIMIT && thread.Some? {
        Memory.CompletesOnceRecorded(s, p, summary, responseId, output, now, thread.value, world.wording);
        completed := CompactThread(thread.value, Memory.PRESERVED_TURNS, now);
        ghost var compacted := Memory.Compact(recorded.store, thread.value, Memory.PRESERVED_TURNS, now, world.wording);
        ThenJoins(old(State()), recorded, compacted, State(), Then(recorded, compacted));
      }
    }

    // ---- Threads ------------------------------------------------------------------------------------------

    method EnsureParent(u: Threads.Upsert)
      modifies this`outbox, runtime`threads
      ensures State() == Then(old(State()), Threads.EnsureParent(old(runtime.Snapshot()), u, world.wording))
    {
      var parent := Threads.ParentFor(runtime.Snapshot(), u);
      if parent.Some? && parent.value !in runtime.threads {
        var t := Threads.Placeholder(u, parent.value, world.wording);
        runtime.threads := runtime.threads[parent.value := t];
        EnqueueMany([ThreadUpsert(t)]);
      }
    }

    method AppendThreadEdge(e: Edge)
      modifies this`outbox, runtime`edges
      ensures State() == Then(old(State()), Threads.AppendEdge(old(runtime.Snapshot()), e))
    {
      if !KnowsEdge(runtime.edges, e) {
        runtime.edges := runtime.edges + [e];
        EnqueueMany([EdgeUpsert(e)]);
      }
    }

    method UpsertThread(u: Threads.Upsert)
      requires Keyed(runtime.Snapshot())
      modifies this`outbox, runtime`threads, runtime`edges
      ensures State() == Then(old(State()), Threads.UpsertThread(old(runtime.Snapshot()), u, world.wording))
    {
      var s := runtime.Snapshot();
      var parent := Threads.ParentFor(s, u);
      EnsureParent(u);
      var t := Threads.Written(s, runtime.Snapshot(), u, world.wording);
      runtime.threads := runtime.threads[t.threadId := t];
      EnqueueMany([ThreadUpsert(t)]);
      if parent.Some? {
        AppendThreadEdge(Edge(parent.value, u.id, Threads.FORK, u.now));
      }
    }

    /** As a client names them: identifiers are normalised first. */
    method UpsertNamedThread(tenant: Tenant, id: string, parent: Option<string>, model: Option<string>,
                             title: Option<string>, source: string, now: Time)
      requires Keyed(runtime.Snapshot())
      modifies this`outbox, runtime`threads, runtime`edges
      ensures State() == Then(old(State()), Threads.UpsertThread(
        old(runtime.Snapshot()), Threads.NormalizedUpsert(tenant, id, parent, model, title, source, now),
        world.wording))
    {
      UpsertThread(Threads.NormalizedUpsert(tenant, id, parent, model, title, source, now));
    }

    method ForkThread(tenant: Tenant, parentId: ThreadId, childId: ThreadId, model: Option<string>,
                      title: Option<string>, source: string, now: Time)
        returns (error: Option<Threads.ForkError>)
      requires Keyed(runtime.Snapshot())
      modifies this`outbox, runtime`threads, runtime`edges, runtime`contexts
      ensures var r := Threads.ForkThread(old(runtime.Snapshot()), tenant, parentId, childId, model, title, source,
                                          now, world.wording);
        match r
        case Refused(e) => error == Some(e) && State() == old(State())
        case Forked(outcome) => error == None && State() == Then(old(State()), outcome)
    {
      if parentId !in runtime.threads {
        return Some(Threads.ParentNotFound);
      }
      var parent := runtime.threads[parentId];
      if parent.tenantId != tenant.id {
        return Some(Threads.ParentOfAnotherTenant);
      }
      var s := runtime.Snapshot();
      var model' := if model.Some? then model else parent.model;
      var u := Threads.Upsert(tenant, childId, Some(parent.threadId), model', title, source, now);
      ghost var before, first := State(), Threads.UpsertThread(s, u, world.wording);
      UpsertThread(u);
      if parent.principalId in s.contexts && childId in runtime.threads {
        ghost var c := Threads.InheritedContext(first.store, first.store.threads[childId], parent,
                                                s.contexts[parent.principalId], model', now);
        InheritContext(childId, parent, s.contexts[parent.principalId], model', now);
        ThenJoins(before, first, Memory.Publish(first.store, c), State(), Then(first, Memory.Publish(first.store, c)));
      }
      error := None;
    }

    /** As a client asks for it: the tenant is looked up, and identifiers are normalised first. */
    method ForkNamedThread(r: Threads.ForkRequest, generated: ThreadId, now: Time)
        returns (error: Option<Threads.ForkError>)
      requires Keyed(runtime.Snapshot())
      modifies this`outbox, runtime`threads, runtime`edges, runtime`contexts
      ensures match Threads.ForkNamed(old(runtime.Snapshot()), r, generated, now, world.wording)
        case Refused(e) => error == Some(e) && State() == old(State())
        case Forked(outcome) => error == None && State() == Then(old(State()), outcome)
    {
      if r.tenantId !in runtime.tenants {
        return Some(Threads.TenantNotFound);
      }
      var child := if r.childId.Some? then Threads.Normalize(r.childId.value) else generated;
      var source := r.source.UnwrapOr(Threads.INTERNAL_FORK);
      error := ForkThread(runtime.tenants[r.tenantId], Threads.Normalize(r.parentId), child, r.model, r.title, source,
                          now);
    }

    method InheritContext(childId: ThreadId, parent: Thread, parentContext: Context, model: Option<string>, now: Time)
      requires childId in runtime.threads
      modifies this`outbox, runtime`contexts
      ensures State() == Then(old(State()), Memory.Publish(
        old(runtime.Snapshot()),
        Threads.InheritedContext(old(runtime.Snapshot()), runtime.threads[childId], parent, parentContext, model, now)))
    {
      PublishContext(Threads.InheritedContext(runtime.Snapshot(), runtime.threads[childId], parent, parentContext,
                                              model, now));
    }

    method RecordRequestLog(log: RequestLog)
      modifies this`outbox, runtime`logs, runtime`metrics
      ensures State() == Then(old(State()), Runs.RecordLogOutcome(old(runtime.Snapshot()), log))
    {
      runtime.logs := [log] + runtime.logs;
      if |runtime.logs| > LOG_CAPACITY {
        runtime.logs := runtime.logs[..LOG_CAPACITY];
      }
      assert runtime.logs == Prepend(log, old(runtime.logs), LOG_CAPACITY);
      runtime.metrics := Selection.DeriveMetrics(runtime.logs, runtime.metrics);
      EnqueueMany([LogInsert(log), MetricsUpsert(runtime.metrics)]);
    }
  }

  /** What a selection does once the routes are reconciled. */
  function Tail(s: Store, req: Selection.Request, now: Time, v: Selection.Verdict): Outcome {
    if v.Exhausted? then Outcome(s, SILENT)
    else if Selection.Reusable(s, req, now) then
      Outcome(s.(leases := s.leases[req.principalId := v.lease]), [LeaseUpsert(v.lease)])
    else
      var m := Selection.CurrentMetrics(s.logs, s.metrics);
      Outcome(s.(leases := s.leases[req.principalId := v.lease], metrics := m),
              [LeaseUpsert(v.lease), MetricsUpsert(m)])
  }

  lemma ThenJoins(before: Outcome, first: Outcome, second: Outcome, after: Outcome, both: Outcome)
    requires after == Then(Then(before, first), second) && both == Then(first, second)
    ensures after == Then(before, both)
  {
    assert before.sent + first.sent + second.sent == before.sent + (first.sent + second.sent);
  }

  lemma TailResolves(s: Store, req: Selection.Request, now: Time, routeOrder: seq<AccountId>,
                     accountOrder: seq<AccountId>, rank: Router.Rank, v: Selection.Verdict)
    requires s.accounts.Keys == s.routeStates.Keys && forall k :: k in accountOrder ==> k in s.accounts
    requires forall k :: k in accountOrder ==> k in Selection.Reconciled(s, now).accounts
    requires v == Selection.VerdictOf(Selection.Reconciled(s, now), req, now, accountOrder, rank)
    ensures Selection.Resolve(s, req, now, routeOrder, accountOrder, rank) == Selection.Resolution(
      Then(Outcome(Selection.Reconciled(s, now), Selection.DriftMessages(s, now, routeOrder)),
           Tail(Selection.Reconciled(s, now), req, now, v)), v)
  {
  }

  // ---- Halfway through a pass over the routes -----------------------------------------------------------

  ghost function PartlyReconciled(s: Store, now: Time, done: seq<AccountId>): map<AccountId, RouteState> {
    map k | k in s.routeStates :: if k in done then AfterReconcile(s.routeStates[k], now) else s.routeStates[k]
  }

  ghost function PartlySynced(s: Store, s1: Store, done: seq<AccountId>): map<AccountId, Account> {
    map k | k in s.accounts :: if k in done && k in s1.accounts then s1.accounts[k] else s.accounts[k]
  }

  lemma AllReconciled(s: Store, now: Time, ids: seq<AccountId>)
    requires forall k :: k in ids <==> k in s.routeStates
    ensures PartlyReconciled(s, now, ids) == Selection.ReconciledRoutes(s, now)
  {
  }

  lemma PartlySnoc(s: Store, now: Time, ids: seq<AccountId>, i: nat)
    requires i < |ids| && NoDuplicates(ids) && ids[i] in s.routeStates
    ensures PartlyReconciled(s, now, ids[..i])[ids[i]] == s.routeStates[ids[i]]
    ensures PartlyReconciled(s, now, ids[..i + 1])
         == PartlyReconciled(s, now, ids[..i])[ids[i] := AfterReconcile(s.routeStates[ids[i]], now)]
  {
    assert ids[..i + 1] == ids[..i] + [ids[i]];
    assert ids[i] !in ids[..i];
  }

  lemma SyncedSnoc(s: Store, s1: Store, ids: seq<AccountId>, i: nat)
    requires i < |ids| && Runs.Remoded(s, s1, ids[i])
    ensures var before := PartlySynced(s, s1, ids[..i]);
      && before[ids[i]].(currentMode := s1.routeStates[ids[i]].routeMode) == s1.accounts[ids[i]]
      && PartlySynced(s, s1, ids[..i + 1]) == before[ids[i] := s1.accounts[ids[i]]]
  {
    assert ids[..i + 1] == ids[..i] + [ids[i]];
  }

  lemma SyncedAll(s: Store, now: Time, ids: seq<AccountId>)
    requires Inv(s) && forall k :: k in ids <==> k in s.routeStates && Selection.Drifts(s, k, now)
    ensures PartlySynced(s, Selection.Reconciled(s, now), ids) == Selection.ReconciledAccounts(s, now)
  {
  }

  lemma DriftedSnoc(s: Store, now: Time, ids: seq<AccountId>, i: nat)
    requires i < |ids|
    ensures Selection.Drifted(s, now, ids[..i + 1])
         == Selection.Drifted(s, now, ids[..i])
            + if ids[i] in s.routeStates && Selection.Drifts(s, ids[i], now) then [ids[i]] else []
  {
    var keep := (k: AccountId) => k in s.routeStates && Selection.Drifts(s, k, now);
    assert ids[..i + 1] == ids[..i] + [ids[i]];
    FilterConcat(keep, ids[..i], [ids[i]]);
    assert [ids[i]][1..] == [];
    assert Filter(keep, [ids[i]]) == if keep(ids[i]) then [ids[i]] else [];
  }

  lemma DriftedMembers(s: Store, now: Time, routeOrder: seq<AccountId>)
    requires Inv(s) && Enumerates(routeOrder, s.routeStates.Keys)
    ensures forall k ::
      k in Selection.Drifted(s, now, routeOrder) <==> k in s.routeStates && Selection.Drifts(s, k, now)
    ensures forall k :: k in Selection.Drifted(s, now, routeOrder) ==> Runs.Remoded(s, Selection.Reconciled(s, now), k)
  {
    Runs.ReconciledTables(s, now);
    FilterMembers((k: AccountId) => k in s.routeStates && Selection.Drifts(s, k, now), routeOrder);
  }
}
