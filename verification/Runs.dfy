/** Whole runs of the single leader: its operations in any order, and a follower fed by its messages. */
module Runs {
  import opened Prelude
  import opened Models
  import opened Bus
  import opened CfState
  import opened AccountOps
  import Json
  import Memory
  import Router
  import Selection
  import Threads

  /**
   * One atomic operation with its arguments and the choices its environment makes: clock readings,
   * fresh identifiers, and the orders in which hash maps happen to be iterated.
   */
  datatype Op =
    | CreateTenant(tenant: Tenant)
    | CreateApiKey(apiKey: ApiKey)
    | ImportAccount(newId: AccountId, request: ImportRequest)
    | DeleteAccount(id: AccountId, leaseOrder: seq<PrincipalId>)
    | RefreshSignals(id: AccountId, headroom: real, headroom5h: real, headroom7d: real)
    | UpdateCredential(credential: Credential)
    | RouteEvent(id: AccountId, mode: RouteMode, kind: string, now: Time, incidentId: string,
                 leaseOrder: seq<PrincipalId>)
    | FailOver(id: AccountId, severity: string, seconds: int, now: Time, incidentId: string,
               leaseOrder: seq<PrincipalId>)
    | MarkQuota(id: AccountId, resetAt: Option<Time>, message: Option<string>, now: Time, incidentId: string,
                leaseOrder: seq<PrincipalId>)
    | SelectLease(selection: Selection.Request, now: Time, routeOrder: seq<AccountId>, accountOrder: seq<AccountId>)
    | BeginTurn(principal: PrincipalId, model: string, pending: PendingTurn, now: Time)
    | DiscardTurn(principal: PrincipalId, now: Time)
    | RecordTurn(principal: PrincipalId, summary: string, responseId: Option<string>, output: seq<Json.Value>,
                 now: Time, backing: Option<ThreadId>)
    | CompactThread(thread: ThreadId, preserve: nat, now: Time)
    | UpsertThread(upsert: Threads.Upsert)
    | ForkThread(forkTenant: Tenant, parent: ThreadId, child: ThreadId, forkModel: Option<string>,
                 title: Option<string>, source: string, now: Time)
    | RecordLog(log: RequestLog)

  /** What stays fixed over a run: the rendezvous hash and the fixed phrases. */
  datatype World = World(rank: Router.Rank, wording: Memory.Wording)

  function RecordLogOutcome(s: Store, log: RequestLog): Outcome {
    var logs := Prepend(log, s.logs, LOG_CAPACITY);
    var metrics := Selection.DeriveMetrics(logs, s.metrics);
    Outcome(s.(logs := logs, metrics := metrics), [LogInsert(log), MetricsUpsert(metrics)])
  }

  /** The environment's choices are possible ones, and the identifiers it hands out are fresh. */
  ghost predicate Legal(s: Store, op: Op) {
    match op
    case ImportAccount(id, _) => id !in s.accounts
    case DeleteAccount(id, order) => Enumerates(order, LeasesOn(s, id))
    case RouteEvent(id, mode, kind, now, incidentId, order) =>
      !KnowsIncident(s.incidents, incidentId) && Enumerates(order, RouteEventEvicted(s, id, mode, kind))
    case FailOver(id, severity, _, _, incidentId, order) =>
      !KnowsIncident(s.incidents, incidentId) && Enumerates(order, FailoverEvicted(s, id, severity))
    case MarkQuota(id, _, _, _, incidentId, order) =>
      !KnowsIncident(s.incidents, incidentId) && Enumerates(order, LeasesOn(s, id))
    case SelectLease(_, _, routeOrder, accountOrder) =>
      Enumerates(routeOrder, s.routeStates.Keys) && Enumerates(accountOrder, s.accounts.Keys)
    case RecordTurn(p, _, _, _, _, backing) => Memory.Backs(s, p, backing)
    case RecordLog(log) => !KnowsLog(s.logs, log.id)
    case _ => true
  }

  /** The operations on conversations and threads. */
  ghost predicate IsConversation(op: Op) {
    op.BeginTurn? || op.DiscardTurn? || op.RecordTurn? || op.CompactThread? || op.UpsertThread? || op.ForkThread?
  }

  /** The operations that write one route state. */
  ghost predicate IsRouteChange(op: Op) {
    op.RouteEvent? || op.FailOver? || op.MarkQuota?
  }

  ghost predicate IsPlain(op: Op) {
    !op.SelectLease? && !IsConversation(op) && !IsRouteChange(op)
  }

  ghost function RouteStep(s: Store, op: Op): Outcome
    requires IsRouteChange(op)
  {
    match op
    case RouteEvent(id, mode, kind, now, incidentId, order) =>
      RouteEventOutcome(s, id, mode, kind, now, incidentId, order)
    case FailOver(id, severity, seconds, now, incidentId, order) =>
      FailoverOutcome(s, id, severity, seconds, now, incidentId, order)
    case MarkQuota(id, resetAt, message, now, incidentId, order) =>
      QuotaOutcome(s, id, resetAt, message, now, incidentId, order)
  }

  ghost function PlainStep(s: Store, op: Op): Outcome
    requires IsPlain(op)
  {
    match op
    case CreateTenant(t) => Outcome(s.(tenants := s.tenants[t.id := t]), [TenantUpsert(t)])
    case CreateApiKey(k) => Outcome(s.(apiKeys := s.apiKeys[k.token := k]), [ApiKeyUpsert(k)])
    case ImportAccount(id, request) => Import(s, id, request)
    case DeleteAccount(id, order) => Delete(s, id, order)
    case RefreshSignals(id, h, h5, h7) => AccountOps.RefreshSignals(s, id, h, h5, h7)
    case UpdateCredential(c) => AccountOps.UpdateCredential(s, c)
    case RecordLog(log) => RecordLogOutcome(s, log)
  }

  ghost function SelectStep(s: Store, op: Op, w: World): Outcome
    requires Inv(s) && op.SelectLease? && Legal(s, op)
  {
    Selection.Resolve(s, op.selection, op.now, op.routeOrder, op.accountOrder, w.rank).outcome
  }

  ghost function ConversationStep(s: Store, op: Op, w: World): Outcome
    requires IsConversation(op) && (op.RecordTurn? && op.backing.Some? ==> op.backing.value in s.threads)
  {
    match op
    case BeginTurn(p, model, pending, now) => Memory.BeginTurn(s, p, model, pending, now, w.wording)
    case DiscardTurn(p, now) => Memory.DiscardTurn(s, p, now)
    case RecordTurn(p, summary, responseId, output, now, backing) =>
      Memory.RecordTurn(s, p, summary, responseId, output, now, backing, w.wording)
    case CompactThread(id, preserve, now) =>
      if id in s.threads then Memory.Compact(s, id, preserve, now, w.wording) else Outcome(s, SILENT)
    case UpsertThread(u) => Threads.UpsertThread(s, u, w.wording)
    case ForkThread(tenant, parent, child, model, title, source, now) =>
      var r := Threads.ForkThread(s, tenant, parent, child, model, title, source, now, w.wording);
      if r.Forked? then r.outcome else Outcome(s, SILENT)
  }

  ghost function Step(s: Store, op: Op, w: World): Outcome
    requires Inv(s) && Legal(s, op)
  {
    if op.SelectLease? then SelectStep(s, op, w)
    else if IsConversation(op) then ConversationStep(s, op, w)
    else if IsRouteChange(op) then RouteStep(s, op)
    else PlainStep(s, op)
  }

  // ---- Lease selection publishes just enough ------------------------------------------------------------

  /** `m` with the entries of `done` taken from `m1`. */
  ghost function PatchMap<K, V>(m: map<K, V>, m1: map<K, V>, done: seq<K>): map<K, V> {
    map k | k in m :: if k in done && k in m1 then m1[k] else m[k]
  }

  lemma PatchMapOne<K, V>(m: map<K, V>, m1: map<K, V>, done: seq<K>, k: K)
    requires k in m && k in m1
    ensures PatchMap(m, m1, done)[k := m1[k]] == PatchMap(m, m1, done + [k])
  {
    assert forall x :: x in done + [k] <==> x in done || x == k;
  }

  lemma PatchMapNone<K, V>(m: map<K, V>, m1: map<K, V>)
    ensures PatchMap(m, m1, []) == m
  {
  }

  ghost function Patched(s: Store, s1: Store, done: seq<AccountId>): Store {
    s.(routeStates := PatchMap(s.routeStates, s1.routeStates, done),
       accounts := PatchMap(s.accounts, s1.accounts, done))
  }

  /** `s1` differs from `s` at `k` by a new route state and the mode that goes with it. */
  ghost predicate Remoded(s: Store, s1: Store, k: AccountId) {
    && k in s.routeStates && k in s1.routeStates && k in s.accounts && k in s1.accounts
    && s1.routeStates[k].accountId == k && s1.accounts[k].id == k
    && s1.accounts[k] == s.accounts[k].(currentMode := s1.routeStates[k].routeMode)
  }

  lemma PatchOne(s: Store, s1: Store, done: seq<AccountId>, k: AccountId)
    requires Remoded(s, s1, k)
    ensures Apply(Patched(s, s1, done), RouteStateUpsert(s1.routeStates[k])) == Patched(s, s1, done + [k])
  {
    PatchMapOne(s.routeStates, s1.routeStates, done, k);
    PatchMapOne(s.accounts, s1.accounts, done, k);
    assert Patched(s, s1, done).accounts[k].(currentMode := s1.routeStates[k].routeMode) == s1.accounts[k];
  }

  lemma {:induction false} RouteUpsertsPatch(s: Store, s1: Store, done: seq<AccountId>, ids: seq<AccountId>)
    requires forall k :: k in ids ==> k in s1.routeStates && Remoded(s, s1, k)
    ensures ApplyAll(Patched(s, s1, done), Selection.RouteUpserts(s1, ids)) == Patched(s, s1, done + ids)
    decreases |ids|
  {
    if ids == [] {
      assert done + ids == done;
    } else {
      var k := ids[0];
      assert k in ids && forall x :: x in ids[1..] ==> x in ids;
      var ms := Selection.RouteUpserts(s1, ids);
      assert ms[0] == RouteStateUpsert(s1.routeStates[k]) && ms[1..] == Selection.RouteUpserts(s1, ids[1..]);
      PatchOne(s, s1, done, k);
      RouteUpsertsPatch(s, s1, done + [k], ids[1..]);
      assert done + [k] + ids[1..] == done + ids;
    }
  }

  lemma {:induction false} AccountUpsertsIdle(s: Store, ids: seq<AccountId>)
    requires forall k :: k in ids ==> k in s.accounts && s.accounts[k].id == k
    ensures ApplyAll(s, Selection.AccountUpserts(s, ids)) == s
    decreases |ids|
  {
    if ids != [] {
      var k := ids[0];
      assert k in ids && forall x :: x in ids[1..] ==> x in ids;
      var ms := Selection.AccountUpserts(s, ids);
      assert ms[1..] == Selection.AccountUpserts(s, ids[1..]);
      assert s.accounts[k := s.accounts[k]] == s.accounts;
      AccountUpsertsIdle(s, ids[1..]);
    }
  }

  ghost predicate Tables(s: Store) {
    Keyed(s) && s.accounts.Keys == s.routeStates.Keys
  }

  lemma ReconciledTables(s: Store, now: Time)
    requires Tables(s)
    ensures var s1 := Selection.Reconciled(s, now);
      && s1.accounts.Keys == s.accounts.Keys && s1.routeStates.Keys == s.routeStates.Keys
      && (forall k :: k in s.routeStates && Selection.Drifts(s, k, now) ==> Remoded(s, s1, k))
      && (forall k :: k in s.routeStates && !Selection.Drifts(s, k, now) ==> s1.accounts[k] == s.accounts[k])
  {
    var s1 := Selection.Reconciled(s, now);
    assert s1.accounts.Keys == s.accounts.Keys;
    assert s1.routeStates.Keys == s.routeStates.Keys;
  }

  ghost predicate IsDrifted(s: Store, now: Time, ids: seq<AccountId>) {
    forall k :: k in ids <==> k in s.routeStates && Selection.Drifts(s, k, now)
  }

  /** After the drift messages the follower has the leader's accounts, and the routes that drifted. */
  lemma DriftApplied(s: Store, now: Time, routeOrder: seq<AccountId>)
    requires Tables(s) && Enumerates(routeOrder, s.routeStates.Keys)
    ensures var s1, ids := Selection.Reconciled(s, now), Selection.Drifted(s, now, routeOrder);
      && IsDrifted(s, now, ids)
      && ApplyAll(s, Selection.DriftMessages(s, now, routeOrder)) == Patched(s, s1, ids)
      && Patched(s, s1, ids).accounts == s1.accounts
  {
    ReconciledTables(s, now);
    var s1, ids := Selection.Reconciled(s, now), Selection.Drifted(s, now, routeOrder);
    FilterMembers((k: AccountId) => k in s.routeStates && Selection.Drifts(s, k, now), routeOrder);
    assert IsDrifted(s, now, ids);
    AccountsPatched(s, now, ids);
    PatchesApplied(s, s1, ids);
  }

  lemma AccountsPatched(s: Store, now: Time, ids: seq<AccountId>)
    requires Tables(s) && IsDrifted(s, now, ids)
    ensures Patched(s, Selection.Reconciled(s, now), ids).accounts == Selection.ReconciledAccounts(s, now)
  {
    ReconciledTables(s, now);
  }

  lemma PatchesApplied(s: Store, s1: Store, ids: seq<AccountId>)
    requires forall k :: k in ids ==> k in s1.routeStates && k in s1.accounts && Remoded(s, s1, k)
    requires Patched(s, s1, ids).accounts == s1.accounts
    ensures ApplyAll(s, Selection.RouteUpserts(s1, ids) + Selection.AccountUpserts(s1, ids)) == Patched(s, s1, ids)
  {
    RouteUpsertsPatch(s, s1, [], ids);
    PatchMapNone(s.routeStates, s1.routeStates);
    PatchMapNone(s.accounts, s1.accounts);
    assert Patched(s, s1, []) == s && [] + ids == ids;
    var patched := Patched(s, s1, ids);
    assert Selection.AccountUpserts(s1, ids) == Selection.AccountUpserts(patched, ids);
    AccountUpsertsIdle(patched, ids);
    ApplyAllConcat(s, Selection.RouteUpserts(s1, ids), Selection.AccountUpserts(s1, ids));
  }

  /**
   * Selection publishes route states whose mode changed, and that is enough exactly when every
   * expired warp entry belongs to an account that is still in warp mode.
   */
  lemma ResolveBridgesExactly(
      s: Store, req: Selection.Request, now: Time, routeOrder: seq<AccountId>, accountOrder: seq<AccountId>,
      rank: Router.Rank)
    requires Tables(s)
    requires Enumerates(routeOrder, s.routeStates.Keys) && Enumerates(accountOrder, s.accounts.Keys)
    requires forall p :: p in s.leases ==> s.leases[p].principalId == p
    ensures Bridges(s, Selection.Resolve(s, req, now, routeOrder, accountOrder, rank).outcome)
       <==> forall k :: k in s.routeStates && WarpExpired(s.routeStates[k], now) ==> s.routeStates[k].routeMode == Warp
  {
    DriftApplied(s, now, routeOrder);
    ReconciledTables(s, now);
    var s1, ids := Selection.Reconciled(s, now), Selection.Drifted(s, now, routeOrder);
    RoutesPatchedExactly(s, now, ids);
    TailApplied(s, req, now, routeOrder, accountOrder, rank, Patched(s, s1, ids));
  }

  lemma RoutesPatchedExactly(s: Store, now: Time, ids: seq<AccountId>)
    requires IsDrifted(s, now, ids)
    ensures PatchMap(s.routeStates, Selection.ReconciledRoutes(s, now), ids) == Selection.ReconciledRoutes(s, now)
       <==> forall k :: k in s.routeStates && WarpExpired(s.routeStates[k], now) ==> s.routeStates[k].routeMode == Warp
  {
    var routes := Selection.ReconciledRoutes(s, now);
    var patched := PatchMap(s.routeStates, routes, ids);
    if k :| k in s.routeStates && WarpExpired(s.routeStates[k], now) && s.routeStates[k].routeMode != Warp {
      assert patched[k] == s.routeStates[k];
      assert routes[k].warpEnteredAt.None?;
    } else {
      forall k | k in s.routeStates
        ensures patched[k] == routes[k]
      {
        if k !in ids {
          assert !WarpExpired(s.routeStates[k], now);
        }
      }
    }
  }

  /** The lease and the metrics go through whatever the drift messages left behind. */
  lemma TailApplied(
      s: Store, req: Selection.Request, now: Time, routeOrder: seq<AccountId>, accountOrder: seq<AccountId>,
      rank: Router.Rank, drifted: Store)
    requires s.accounts.Keys == s.routeStates.Keys && Enumerates(accountOrder, s.accounts.Keys)
    requires forall p :: p in s.leases ==> s.leases[p].principalId == p
    requires drifted == ApplyAll(s, Selection.DriftMessages(s, now, routeOrder))
    requires var s1 := Selection.Reconciled(s, now);
      s1.accounts.Keys == s.accounts.Keys && drifted == s1.(routeStates := drifted.routeStates)
    ensures Bridges(s, Selection.Resolve(s, req, now, routeOrder, accountOrder, rank).outcome)
       <==> drifted.routeStates == Selection.ReconciledRoutes(s, now)
  {
    var s1 := Selection.Reconciled(s, now);
    var drift := Selection.DriftMessages(s, now, routeOrder);
    var r := Selection.Resolve(s, req, now, routeOrder, accountOrder, rank);
    if r.verdict.Selected? {
      var lease := r.verdict.lease;
      SelectedKeepsPrincipal(s1, req, now, accountOrder, rank);
      if Selection.Reusable(s1, req, now) {
        LeaseSent(s, drift, drifted, s1, lease);
      } else {
        LeaseAndMetricsSent(s, drift, drifted, s1, lease, Selection.CurrentMetrics(s1.logs, s1.metrics));
      }
    }
  }

  lemma LeaseSent(s: Store, drift: seq<Message>, drifted: Store, s1: Store, lease: Lease)
    requires drifted == ApplyAll(s, drift) && drifted == s1.(routeStates := drifted.routeStates)
    ensures Bridges(s, Outcome(s1.(leases := s1.leases[lease.principalId := lease]), drift + [LeaseUpsert(lease)]))
       <==> drifted.routeStates == s1.routeStates
  {
    ApplyAllConcat(s, drift, [LeaseUpsert(lease)]);
    ApplyOne(drifted, LeaseUpsert(lease));
  }

  lemma LeaseAndMetricsSent(s: Store, drift: seq<Message>, drifted: Store, s1: Store, lease: Lease, m: CacheMetrics)
    requires drifted == ApplyAll(s, drift) && drifted == s1.(routeStates := drifted.routeStates)
    ensures Bridges(s, Outcome(s1.(leases := s1.leases[lease.principalId := lease], metrics := m),
                               drift + [LeaseUpsert(lease), MetricsUpsert(m)]))
       <==> drifted.routeStates == s1.routeStates
  {
    ApplyAllConcat(s, drift, [LeaseUpsert(lease), MetricsUpsert(m)]);
    ApplyTwo(drifted, LeaseUpsert(lease), MetricsUpsert(m));
  }

  lemma SelectedKeepsPrincipal(s: Store, req: Selection.Request, now: Time, accountOrder: seq<AccountId>,
                               rank: Router.Rank)
    requires forall k :: k in accountOrder ==> k in s.accounts
    requires forall p :: p in s.leases ==> s.leases[p].principalId == p
    ensures var v := Selection.VerdictOf(s, req, now, accountOrder, rank);
      v.Selected? ==> v.lease.principalId == req.principalId
  {
  }
}
