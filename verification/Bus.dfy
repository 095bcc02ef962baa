/** What is replicated, the messages that replicate it, and the side that applies them. */
module Bus {
  import opened Prelude
  import opened Models
  import CfState

  const INCIDENT_CAPACITY: nat := 128
  const LOG_CAPACITY: nat := 512

  /** The replicated part of a runtime, as one value. */
  datatype Store = Store(
    tenants: map<TenantId, Tenant>,
    apiKeys: map<string, ApiKey>,
    accounts: map<AccountId, Account>,
    credentials: map<AccountId, Credential>,
    routeStates: map<AccountId, RouteState>,
    leases: map<PrincipalId, Lease>,
    incidents: seq<Incident>,
    metrics: CacheMetrics,
    contexts: map<PrincipalId, Context>,
    threads: map<ThreadId, Thread>,
    edges: seq<Edge>,
    logs: seq<RequestLog>)

  const EMPTY_STORE := Store(map[], map[], map[], map[], map[], map[], [], CacheMetrics(0, 0, 0, 0.0, 0.0, 0.0, 0.0),
                            map[], map[], [], [])

  datatype Message =
    | TenantUpsert(tenant: Tenant)
    | ApiKeyUpsert(apiKey: ApiKey)
    | AccountUpsert(account: Account)
    | AccountDelete(accountId: AccountId)
    | CredentialUpsert(credential: Credential)
    | RouteStateUpsert(route: RouteState)
    | LeaseUpsert(lease: Lease)
    | LeaseDelete(principalId: PrincipalId)
    | IncidentInsert(incident: Incident)
    | ContextUpsert(context: Context)
    | ThreadUpsert(thread: Thread)
    | EdgeUpsert(edge: Edge)
    | MetricsUpsert(metrics: CacheMetrics)
    | LogInsert(log: RequestLog)

  /** The newest entry goes first and the list keeps at most `capacity` entries. */
  function Prepend<T>(x: T, s: seq<T>, capacity: nat): (r: seq<T>)
    ensures |r| == CfState.Min(capacity, |s| + 1)
    ensures capacity > 0 ==> r[0] == x && forall i :: 0 < i < |r| ==> r[i] == s[i - 1]
  {
    ([x] + s)[..CfState.Min(capacity, |s| + 1)]
  }

  predicate KnowsIncident(s: seq<Incident>, id: string) {
    exists i :: 0 <= i < |s| && s[i].id == id
  }

  predicate KnowsLog(s: seq<RequestLog>, id: string) {
    exists i :: 0 <= i < |s| && s[i].id == id
  }

  predicate SameLink(a: Edge, b: Edge) {
    a.parent == b.parent && a.child == b.child && a.relation == b.relation
  }

  predicate KnowsEdge(s: seq<Edge>, e: Edge) {
    exists i :: 0 <= i < |s| && SameLink(s[i], e)
  }

  function WithoutAccount(leases: map<PrincipalId, Lease>, id: AccountId): map<PrincipalId, Lease> {
    map p | p in leases && leases[p].accountId != id :: leases[p]
  }

  function Apply(s: Store, m: Message): Store {
    match m
    case TenantUpsert(t) => s.(tenants := s.tenants[t.id := t])
    case ApiKeyUpsert(k) => s.(apiKeys := s.apiKeys[k.token := k])
    case AccountUpsert(a) => s.(accounts := s.accounts[a.id := a])
    case AccountDelete(id) =>
      s.(accounts := s.accounts - {id}, credentials := s.credentials - {id}, routeStates := s.routeStates - {id},
         leases := WithoutAccount(s.leases, id))
    case CredentialUpsert(c) => s.(credentials := s.credentials[c.accountId := c])
    case RouteStateUpsert(r) =>
      s.(routeStates := s.routeStates[r.accountId := r],
         accounts := if r.accountId in s.accounts
                     then s.accounts[r.accountId := s.accounts[r.accountId].(currentMode := r.routeMode)]
                     else s.accounts)
    case LeaseUpsert(l) => s.(leases := s.leases[l.principalId := l])
    case LeaseDelete(p) => s.(leases := s.leases - {p})
    case IncidentInsert(i) =>
      if KnowsIncident(s.incidents, i.id) then s else s.(incidents := Prepend(i, s.incidents, INCIDENT_CAPACITY))
    case ContextUpsert(c) => s.(contexts := s.contexts[c.principalId := c])
    case ThreadUpsert(t) => s.(threads := s.threads[t.threadId := t])
    case EdgeUpsert(e) => if KnowsEdge(s.edges, e) then s else s.(edges := s.edges + [e])
    case MetricsUpsert(m) => s.(metrics := m)
    case LogInsert(l) => if KnowsLog(s.logs, l.id) then s else s.(logs := Prepend(l, s.logs, LOG_CAPACITY))
  }

  function ApplyAll(s: Store, ms: seq<Message>): Store
    decreases |ms|
  {
    if ms == [] then s else ApplyAll(Apply(s, ms[0]), ms[1..])
  }

  lemma {:induction false} ApplyAllConcat(s: Store, a: seq<Message>, b: seq<Message>)
    ensures ApplyAll(s, a + b) == ApplyAll(ApplyAll(s, a), b)
    decreases |a|
  {
    if a == [] {
      assert a + b == b;
    } else {
      ApplyAllConcat(Apply(s, a[0]), a[1..], b);
      assert (a + b)[1..] == a[1..] + b;
    }
  }

  lemma ApplyOne(s: Store, m: Message)
    ensures ApplyAll(s, [m]) == Apply(s, m)
  {
    assert ApplyAll(Apply(s, m), [m][1..]) == Apply(s, m);
  }

  /** A runtime's replicated fields, edited in place by either side. */
  class Runtime {
    var tenants: map<TenantId, Tenant>
    var apiKeys: map<string, ApiKey>
    var accounts: map<AccountId, Account>
    var credentials: map<AccountId, Credential>
    var routeStates: map<AccountId, RouteState>
    var leases: map<PrincipalId, Lease>
    var incidents: seq<Incident>
    var metrics: CacheMetrics
    var contexts: map<PrincipalId, Context>
    var threads: map<ThreadId, Thread>
    var edges: seq<Edge>
    var logs: seq<RequestLog>

    function Snapshot(): Store
      reads this
    {
      Store(tenants, apiKeys, accounts, credentials, routeStates, leases, incidents, metrics, contexts, threads, edges,
            logs)
    }

    constructor ()
      ensures Snapshot() == EMPTY_STORE
    {
      tenants, apiKeys, accounts, credentials, routeStates, leases := map[], map[], map[], map[], map[], map[];
      incidents, metrics, contexts, threads, edges, logs :=
        [], CacheMetrics(0, 0, 0, 0.0, 0.0, 0.0, 0.0), map[], map[], [], [];
    }

    /** Drops every lease bound to the account and hands back the dropped ones. */
    method EvictLeases(id: AccountId) returns (evicted: seq<Lease>, ghost order: seq<PrincipalId>)
      modifies this`leases
      ensures leases == WithoutAccount(old(leases), id)
      ensures Enumerates(order, set p | p in old(leases) && old(leases)[p].accountId == id)
      ensures |evicted| == |order|
      ensures forall i :: 0 <= i < |order| ==> order[i] in old(leases) && evicted[i] == old(leases)[order[i]]
    {
      var principals := ArbitraryOrder(set p | p in leases && leases[p].accountId == id);
      order := principals;
      evicted := [];
      for i := 0 to |principals|
        invariant leases == map p | p in old(leases) && p !in principals[..i] :: old(leases)[p]
        invariant |evicted| == i
        invariant forall k :: 0 <= k < i ==> principals[k] in old(leases) && evicted[k] == old(leases)[principals[k]]
      {
        assert principals[i] in principals;
        assert principals[i] !in principals[..i];
        evicted := evicted + [leases[principals[i]]];
        leases := leases - {principals[i]};
        assert principals[..i + 1] == principals[..i] + [principals[i]];
      }
      assert principals[..|principals|] == principals;
    }

    method DeleteAccount(id: AccountId)
      modifies this`accounts, this`credentials, this`routeStates, this`leases
      ensures Snapshot() == Apply(old(Snapshot()), Message.AccountDelete(id))
    {
      accounts := accounts - {id};
      credentials := credentials - {id};
      routeStates := routeStates - {id};
      leases := map p | p in leases && leases[p].accountId != id :: leases[p];
    }

    method UpsertRouteState(r: RouteState)
      modifies this`routeStates, this`accounts
      ensures Snapshot() == Apply(old(Snapshot()), Message.RouteStateUpsert(r))
    {
      routeStates := routeStates[r.accountId := r];
      if r.accountId in accounts {
        accounts := accounts[r.accountId := accounts[r.accountId].(currentMode := r.routeMode)];
      }
    }

    method InsertIncident(i: Incident)
      modifies this`incidents
      ensures Snapshot() == Apply(old(Snapshot()), Message.IncidentInsert(i))
    {
      if KnowsIncident(incidents, i.id) {
        return;
      }
      incidents := [i] + incidents;
      if |incidents| > INCIDENT_CAPACITY {
        incidents := incidents[..INCIDENT_CAPACITY];
      }
    }

    method UpsertThreadEdge(e: Edge)
      modifies this`edges
      ensures Snapshot() == Apply(old(Snapshot()), Message.EdgeUpsert(e))
    {
      if KnowsEdge(edges, e) {
        return;
      }
      edges := edges + [e];
    }

    method InsertRequestLog(l: RequestLog)
      modifies this`logs
      ensures Snapshot() == Apply(old(Snapshot()), Message.LogInsert(l))
    {
      if KnowsLog(logs, l.id) {
        return;
      }
      logs := [l] + logs;
      if |logs| > LOG_CAPACITY {
        logs := logs[..LOG_CAPACITY];
      }
    }

    /** A message that brings one record, to be filed under its key. */
    method FileRecord(m: Message)
      requires m.TenantUpsert? || m.ApiKeyUpsert? || m.AccountUpsert? || m.CredentialUpsert? || m.LeaseUpsert?
            || m.ContextUpsert? || m.ThreadUpsert?
      modifies this
      ensures Snapshot() == Apply(old(Snapshot()), m)
    {
      match m {
        case TenantUpsert(t) => tenants := tenants[t.id := t];
        case ApiKeyUpsert(k) => apiKeys := apiKeys[k.token := k];
        case AccountUpsert(a) => accounts := accounts[a.id := a];
        case CredentialUpsert(c) => credentials := credentials[c.accountId := c];
        case LeaseUpsert(l) => leases := leases[l.principalId := l];
        case ContextUpsert(c) => contexts := contexts[c.principalId := c];
        case ThreadUpsert(t) => threads := threads[t.threadId := t];
      }
    }

    /** The follower side: one received message, dispatched on its kind. */
    method ApplyMessage(m: Message)
      modifies this
      ensures Snapshot() == Apply(old(Snapshot()), m)
    {
      match m {
        case AccountDelete(id) => DeleteAccount(id);
        case RouteStateUpsert(r) => UpsertRouteState(r);
        case LeaseDelete(p) => leases := leases - {p};
        case IncidentInsert(i) => InsertIncident(i);
        case EdgeUpsert(e) => UpsertThreadEdge(e);
        case MetricsUpsert(x) => metrics := x;
        case LogInsert(l) => InsertRequestLog(l);
        case _ => FileRecord(m);
      }
    }
  }
}
