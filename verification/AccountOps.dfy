/** What each account operation of the leader does to the store, and what it publishes. */
module AccountOps {
  import opened Prelude
  import opened Models
  import opened Bus
  import opened CfState
  import Text

  /** The store after an operation, and the messages enqueued by it, oldest first. */
  datatype Outcome = Outcome(store: Store, sent: seq<Message>)

  const SILENT: seq<Message> := []

  function LeasesOn(s: Store, id: AccountId): set<PrincipalId> {
    set p | p in s.leases && s.leases[p].accountId == id
  }

  function LeaseDeletes(order: seq<PrincipalId>): seq<Message> {
    seq(|order|, i requires 0 <= i < |order| => LeaseDelete(order[i]))
  }

  // ---- Import, delete, refresh ------------------------------------------------------------------

  datatype ImportRequest = ImportRequest(
    tenantId: TenantId, displayLabel: string, models: seq<string>,
    quotaHeadroom: Option<real>, quotaHeadroom5h: Option<real>, quotaHeadroom7d: Option<real>,
    healthScore: Option<real>, egressStability: Option<real>, credential: Option<Credential>)

  function ImportedAccount(id: AccountId, r: ImportRequest): Account {
    var headroom := r.quotaHeadroom.UnwrapOr(0.7);
    Account(id, r.tenantId, r.displayLabel, r.models, Direct,
            Signals(headroom, r.quotaHeadroom5h.UnwrapOr(headroom), r.quotaHeadroom7d.UnwrapOr(headroom),
                    r.healthScore.UnwrapOr(0.85), r.egressStability.UnwrapOr(0.8), 0.7, 0, 4))
  }

  function Import(s: Store, id: AccountId, r: ImportRequest): Outcome {
    var account := ImportedAccount(id, r);
    var s1 := s.(routeStates := s.routeStates[id := Fresh(id)], accounts := s.accounts[id := account]);
    match r.credential
    case None => Outcome(s1, [AccountUpsert(account), RouteStateUpsert(Fresh(id))])
    case Some(template) =>
      var c := template.(accountId := id);
      Outcome(s1.(credentials := s1.credentials[id := c]),
              [AccountUpsert(account), CredentialUpsert(c), RouteStateUpsert(Fresh(id))])
  }

  /** `order` is the order in which the account's leases come out of the lease table. */
  function Delete(s: Store, id: AccountId, order: seq<PrincipalId>): Outcome {
    if id !in s.accounts then Outcome(s, SILENT)
    else
      Outcome(s.(accounts := s.accounts - {id}, credentials := s.credentials - {id},
                 routeStates := s.routeStates - {id}, leases := WithoutAccount(s.leases, id)),
              LeaseDeletes(order) + [AccountDelete(id)])
  }

  function RefreshSignals(s: Store, id: AccountId, headroom: real, headroom5h: real, headroom7d: real): Outcome {
    if id !in s.accounts then Outcome(s, SILENT)
    else
      var a := s.accounts[id];
      var a' := a.(signals := a.signals.(quotaHeadroom := headroom, quotaHeadroom5h := headroom5h,
                                         quotaHeadroom7d := headroom7d));
      Outcome(s.(accounts := s.accounts[id := a']), [AccountUpsert(a')])
  }

  function UpdateCredential(s: Store, c: Credential): Outcome {
    if c.accountId !in s.credentials then Outcome(s, SILENT)
    else Outcome(s.(credentials := s.credentials[c.accountId := c]), [CredentialUpsert(c)])
  }

  // ---- Route events, failover and quota marks -----------------------------------------------------

  /** A known account whose tenant has exactly one account with a credential, be it this one or another. */
  ghost predicate SoleAccount(s: Store, id: AccountId) {
    id in s.accounts
    && |set a | a in s.accounts && s.accounts[a].tenantId == s.accounts[id].tenantId && a in s.credentials| == 1
  }

  /**
   * The common tail of every route change: sync the account's mode, log the incident, evict leases
   * if asked to, and publish. An account missing from the table keeps the route change unpublished.
   */
  function PublishRoute(s: Store, id: AccountId, r: RouteState, incident: Option<Incident>, evict: bool,
                        order: seq<PrincipalId>): Outcome {
    var s1 := s.(routeStates := s.routeStates[id := r]);
    if id !in s.accounts then Outcome(s1, SILENT)
    else
      var account := s.accounts[id].(currentMode := r.routeMode);
      var s2 := s1.(
        accounts := s.accounts[id := account],
        incidents := if incident.Some? then Prepend(incident.value, s.incidents, INCIDENT_CAPACITY) else s.incidents,
        leases := if evict then WithoutAccount(s.leases, id) else s.leases);
      Outcome(s2,
              [AccountUpsert(account), RouteStateUpsert(r)]
              + (if incident.Some? then [IncidentInsert(incident.value)] else [])
              + (if evict then LeaseDeletes(order) else []))
  }

  function IncidentOf(s: Store, id: AccountId, r: RouteState, severity: string, incidentId: string,
                      now: Time): Incident {
    Incident(incidentId, id, if id in s.accounts then s.accounts[id].displayLabel else "", r.routeMode, severity, now,
             r.cooldownLevel)
  }

  const CF_HIT := "cf_hit"
  const SUCCESS := "success"

  ghost predicate EventEvicts(s: Store, id: AccountId, mode: RouteMode, kind: string) {
    kind == CF_HIT && mode == Warp && !SoleAccount(s, id)
  }

  /** A hit that is the third direct one in a row escalates; any other is logged as a cooldown. */
  function Severity(r0: RouteState, mode: RouteMode): string {
    if mode == Direct && r0.directCfStreak >= 2 then "direct-escalation" else "cooldown"
  }

  function CfHitOutcome(
      s: Store, id: AccountId, mode: RouteMode, now: Time, incidentId: string, evict: bool,
      order: seq<PrincipalId>): Outcome
    requires id in s.routeStates
  {
    var r0 := AfterReconcile(s.routeStates[id], now);
    var r := AfterCfHit(r0, mode, now);
    PublishRoute(s, id, r, Some(IncidentOf(s, id, r, Severity(r0, mode), incidentId, now)), evict, order)
  }

  function SuccessOutcome(s: Store, id: AccountId, now: Time): Outcome
    requires id in s.routeStates
  {
    PublishRoute(s, id, AfterSuccess(AfterReconcile(s.routeStates[id], now), now).(cooldownReason := None), None,
                 false, [])
  }

  ghost function RouteEventOutcome(
      s: Store, id: AccountId, mode: RouteMode, kind: string, now: Time, incidentId: string,
      order: seq<PrincipalId>): Outcome
  {
    if id !in s.routeStates then Outcome(s, SILENT)
    else if kind == CF_HIT then CfHitOutcome(s, id, mode, now, incidentId, EventEvicts(s, id, mode, kind), order)
    else if kind == SUCCESS then SuccessOutcome(s, id, now)
    else Outcome(s.(routeStates := s.routeStates[id := AfterReconcile(s.routeStates[id], now)]), SILENT)
  }

  const QUOTA := "quota"

  /** A sole account is spared the rest and the eviction, except when its quota is gone. */
  ghost predicate Spared(s: Store, id: AccountId, severity: string) {
    SoleAccount(s, id) && severity != QUOTA
  }

  ghost function FailoverOutcome(
      s: Store, id: AccountId, severity: string, seconds: int, now: Time, incidentId: string,
      order: seq<PrincipalId>): Outcome
  {
    if id !in s.routeStates then Outcome(s, SILENT)
    else
      var until := if Spared(s, id, severity) then None else Some(now + seconds * SECOND);
      var r := AfterFailover(s.routeStates[id], severity, until, now);
      PublishRoute(s, id, r, Some(IncidentOf(s, id, r, severity, incidentId, now)), !Spared(s, id, severity), order)
  }

  const QUOTA_EXHAUSTED := "quota_exhausted"

  function QuotaReason(message: Option<string>): string {
    if message.Some? && !Text.IsBlank(message.value) then QUOTA_EXHAUSTED + ":" + message.value else QUOTA_EXHAUSTED
  }

  function QuotaOutcome(
      s: Store, id: AccountId, resetAt: Option<Time>, message: Option<string>, now: Time, incidentId: string,
      order: seq<PrincipalId>): Outcome
  {
    if id !in s.routeStates then Outcome(s, SILENT)
    else
      var r := AfterQuotaMark(s.routeStates[id], resetAt.UnwrapOr(now + 30 * MINUTE), QuotaReason(message));
      PublishRoute(s, id, r, Some(IncidentOf(s, id, r, QUOTA_EXHAUSTED, incidentId, now)), true, order)
  }

  // ---- What the store keeps --------------------------------------------------------------------

  /** Every record is filed under its own key. */
  ghost predicate Keyed(s: Store) {
    && (forall k :: k in s.accounts ==> s.accounts[k].id == k)
    && (forall k :: k in s.credentials ==> s.credentials[k].accountId == k)
    && (forall k :: k in s.routeStates ==> s.routeStates[k].accountId == k)
    && (forall k :: k in s.leases ==> s.leases[k].principalId == k)
    && (forall k :: k in s.contexts ==> s.contexts[k].principalId == k)
    && (forall k :: k in s.threads ==> s.threads[k].threadId == k)
  }

  /** Every lease is bound to a known account of its own tenant. */
  ghost predicate LeasesSound(s: Store) {
    forall p :: p in s.leases ==>
      s.leases[p].accountId in s.accounts && s.leases[p].tenantId == s.accounts[s.leases[p].accountId].tenantId
  }

  ghost predicate Inv(s: Store) {
    && Keyed(s)
    && s.accounts.Keys == s.routeStates.Keys
    && (forall k :: k in s.routeStates ==> RouteInv(s.routeStates[k]))
    && LeasesSound(s)
  }

  /** The conversation side of the store, which no account operation touches. */
  ghost predicate SameConversations(s: Store, s': Store) {
    s'.contexts == s.contexts && s'.threads == s.threads && s'.edges == s.edges
  }

  lemma AddAccountKeeps(s: Store, a: Account)
    requires Inv(s) && a.id !in s.accounts
    ensures Inv(s.(routeStates := s.routeStates[a.id := Fresh(a.id)], accounts := s.accounts[a.id := a]))
  {
    var s' := s.(routeStates := s.routeStates[a.id := Fresh(a.id)], accounts := s.accounts[a.id := a]);
    assert s'.accounts.Keys == s'.routeStates.Keys;
    assert RouteInv(Fresh(a.id));
    assert LeasesSound(s');
  }

  lemma ImportKeeps(s: Store, id: AccountId, r: ImportRequest)
    requires Inv(s) && id !in s.accounts
    ensures Inv(Import(s, id, r).store)
    ensures SameConversations(s, Import(s, id, r).store)
  {
    var a := ImportedAccount(id, r);
    AddAccountKeeps(s, a);
    if r.credential.Some? {
      CredentialKeeps(s.(routeStates := s.routeStates[id := Fresh(id)], accounts := s.accounts[id := a]),
                      r.credential.value.(accountId := id));
    }
  }

  lemma CredentialKeeps(s: Store, c: Credential)
    requires Inv(s)
    ensures Inv(s.(credentials := s.credentials[c.accountId := c]))
  {
  }

  lemma DeleteKeeps(s: Store, id: AccountId, order: seq<PrincipalId>)
    requires Inv(s)
    ensures Inv(Delete(s, id, order).store)
    ensures SameConversations(s, Delete(s, id, order).store)
  {
  }

  lemma PublishRouteKeeps(s: Store, id: AccountId, r: RouteState, incident: Option<Incident>, evict: bool,
                          order: seq<PrincipalId>)
    requires Inv(s) && id in s.routeStates && RouteInv(r) && r.accountId == id
    ensures Inv(PublishRoute(s, id, r, incident, evict, order).store)
    ensures SameConversations(s, PublishRoute(s, id, r, incident, evict, order).store)
  {
  }

  lemma CfHitKeeps(s: Store, id: AccountId, mode: RouteMode, now: Time, incidentId: string, evict: bool,
                   order: seq<PrincipalId>)
    requires Inv(s) && id in s.routeStates
    ensures var s' := CfHitOutcome(s, id, mode, now, incidentId, evict, order).store;
      Inv(s') && SameConversations(s, s')
  {
    var r0 := AfterReconcile(s.routeStates[id], now);
    var r := AfterCfHit(r0, mode, now);
    assert RouteInv(r0) && RouteInv(r) && r.accountId == id;
    PublishRouteKeeps(s, id, r, Some(IncidentOf(s, id, r, Severity(r0, mode), incidentId, now)), evict, order);
  }

  lemma SuccessKeeps(s: Store, id: AccountId, now: Time)
    requires Inv(s) && id in s.routeStates
    ensures var s' := SuccessOutcome(s, id, now).store; Inv(s') && SameConversations(s, s')
  {
    var r := AfterSuccess(AfterReconcile(s.routeStates[id], now), now).(cooldownReason := None);
    assert RouteInv(s.routeStates[id]);
    assert RouteInv(r) && r.accountId == id;
    PublishRouteKeeps(s, id, r, None, false, []);
  }

  lemma ReconcileKeeps(s: Store, id: AccountId, now: Time)
    requires Inv(s) && id in s.routeStates
    ensures Inv(s.(routeStates := s.routeStates[id := AfterReconcile(s.routeStates[id], now)]))
  {
    var s' := s.(routeStates := s.routeStates[id := AfterReconcile(s.routeStates[id], now)]);
    assert s'.routeStates.Keys == s.routeStates.Keys;
    assert RouteInv(s'.routeStates[id]);
  }

  lemma RouteEventKeeps(s: Store, id: AccountId, mode: RouteMode, kind: string, now: Time, incidentId: string,
                        order: seq<PrincipalId>)
    requires Inv(s)
    ensures var s' := RouteEventOutcome(s, id, mode, kind, now, incidentId, order).store;
      Inv(s') && SameConversations(s, s')
  {
    var o := RouteEventOutcome(s, id, mode, kind, now, incidentId, order);
    if id in s.routeStates {
      if kind == CF_HIT {
        assert o == CfHitOutcome(s, id, mode, now, incidentId, EventEvicts(s, id, mode, kind), order);
        CfHitKeeps(s, id, mode, now, incidentId, EventEvicts(s, id, mode, kind), order);
      } else if kind == SUCCESS {
        assert o == SuccessOutcome(s, id, now);
        SuccessKeeps(s, id, now);
      } else {
        ReconcileKeeps(s, id, now);
      }
    }
  }

  lemma FailoverKeeps(s: Store, id: AccountId, severity: string, seconds: int, now: Time, incidentId: string,
                      order: seq<PrincipalId>)
    requires Inv(s)
    ensures Inv(FailoverOutcome(s, id, severity, seconds, now, incidentId, order).store)
    ensures SameConversations(s, FailoverOutcome(s, id, severity, seconds, now, incidentId, order).store)
  {
    if id in s.routeStates {
      var until := if Spared(s, id, severity) then None else Some(now + seconds * SECOND);
      var r := AfterFailover(s.routeStates[id], severity, until, now);
      PublishRouteKeeps(s, id, r, Some(IncidentOf(s, id, r, severity, incidentId, now)), !Spared(s, id, severity),
                        order);
    }
  }

  lemma QuotaKeeps(
      s: Store, id: AccountId, resetAt: Option<Time>, message: Option<string>, now: Time, incidentId: string,
      order: seq<PrincipalId>)
    requires Inv(s)
    ensures Inv(QuotaOutcome(s, id, resetAt, message, now, incidentId, order).store)
    ensures SameConversations(s, QuotaOutcome(s, id, resetAt, message, now, incidentId, order).store)
  {
    if id in s.routeStates {
      var r := AfterQuotaMark(s.routeStates[id], resetAt.UnwrapOr(now + 30 * MINUTE), QuotaReason(message));
      PublishRouteKeeps(s, id, r, Some(IncidentOf(s, id, r, QUOTA_EXHAUSTED, incidentId, now)), true, order);
    }
  }

  // ---- The messages rebuild the change -----------------------------------------------------------

  /** A follower equal to the old store becomes equal to the new one by applying what was sent. */
  ghost predicate Bridges(s: Store, o: Outcome) {
    ApplyAll(s, o.sent) == o.store
  }

  /** One operation after another. */
  function Then(first: Outcome, second: Outcome): Outcome {
    Outcome(second.store, first.sent + second.sent)
  }

  /** Behind an operation that is told in full, both are exactly when the second is. */
  lemma ThenBridges(s: Store, first: Outcome, second: Outcome)
    requires Bridges(s, first)
    ensures Bridges(s, Then(first, second)) <==> Bridges(first.store, second)
  {
    ApplyAllConcat(s, first.sent, second.sent);
  }

  lemma ApplyTwo(s: Store, m: Message, n: Message)
    ensures ApplyAll(s, [m, n]) == Apply(Apply(s, m), n)
  {
    assert [m, n] == [m] + [n];
    ApplyAllConcat(s, [m], [n]);
    ApplyOne(s, m);
    ApplyOne(Apply(s, m), n);
  }

  lemma {:induction false} LeaseDeletesApplied(s: Store, order: seq<PrincipalId>)
    ensures ApplyAll(s, LeaseDeletes(order)) == s.(leases := s.leases - (set p | p in order))
    decreases |order|
  {
    if order == [] {
      assert s.leases - (set p | p in order) == s.leases;
    } else {
      var s1 := Apply(s, LeaseDelete(order[0]));
      assert LeaseDeletes(order)[1..] == LeaseDeletes(order[1..]);
      LeaseDeletesApplied(s1, order[1..]);
      assert order == [order[0]] + order[1..];
      assert s1.leases - (set p | p in order[1..]) == s.leases - (set p | p in order);
    }
  }

  lemma EvictionBridges(s: Store, id: AccountId, order: seq<PrincipalId>)
    requires Enumerates(order, LeasesOn(s, id))
    ensures ApplyAll(s, LeaseDeletes(order)) == s.(leases := WithoutAccount(s.leases, id))
  {
    LeaseDeletesApplied(s, order);
    assert (set p | p in order) == LeasesOn(s, id);
    WithoutItsLeases(s, id);
  }

  lemma WithoutItsLeases(s: Store, id: AccountId)
    ensures s.leases - LeasesOn(s, id) == WithoutAccount(s.leases, id)
  {
  }

  lemma ImportBridges(s: Store, id: AccountId, r: ImportRequest)
    ensures Bridges(s, Import(s, id, r))
  {
    var a := AccountUpsert(ImportedAccount(id, r));
    var route := RouteStateUpsert(Fresh(id));
    var out := Import(s, id, r);
    match r.credential {
      case None =>
        ApplyTwo(s, a, route);
        assert Apply(Apply(s, a), route).accounts == out.store.accounts;
      case Some(template) =>
        var c := CredentialUpsert(template.(accountId := id));
        assert out.sent == [a] + [c, route];
        ApplyAllConcat(s, [a], [c, route]);
        ApplyOne(s, a);
        ApplyTwo(Apply(s, a), c, route);
        assert Apply(Apply(Apply(s, a), c), route).accounts == out.store.accounts;
    }
  }

  lemma DeleteBridges(s: Store, id: AccountId, order: seq<PrincipalId>)
    requires Enumerates(order, LeasesOn(s, id))
    ensures Bridges(s, Delete(s, id, order))
  {
    if id in s.accounts {
      ApplyAllConcat(s, LeaseDeletes(order), [AccountDelete(id)]);
      EvictionBridges(s, id, order);
      var s1 := s.(leases := WithoutAccount(s.leases, id));
      ApplyOne(s1, AccountDelete(id));
      assert WithoutAccount(s1.leases, id) == s1.leases;
    }
  }

  lemma RefreshSignalsBridges(s: Store, id: AccountId, h: real, h5: real, h7: real)
    requires Keyed(s)
    ensures Bridges(s, RefreshSignals(s, id, h, h5, h7))
  {
    if id in s.accounts {
      ApplyOne(s, RefreshSignals(s, id, h, h5, h7).sent[0]);
    }
  }

  lemma UpdateCredentialBridges(s: Store, c: Credential)
    ensures Bridges(s, UpdateCredential(s, c))
  {
    if c.accountId in s.credentials {
      ApplyOne(s, CredentialUpsert(c));
    }
  }

  lemma PublishRouteBridges(s: Store, id: AccountId, r: RouteState, incident: Option<Incident>, evict: bool,
                            order: seq<PrincipalId>)
    requires Keyed(s) && id in s.accounts && r.accountId == id
    requires incident.Some? ==> !KnowsIncident(s.incidents, incident.value.id)
    requires evict ==> Enumerates(order, LeasesOn(s, id))
    ensures Bridges(s, PublishRoute(s, id, r, incident, evict, order))
  {
    var account := s.accounts[id].(currentMode := r.routeMode);
    var head := [AccountUpsert(account), RouteStateUpsert(r)];
    var middle := if incident.Some? then [IncidentInsert(incident.value)] else [];
    var tail := if evict then LeaseDeletes(order) else [];
    var out := PublishRoute(s, id, r, incident, evict, order);
    assert out.sent == (head + middle) + tail;
    ApplyAllConcat(s, head + middle, tail);
    ApplyAllConcat(s, head, middle);
    ApplyTwo(s, head[0], head[1]);
    var s1 := ApplyAll(s, head);
    assert s1.accounts == out.store.accounts;
    assert s1 == s.(accounts := out.store.accounts, routeStates := out.store.routeStates);
    if incident.Some? {
      ApplyOne(s1, middle[0]);
    }
    var s2 := ApplyAll(s1, middle);
    assert s2 == s1.(incidents := out.store.incidents);
    if evict {
      EvictionBridges(s2, id, order);
    }
  }

  /** The evicted principals a step must list, in some order. */
  ghost function RouteEventEvicted(s: Store, id: AccountId, mode: RouteMode, kind: string): set<PrincipalId> {
    if EventEvicts(s, id, mode, kind) then LeasesOn(s, id) else {}
  }

  ghost function FailoverEvicted(s: Store, id: AccountId, severity: string): set<PrincipalId> {
    if Spared(s, id, severity) then {} else LeasesOn(s, id)
  }

  /**
   * A route event is published in full exactly when its kind is a known one, or reconciling had
   * nothing to do: an unrecognised kind that ejects the account from warp tells nobody.
   */
  lemma RouteEventBridgesExactly(
      s: Store, id: AccountId, mode: RouteMode, kind: string, now: Time, incidentId: string, order: seq<PrincipalId>)
    requires Inv(s) && !KnowsIncident(s.incidents, incidentId)
    requires Enumerates(order, RouteEventEvicted(s, id, mode, kind))
    ensures Bridges(s, RouteEventOutcome(s, id, mode, kind, now, incidentId, order))
       <==> kind == CF_HIT || kind == SUCCESS || id !in s.routeStates || !WarpExpired(s.routeStates[id], now)
  {
    if id in s.routeStates {
      var r0 := AfterReconcile(s.routeStates[id], now);
      if kind == CF_HIT {
        var r := AfterCfHit(r0, mode, now);
        PublishRouteBridges(s, id, r, Some(IncidentOf(s, id, r, Severity(r0, mode), incidentId, now)),
                            EventEvicts(s, id, mode, kind), order);
      } else if kind == SUCCESS {
        PublishRouteBridges(s, id, AfterSuccess(r0, now).(cooldownReason := None), None, false, []);
      } else {
        UnpublishedReconcile(s, id, now);
      }
    }
  }

  lemma UnpublishedReconcile(s: Store, id: AccountId, now: Time)
    requires id in s.routeStates
    ensures Bridges(s, Outcome(s.(routeStates := s.routeStates[id := AfterReconcile(s.routeStates[id], now)]), SILENT))
       <==> !WarpExpired(s.routeStates[id], now)
  {
    var s' := s.(routeStates := s.routeStates[id := AfterReconcile(s.routeStates[id], now)]);
    if WarpExpired(s.routeStates[id], now) {
      assert s'.routeStates[id].warpEnteredAt != s.routeStates[id].warpEnteredAt;
    } else {
      assert s'.routeStates == s.routeStates;
    }
  }

  lemma FailoverBridges(s: Store, id: AccountId, severity: string, seconds: int, now: Time, incidentId: string,
                        order: seq<PrincipalId>)
    requires Inv(s) && !KnowsIncident(s.incidents, incidentId)
    requires Enumerates(order, FailoverEvicted(s, id, severity))
    ensures Bridges(s, FailoverOutcome(s, id, severity, seconds, now, incidentId, order))
  {
    if id in s.routeStates {
      var until := if Spared(s, id, severity) then None else Some(now + seconds * SECOND);
      var r := AfterFailover(s.routeStates[id], severity, until, now);
      PublishRouteBridges(s, id, r, Some(IncidentOf(s, id, r, severity, incidentId, now)), !Spared(s, id, severity),
                          order);
    }
  }

  lemma QuotaBridges(
      s: Store, id: AccountId, resetAt: Option<Time>, message: Option<string>, now: Time, incidentId: string,
      order: seq<PrincipalId>)
    requires Inv(s) && !KnowsIncident(s.incidents, incidentId)
    requires Enumerates(order, LeasesOn(s, id))
    ensures Bridges(s, QuotaOutcome(s, id, resetAt, message, now, incidentId, order))
  {
    if id in s.routeStates {
      var r := AfterQuotaMark(s.routeStates[id], resetAt.UnwrapOr(now + 30 * MINUTE), QuotaReason(message));
      PublishRouteBridges(s, id, r, Some(IncidentOf(s, id, r, QUOTA_EXHAUSTED, incidentId, now)), true, order);
    }
  }
}
