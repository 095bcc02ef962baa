/** Runs in which a principal's generation falls, and in which a failover shortens a quota deadline. */
module LeaseWitnesses {
  import opened Prelude
  import opened Models
  import opened Bus
  import opened CfState
  import opened AccountOps
  import opened Runs
  import FailureHandling
  import LeaseSafety
  import Replication
  import Selection
  import SelectionTheorems
  import Witnesses

  // ---- A quota deadline cut short ---------------------------------------------------------------------------

  function Mark(id: AccountId): Op {
    MarkQuota(id, Some(HOUR), None, 0, "1", [])
  }

  function Fail(id: AccountId): Op {
    FailOver(id, FailureHandling.RATE_LIMITED, 45, 0, "2", [])
  }

  /** An account without a credential, which nobody holds a lease on. */
  ghost predicate Idle(s: Store, id: AccountId, incidents: set<string>) {
    && Replication.LeaderInv(s) && id in s.accounts && s.credentials == map[] && s.leases == map[]
    && forall x :: KnowsIncident(s.incidents, x) ==> x in incidents
  }

  lemma ImportedIsIdle(id: AccountId, request: ImportRequest, w: World)
    requires request.credential.None?
    ensures Legal(EMPTY_STORE, ImportAccount(id, request))
    ensures Inv(EMPTY_STORE) && Idle(Step(EMPTY_STORE, ImportAccount(id, request), w).store, id, {})
  {
    Replication.EmptyIsInvariant();
    Replication.PlainStepKeeps(EMPTY_STORE, ImportAccount(id, request));
  }

  lemma MarkedRests(s: Store, id: AccountId, w: World)
    requires Idle(s, id, {})
    ensures Legal(s, Mark(id)) && LeaseSafety.RestsUntil(Step(s, Mark(id), w).store, id, HOUR)
    ensures Idle(Step(s, Mark(id), w).store, id, {"1"})
  {
    Replication.RouteStepKeeps(s, Mark(id));
    Witnesses.HitIsAStep(s, Mark(id), w);
    var r := AfterQuotaMark(s.routeStates[id], HOUR, QuotaReason(None));
    var incident := IncidentOf(s, id, r, QUOTA_EXHAUSTED, "1", 0);
    Witnesses.PrependKnows(incident, s.incidents);
    LeaseSafety.PublishWrites(s, id, r, Some(incident), true, []);
  }

  lemma NobodyIsSpared(s: Store, id: AccountId, severity: string)
    requires s.credentials == map[]
    ensures !Spared(s, id, severity)
  {
    if id in s.accounts {
      var serving := set a | a in s.accounts && s.accounts[a].tenantId == s.accounts[id].tenantId && a in s.credentials;
      assert serving == {};
    }
  }

  lemma FailedRestsLess(s: Store, id: AccountId, w: World)
    requires Idle(s, id, {"1"})
    ensures Legal(s, Fail(id)) && LeaseSafety.RestsUntil(Step(s, Fail(id), w).store, id, 45 * SECOND)
  {
    NobodyIsSpared(s, id, FailureHandling.RATE_LIMITED);
    assert !KnowsIncident(s.incidents, "2");
    Witnesses.HitIsAStep(s, Fail(id), w);
    FailureHandling.FailoverDeadline(s, id, FailureHandling.RATE_LIMITED, 45, 0, "2", []);
  }

  /** Import an account, mark its quota for an hour, and let it fail: it rests for 45 seconds. */
  lemma FailoverShortensRest(id: AccountId, request: ImportRequest, w: World)
    requires request.credential.None?
    ensures LeaseSafety.LegalRun(EMPTY_STORE, [ImportAccount(id, request)] + [Mark(id)], w)
    ensures var s := LeaseSafety.AfterRun(EMPTY_STORE, [ImportAccount(id, request)] + [Mark(id)], w);
      && Replication.LeaderInv(s) && LeaseSafety.RestsUntil(s, id, HOUR)
      && Legal(s, Fail(id)) && LeaseSafety.RestsUntil(Step(s, Fail(id), w).store, id, 45 * SECOND)
  {
    Replication.EmptyIsInvariant();
    var imported := [ImportAccount(id, request)];
    ImportedIsIdle(id, request, w);
    Started(ImportAccount(id, request), w);
    var s := LeaseSafety.AfterRun(EMPTY_STORE, imported, w);
    MarkedRests(s, id, w);
    Witnesses.RunOneMore(EMPTY_STORE, imported, Mark(id), w);
    FailedRestsLess(Step(s, Mark(id), w).store, id, w);
  }

  /** A run of one operation. */
  lemma Started(op: Op, w: World)
    requires Inv(EMPTY_STORE) && Legal(EMPTY_STORE, op)
    ensures LeaseSafety.LegalRun(EMPTY_STORE, [op], w)
    ensures LeaseSafety.AfterRun(EMPTY_STORE, [op], w) == Step(EMPTY_STORE, op, w).store
  {
    Replication.EmptyIsInvariant();
    assert LeaseSafety.LegalRun(EMPTY_STORE, [], w) && LeaseSafety.AfterRun(EMPTY_STORE, [], w) == EMPTY_STORE;
    Witnesses.RunOneMore(EMPTY_STORE, [], op, w);
    assert [] + [op] == [op];
  }

  // ---- A generation that falls ------------------------------------------------------------------------------

  const FIRST := "a"
  const SECONDARY := "b"
  const SMALL := "m"
  const LARGE := "n"

  /** An account that serves one model. */
  function Serving(id: AccountId, tenant: TenantId, model: string): Op {
    var credential := Credential(id, "", "", None);
    ImportAccount(id, ImportRequest(tenant, "", [model], None, None, None, None, None, Some(credential)))
  }

  function Ask(tenant: TenantId, p: PrincipalId, model: string): Selection.Request {
    Selection.Request(tenant, p, model, None, 0, "", "")
  }

  /** A selection that finds the tables listed in this order. */
  function Choose(tenant: TenantId, p: PrincipalId, model: string, order: seq<AccountId>): Op {
    SelectLease(Ask(tenant, p, model), 0, order, order)
  }

  /** Of all accounts this one alone can serve the request, and it does not rest. */
  ghost predicate OnlyServer(s: Store, req: Selection.Request, id: AccountId) {
    && SelectionTheorems.CanServe(s, req, id) && !SelectionTheorems.Resting(s, id, 0)
    && forall x :: SelectionTheorems.CanServe(s, req, x) ==> x == id
  }

  ghost predicate HoldsOn(s: Store, p: PrincipalId, id: AccountId, tenant: TenantId, generation: nat) {
    && p in s.leases && s.leases[p].accountId == id && s.leases[p].tenantId == tenant
    && s.leases[p].generation == generation
  }

  lemma ChosenIsServer(s: Store, tenant: TenantId, p: PrincipalId, model: string, order: seq<AccountId>, id: AccountId,
                       w: World)
    requires Inv(s) && Enumerates(order, s.accounts.Keys) && OnlyServer(s, Ask(tenant, p, model), id)
    requires p in s.leases ==> s.leases[p].accountId != id && s.leases[p].tenantId == tenant
    ensures var v := Selection.VerdictOf(s, Ask(tenant, p, model), 0, order, w.rank);
      && v.Selected? && v.lease.accountId == id && v.lease.tenantId == tenant
      && v.lease.generation == if p in s.leases then s.leases[p].generation + 1 else 1
  {
    var req := Ask(tenant, p, model);
    if Selection.Reusable(s, req, 0) {
      assert SelectionTheorems.CanServe(s, req, s.leases[p].accountId);
    }
    assert SelectionTheorems.Eligible(s, req, id, 0);
    SelectionTheorems.ExhaustedExactly(s, req, 0, order, w.rank);
    SelectionTheorems.FreshPlacementIsSound(s, req, 0, order, w.rank);
  }

  /** Two accounts, each serving a model of its own. */
  ghost predicate Paired(s: Store, tenant: TenantId, p: PrincipalId) {
    && Replication.LeaderInv(s) && s.accounts.Keys == {FIRST, SECONDARY}
    && OnlyServer(s, Ask(tenant, p, SMALL), FIRST) && OnlyServer(s, Ask(tenant, p, LARGE), SECONDARY)
  }

  lemma StillOnlyServer(s: Store, s': Store, req: Selection.Request, id: AccountId)
    requires OnlyServer(s, req, id) && s' == Selection.Reconciled(s, 0).(metrics := s'.metrics, leases := s'.leases)
    ensures OnlyServer(s', req, id)
  {
    SelectionTheorems.ReconcilingKeepsThePool(s, req, 0, 0);
    var s1 := Selection.Reconciled(s, 0);
    forall x
      ensures SelectionTheorems.CanServe(s', req, x) <==> SelectionTheorems.CanServe(s1, req, x)
    {
    }
  }

  /** What is left once the principal is moved to, or given, a lease on the one account that can serve it. */
  ghost predicate Moved(s: Store, s': Store, tenant: TenantId, p: PrincipalId, id: AccountId) {
    && s' == Selection.Reconciled(s, 0).(metrics := s'.metrics, leases := s'.leases)
    && s'.leases.Keys == s.leases.Keys + {p}
    && HoldsOn(s', p, id, tenant, if p in s.leases then s.leases[p].generation + 1 else 1)
  }

  lemma ResolveMoves(s: Store, tenant: TenantId, p: PrincipalId, model: string, order: seq<AccountId>, id: AccountId,
                     w: World)
    requires Inv(s) && Enumerates(order, s.accounts.Keys) && OnlyServer(s, Ask(tenant, p, model), id)
    requires p in s.leases ==> s.leases[p].accountId != id && s.leases[p].tenantId == tenant
    ensures Moved(s, Selection.Resolve(s, Ask(tenant, p, model), 0, order, order, w.rank).outcome.store, tenant, p, id)
  {
    var req := Ask(tenant, p, model);
    ReconciledChoice(s, tenant, p, model, order, id, w);
    Selection.ResolveWrites(s, req, 0, order, order, w.rank);
    var v := Selection.VerdictOf(Selection.Reconciled(s, 0), req, 0, order, w.rank);
    LeaseMoves(s, Selection.Resolve(s, req, 0, order, order, w.rank).outcome.store, v.lease, tenant, p, id);
  }

  lemma ReconciledChoice(s: Store, tenant: TenantId, p: PrincipalId, model: string, order: seq<AccountId>,
                         id: AccountId, w: World)
    requires Inv(s) && Enumerates(order, s.accounts.Keys) && OnlyServer(s, Ask(tenant, p, model), id)
    requires p in s.leases ==> s.leases[p].accountId != id && s.leases[p].tenantId == tenant
    ensures Selection.Reconciled(s, 0).accounts.Keys == s.accounts.Keys
    ensures var v := Selection.VerdictOf(Selection.Reconciled(s, 0), Ask(tenant, p, model), 0, order, w.rank);
      && v.Selected? && v.lease.accountId == id && v.lease.tenantId == tenant
      && v.lease.generation == if p in s.leases then s.leases[p].generation + 1 else 1
  {
    var s1 := Selection.Reconciled(s, 0);
    SelectionTheorems.ReconcilingKeepsInv(s, 0);
    StillOnlyServer(s, s1, Ask(tenant, p, model), id);
    ChosenIsServer(s1, tenant, p, model, order, id, w);
  }

  lemma LeaseMoves(s: Store, s': Store, lease: Lease, tenant: TenantId, p: PrincipalId, id: AccountId)
    requires s' == Selection.Reconciled(s, 0).(metrics := s'.metrics, leases := s.leases[p := lease])
    requires lease.accountId == id && lease.tenantId == tenant
    requires lease.generation == if p in s.leases then s.leases[p].generation + 1 else 1
    ensures Moved(s, s', tenant, p, id)
  {
  }

  lemma ChooseMoves(s: Store, tenant: TenantId, p: PrincipalId, model: string, order: seq<AccountId>, id: AccountId,
                    w: World)
    requires Replication.LeaderInv(s) && Enumerates(order, s.accounts.Keys)
    requires OnlyServer(s, Ask(tenant, p, model), id)
    requires p in s.leases ==> s.leases[p].accountId != id && s.leases[p].tenantId == tenant
    ensures Legal(s, Choose(tenant, p, model, order))
    ensures var s' := Step(s, Choose(tenant, p, model, order), w).store;
      Replication.LeaderInv(s') && Moved(s, s', tenant, p, id)
  {
    var op := Choose(tenant, p, model, order);
    ResolveMoves(s, tenant, p, model, order, id, w);
    Replication.StepKeeps(s, op, w);
    assert Step(s, op, w) == SelectStep(s, op, w);
  }

  /** The selections of the run find both accounts, and the last of them only the first. */
  const BOTH := [FIRST, SECONDARY]

  lemma BothEnumerate()
    ensures Enumerates(BOTH, {FIRST, SECONDARY}) && Enumerates([FIRST], {FIRST})
  {
    assert FIRST[0] != SECONDARY[0];
  }

  lemma MovedStaysPaired(s: Store, s': Store, tenant: TenantId, p: PrincipalId, id: AccountId)
    requires Paired(s, tenant, p) && Replication.LeaderInv(s') && Moved(s, s', tenant, p, id)
    ensures Paired(s', tenant, p)
  {
    StillOnlyServer(s, s', Ask(tenant, p, SMALL), FIRST);
    StillOnlyServer(s, s', Ask(tenant, p, LARGE), SECONDARY);
    assert s'.accounts.Keys == s.accounts.Keys;
  }

  /** Either account can be chosen, and the pair stays one. */
  lemma PairedChooses(s: Store, tenant: TenantId, p: PrincipalId, model: string, id: AccountId, w: World)
    requires Paired(s, tenant, p) && ((model == SMALL && id == FIRST) || (model == LARGE && id == SECONDARY))
    requires p in s.leases ==> s.leases[p].accountId != id && s.leases[p].tenantId == tenant
    ensures Legal(s, Choose(tenant, p, model, BOTH))
    ensures var s' := Step(s, Choose(tenant, p, model, BOTH), w).store;
      Paired(s', tenant, p) && Moved(s, s', tenant, p, id)
  {
    BothEnumerate();
    ChooseMoves(s, tenant, p, model, BOTH, id, w);
    MovedStaysPaired(s, Step(s, Choose(tenant, p, model, BOTH), w).store, tenant, p, id);
  }

  /** After two selections for different models the principal is at generation 2, on the second account. */
  lemma SecondGeneration(s: Store, tenant: TenantId, p: PrincipalId, w: World)
    requires Paired(s, tenant, p) && s.leases == map[]
    ensures var small, large := Choose(tenant, p, SMALL, BOTH), Choose(tenant, p, LARGE, BOTH);
      && Legal(s, small) && Replication.LeaderInv(Step(s, small, w).store) && Legal(Step(s, small, w).store, large)
      && var s2 := Step(Step(s, small, w).store, large, w).store;
         Paired(s2, tenant, p) && HoldsOn(s2, p, SECONDARY, tenant, 2) && s2.leases.Keys == {p}
  {
    PairedChooses(s, tenant, p, SMALL, FIRST, w);
    MovedHolds(s, Step(s, Choose(tenant, p, SMALL, BOTH), w).store, tenant, p);
    ThenLarge(Step(s, Choose(tenant, p, SMALL, BOTH), w).store, tenant, p, w);
  }

  lemma MovedHolds(s: Store, s': Store, tenant: TenantId, p: PrincipalId)
    requires Moved(s, s', tenant, p, FIRST) && s.leases == map[]
    ensures HoldsOn(s', p, FIRST, tenant, 1) && s'.leases.Keys == {p}
  {
  }

  lemma MovedOn(s: Store, s': Store, tenant: TenantId, p: PrincipalId)
    requires Moved(s, s', tenant, p, SECONDARY) && HoldsOn(s, p, FIRST, tenant, 1) && s.leases.Keys == {p}
    ensures HoldsOn(s', p, SECONDARY, tenant, 2) && s'.leases.Keys == {p}
  {
  }

  lemma ThenLarge(s: Store, tenant: TenantId, p: PrincipalId, w: World)
    requires Paired(s, tenant, p) && HoldsOn(s, p, FIRST, tenant, 1) && s.leases.Keys == {p}
    ensures var large := Choose(tenant, p, LARGE, BOTH);
      && Legal(s, large)
      && var s' := Step(s, large, w).store;
         Paired(s', tenant, p) && HoldsOn(s', p, SECONDARY, tenant, 2) && s'.leases.Keys == {p}
  {
    assert FIRST[0] != SECONDARY[0];
    PairedChooses(s, tenant, p, LARGE, SECONDARY, w);
    MovedOn(s, Step(s, Choose(tenant, p, LARGE, BOTH), w).store, tenant, p);
  }

  /** The second account goes, and the principal's lease with it. */
  lemma DeletionLeavesOne(s: Store, tenant: TenantId, p: PrincipalId, w: World)
    requires Paired(s, tenant, p) && HoldsOn(s, p, SECONDARY, tenant, 2) && s.leases.Keys == {p}
    ensures Legal(s, Op.DeleteAccount(SECONDARY, [p]))
    ensures var s' := Step(s, Op.DeleteAccount(SECONDARY, [p]), w).store;
      && Replication.LeaderInv(s') && s'.leases == map[] && s'.accounts.Keys == {FIRST}
      && OnlyServer(s', Ask(tenant, p, SMALL), FIRST)
  {
    var op := Op.DeleteAccount(SECONDARY, [p]);
    BothEnumerate();
    assert LeasesOn(s, SECONDARY) == {p};
    Replication.StepKeeps(s, op, w);
    assert Step(s, op, w) == Delete(s, SECONDARY, [p]);
    DeletedOnlyServer(s, tenant, p);
  }

  lemma DeletedOnlyServer(s: Store, tenant: TenantId, p: PrincipalId)
    requires Paired(s, tenant, p) && s.leases.Keys == {p} && s.leases[p].accountId == SECONDARY
    ensures var s' := Delete(s, SECONDARY, [p]).store;
      && s'.leases == map[] && s'.accounts.Keys == {FIRST} && OnlyServer(s', Ask(tenant, p, SMALL), FIRST)
  {
    assert FIRST[0] != SECONDARY[0];
    var s', req := Delete(s, SECONDARY, [p]).store, Ask(tenant, p, SMALL);
    forall x | SelectionTheorems.CanServe(s', req, x)
      ensures x == FIRST
    {
      assert SelectionTheorems.CanServe(s, req, x);
    }
  }

  /**
   * With two accounts for two models: ask for one, then for the other, and delete the account of the
   * second. The principal, at generation 2 before, is at generation 1 when it asks again.
   */
  lemma GenerationFalls(s: Store, tenant: TenantId, p: PrincipalId, w: World)
    requires Paired(s, tenant, p) && s.leases == map[]
    ensures var ops := [Choose(tenant, p, SMALL, BOTH), Choose(tenant, p, LARGE, BOTH)];
      && LeaseSafety.LegalRun(s, ops, w)
      && var s2 := LeaseSafety.AfterRun(s, ops, w);
         && HoldsOn(s2, p, SECONDARY, tenant, 2)
         && var more := [Op.DeleteAccount(SECONDARY, [p]), Choose(tenant, p, SMALL, [FIRST])];
            LeaseSafety.LegalRun(s2, more, w) && HoldsOn(LeaseSafety.AfterRun(s2, more, w), p, FIRST, tenant, 1)
  {
    BothEnumerate();
    SecondGeneration(s, tenant, p, w);
    var small, large := Choose(tenant, p, SMALL, BOTH), Choose(tenant, p, LARGE, BOTH);
    TwoSteps(s, small, large, w);
    var s2 := Step(Step(s, small, w).store, large, w).store;
    var gone, again := Op.DeleteAccount(SECONDARY, [p]), Choose(tenant, p, SMALL, [FIRST]);
    DeletionLeavesOne(s2, tenant, p, w);
    ChooseMoves(Step(s2, gone, w).store, tenant, p, SMALL, [FIRST], FIRST, w);
    TwoSteps(s2, gone, again, w);
  }

  lemma TwoSteps(s: Store, first: Op, second: Op, w: World)
    requires Replication.LeaderInv(s) && Legal(s, first)
    requires Replication.LeaderInv(Step(s, first, w).store) && Legal(Step(s, first, w).store, second)
    ensures LeaseSafety.LegalRun(s, [first, second], w)
    ensures LeaseSafety.AfterRun(s, [first, second], w) == Step(Step(s, first, w).store, second, w).store
  {
    assert LeaseSafety.LegalRun(s, [], w) && LeaseSafety.AfterRun(s, [], w) == s;
    Witnesses.RunOneMore(s, [], first, w);
    assert [] + [first] == [first];
    Witnesses.RunOneMore(s, [first], second, w);
    assert [first] + [second] == [first, second];
  }

  // ---- Two accounts for two models can be had ---------------------------------------------------------------

  lemma PairIsReachable(tenant: TenantId, p: PrincipalId, w: World)
    ensures var ops := [Serving(FIRST, tenant, SMALL), Serving(SECONDARY, tenant, LARGE)];
      && LeaseSafety.LegalRun(EMPTY_STORE, ops, w)
      && Paired(LeaseSafety.AfterRun(EMPTY_STORE, ops, w), tenant, p)
      && LeaseSafety.AfterRun(EMPTY_STORE, ops, w).leases == map[]
  {
    Replication.EmptyIsInvariant();
    assert FIRST[0] != SECONDARY[0] && SMALL[0] != LARGE[0];
    var first, second := Serving(FIRST, tenant, SMALL), Serving(SECONDARY, tenant, LARGE);
    Replication.PlainStepKeeps(EMPTY_STORE, first);
    var s1 := PlainStep(EMPTY_STORE, first).store;
    Replication.PlainStepKeeps(s1, second);
    TwoSteps(EMPTY_STORE, first, second, w);
    ImportedPair(tenant, p);
  }

  ghost function Imported(tenant: TenantId): Store {
    PlainStep(PlainStep(EMPTY_STORE, Serving(FIRST, tenant, SMALL)).store, Serving(SECONDARY, tenant, LARGE)).store
  }

  lemma ImportedPair(tenant: TenantId, p: PrincipalId)
    ensures var s := Imported(tenant);
      && s.leases == map[] && s.accounts.Keys == {FIRST, SECONDARY}
      && OnlyServer(s, Ask(tenant, p, SMALL), FIRST) && OnlyServer(s, Ask(tenant, p, LARGE), SECONDARY)
  {
    var s := Imported(tenant);
    assert FIRST[0] != SECONDARY[0] && SMALL[0] != LARGE[0];
    assert s.accounts.Keys == {FIRST, SECONDARY};
    assert s.accounts[FIRST].models == [SMALL] && s.accounts[SECONDARY].models == [LARGE];
    assert s.routeStates[FIRST] == Fresh(FIRST) && s.routeStates[SECONDARY] == Fresh(SECONDARY);
    assert Selection.Routable(s, FIRST) && Selection.Routable(s, SECONDARY);
    assert SMALL !in [LARGE] && LARGE !in [SMALL];
    forall x | x in s.accounts
      ensures x == FIRST || x == SECONDARY
    {
    }
    OnlyOneServes(s, tenant, p, SMALL, FIRST, SECONDARY);
    OnlyOneServes(s, tenant, p, LARGE, SECONDARY, FIRST);
  }

  lemma OnlyOneServes(s: Store, tenant: TenantId, p: PrincipalId, model: string, id: AccountId, other: AccountId)
    requires s.accounts.Keys == {id, other} && s.accounts[id].tenantId == tenant && Selection.Routable(s, id)
    requires s.accounts[id].models == [model] && model !in s.accounts[other].models
    requires id in s.routeStates && s.routeStates[id].cooldownUntil.None?
    ensures OnlyServer(s, Ask(tenant, p, model), id)
  {
    forall x | SelectionTheorems.CanServe(s, Ask(tenant, p, model), x)
      ensures x == id
    {
      assert x in s.accounts.Keys;
    }
  }
}
