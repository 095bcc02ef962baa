/** Choosing the account that serves a request: reuse a lease, place a fresh one, or say why neither. */
module Selection {
  import opened Prelude
  import opened Models
  import opened Bus
  import opened CfState
  import opened AccountOps
  import Router
  import Text

  datatype Request = Request(
    tenantId: TenantId, principalId: PrincipalId, model: string, reasoningEffort: Option<string>,
    subagentCount: nat, cacheAffinityKey: string, placementAffinityKey: string)

  datatype ExhaustedKind = QuotaExhausted | Cooldown | Capability | Unavailable

  datatype Exhaustion = Exhaustion(
    kind: ExhaustedKind, attempted: seq<AccountId>, quota: nat, cooldown: nat, inflight: nat, capability: nat,
    unavailable: nat, earliestResetAt: Option<Time>, earliestRetryAt: Option<Time>)

  /** Whether warming the upstream's cache is worth it, and how many tokens it should save. */
  datatype Warmup = Warmup(shouldWarm: bool, expectedSaving: real)

  datatype Verdict =
    | Selected(lease: Lease, promptCacheKey: string, warmup: Warmup)
    | Exhausted(why: Exhaustion)

  // ---- Route drift is reconciled before anything else -------------------------------------------

  predicate Drifts(s: Store, k: AccountId, now: Time)
    requires k in s.routeStates
  {
    AfterReconcile(s.routeStates[k], now).routeMode != s.routeStates[k].routeMode
  }

  function ReconciledRoutes(s: Store, now: Time): map<AccountId, RouteState> {
    map k | k in s.routeStates :: AfterReconcile(s.routeStates[k], now)
  }

  function ReconciledAccounts(s: Store, now: Time): map<AccountId, Account> {
    map k | k in s.accounts ::
      if k in s.routeStates && Drifts(s, k, now)
      then s.accounts[k].(currentMode := AfterReconcile(s.routeStates[k], now).routeMode)
      else s.accounts[k]
  }

  function Reconciled(s: Store, now: Time): Store {
    s.(routeStates := ReconciledRoutes(s, now), accounts := ReconciledAccounts(s, now))
  }

  /** The drifted accounts, in the order the route table yields them. */
  function Drifted(s: Store, now: Time, routeOrder: seq<AccountId>): seq<AccountId> {
    Filter((k: AccountId) => k in s.routeStates && Drifts(s, k, now), routeOrder)
  }

  function RouteUpserts(s: Store, ids: seq<AccountId>): seq<Message>
    requires forall k :: k in ids ==> k in s.routeStates
  {
    seq(|ids|, i requires 0 <= i < |ids| => RouteStateUpsert(s.routeStates[ids[i]]))
  }

  function AccountUpserts(s: Store, ids: seq<AccountId>): seq<Message>
    requires forall k :: k in ids ==> k in s.accounts
  {
    seq(|ids|, i requires 0 <= i < |ids| => AccountUpsert(s.accounts[ids[i]]))
  }

  /** Only route states whose mode changed are published, then their accounts. */
  function DriftMessages(s: Store, now: Time, routeOrder: seq<AccountId>): seq<Message>
    requires s.accounts.Keys == s.routeStates.Keys
  {
    var s1 := Reconciled(s, now);
    FilterMembers((k: AccountId) => k in s.routeStates && Drifts(s, k, now), routeOrder);
    var ids := Drifted(s, now, routeOrder);
    RouteUpserts(s1, ids) + AccountUpserts(s1, ids)
  }

  // ---- Who is in the running ------------------------------------------------------------------------

  predicate Routable(s: Store, id: AccountId) {
    id in s.credentials && s.credentials[id].managed.UnwrapOr(Active) == Active
  }

  predicate QuotaMarkedReason(reason: Option<string>) {
    reason.Some? &&
    var normalized := Text.ToAsciiLowercase(Text.Trim(reason.value));
    || normalized == "quota" || Text.StartsWith(normalized, "quota_exhausted")
    || Text.StartsWith(normalized, "usage_limit")
  }

  predicate QuotaHeld(r: RouteState, now: Time) {
    QuotaMarkedReason(r.cooldownReason) && InCooldown(r, now)
  }

  function Listed(s: Store, order: seq<AccountId>): (r: seq<Account>)
    requires forall k :: k in order ==> k in s.accounts
    ensures |r| == |order| && forall i :: 0 <= i < |r| ==> r[i] == s.accounts[order[i]]
  {
    seq(|order|, i requires 0 <= i < |order| => s.accounts[order[i]])
  }

  function TenantAccounts(req: Request, all: seq<Account>): seq<Account> {
    Filter((a: Account) => a.tenantId == req.tenantId, all)
  }

  function RoutableAccounts(s: Store, req: Request, all: seq<Account>): seq<Account> {
    Filter((a: Account) => Routable(s, a.id), TenantAccounts(req, all))
  }

  function ModelAccounts(s: Store, req: Request, all: seq<Account>): seq<Account> {
    Filter((a: Account) => req.model in a.models, RoutableAccounts(s, req, all))
  }

  function Earlier(current: Option<Time>, candidate: Option<Time>): Option<Time> {
    if current.Some? && candidate.Some?
    then Some(if candidate.value <= current.value then candidate.value else current.value)
    else if current.Some? then current
    else candidate
  }

  /** The running totals of one pass over the accounts that could serve the model. */
  datatype Tally = Tally(quota: nat, cooling: nat, resetAt: Option<Time>, retryAt: Option<Time>,
                         candidates: seq<Account>)

  function Note(t: Tally, a: Account, routes: map<AccountId, RouteState>, now: Time): Tally {
    if a.id !in routes then t.(candidates := t.candidates + [a])
    else
      var r := routes[a.id];
      if QuotaHeld(r, now) then
        t.(quota := t.quota + 1, resetAt := Earlier(t.resetAt, r.cooldownUntil),
           retryAt := Earlier(t.retryAt, r.cooldownUntil))
      else if InCooldown(r, now) then
        t.(cooling := t.cooling + 1, retryAt := Earlier(t.retryAt, r.cooldownUntil))
      else t.(candidates := t.candidates + [a])
  }

  function TallyOf(accounts: seq<Account>, routes: map<AccountId, RouteState>, now: Time): Tally {
    if accounts == [] then Tally(0, 0, None, None, [])
    else Note(TallyOf(accounts[..|accounts| - 1], routes, now), accounts[|accounts| - 1], routes, now)
  }

  /** One pass, counting who is held back and remembering when the first of them is due. */
  method TallyAccounts(accounts: seq<Account>, routes: map<AccountId, RouteState>, now: Time) returns (t: Tally)
    ensures t == TallyOf(accounts, routes, now)
  {
    var quota, cooling := 0, 0;
    var resetAt, retryAt: Option<Time> := None, None;
    var candidates := [];
    for i := 0 to |accounts|
      invariant Tally(quota, cooling, resetAt, retryAt, candidates) == TallyOf(accounts[..i], routes, now)
    {
      var a := accounts[i];
      assert accounts[..i + 1][..i] == accounts[..i];
      if a.id !in routes {
        candidates := candidates + [a];
        continue;
      }
      var r := routes[a.id];
      if QuotaHeld(r, now) {
        quota := quota + 1;
        resetAt := Earlier(resetAt, r.cooldownUntil);
        retryAt := Earlier(retryAt, r.cooldownUntil);
        continue;
      }
      if InCooldown(r, now) {
        cooling := cooling + 1;
        retryAt := Earlier(retryAt, r.cooldownUntil);
        continue;
      }
      candidates := candidates + [a];
    }
    assert accounts[..|accounts|] == accounts;
    t := Tally(quota, cooling, resetAt, retryAt, candidates);
  }

  /** A stable sort by label. */
  function InsertByLabel(x: Account, s: seq<Account>): (r: seq<Account>)
    ensures multiset(r) == multiset(s) + multiset{x}
  {
    if s == [] || Text.LexLeq(x.displayLabel, s[0].displayLabel) then [x] + s
    else
      var r := [s[0]] + InsertByLabel(x, s[1..]);
      assert s == [s[0]] + s[1..];
      r
  }

  function SortByLabel(s: seq<Account>): (r: seq<Account>)
    ensures multiset(r) == multiset(s) && |r| == |s|
    ensures forall x :: x in r <==> x in s
  {
    if s == [] then []
    else
      var r := InsertByLabel(s[0], SortByLabel(s[1..]));
      assert s == [s[0]] + s[1..];
      assert multiset(r) == multiset(s);
      assert |multiset(r)| == |multiset(s)|;
      assert forall x :: x in r <==> x in multiset(r);
      r
  }

  function Candidates(s: Store, req: Request, now: Time, accountOrder: seq<AccountId>): seq<Account>
    requires forall k :: k in accountOrder ==> k in s.accounts
  {
    SortByLabel(TallyOf(ModelAccounts(s, req, Listed(s, accountOrder)), s.routeStates, now).candidates)
  }

  // ---- The verdict ----------------------------------------------------------------------------------

  function ExistingLease(s: Store, req: Request): Option<Lease> {
    if req.principalId in s.leases then Some(s.leases[req.principalId]) else None
  }

  /** The lease on file still fits: its account is known, credentialed, serves both models and is not resting. */
  predicate Reusable(s: Store, req: Request, now: Time) {
    req.principalId in s.leases &&
    var lease := s.leases[req.principalId];
    var id := lease.accountId;
    id in s.accounts && id in s.routeStates && Routable(s, id)
    && Router.ShouldReuse(lease, s.accounts[id], s.routeStates[id], now)
    && req.model in s.accounts[id].models
  }

  function RefreshedLease(s: Store, req: Request, now: Time): Lease
    requires Reusable(s, req, now)
  {
    var lease := s.leases[req.principalId];
    lease.(lastUsedAt := now, activeSubagents := req.subagentCount,
           routeMode := s.routeStates[lease.accountId].routeMode)
  }

  function Exhausting(s: Store, req: Request, now: Time, accountOrder: seq<AccountId>): Exhaustion
    requires forall k :: k in accountOrder ==> k in s.accounts
  {
    var all := Listed(s, accountOrder);
    var tenant, routable := TenantAccounts(req, all), RoutableAccounts(s, req, all);
    var matching := ModelAccounts(s, req, all);
    var t := TallyOf(matching, s.routeStates, now);
    var kind :=
      if matching == [] then (if routable == [] then ExhaustedKind.Unavailable else Capability)
      else if t.quota == |matching| && t.quota > 0 then QuotaExhausted
      else if t.cooling > 0 then Cooldown
      else ExhaustedKind.Unavailable;
    Exhaustion(
      kind, seq(|matching|, i requires 0 <= i < |matching| => matching[i].id), t.quota, t.cooling, 0,
      if routable == [] then 0 else |routable| - |matching|, |tenant| - |routable|, t.resetAt, t.retryAt)
  }

  /** The better scored of the two rendezvous candidates that have a route state; else the first by label. */
  function Placed(s: Store, req: Request, candidates: seq<Account>, rank: Router.Rank): Account
    requires candidates != []
  {
    BestOf(s, req, candidates, Router.DualCandidates(req.placementAffinityKey, req.model, candidates, rank))
  }

  function BestOf(s: Store, req: Request, candidates: seq<Account>, dual: seq<Account>): Account
    requires candidates != []
  {
    var scored := Filter((a: Account) => a.id in s.routeStates, dual);
    if scored == [] then candidates[0]
    else Router.LastMax(scored, (a: Account) =>
      if a.id in s.routeStates then Router.ScoreCandidate(a, s.routeStates[a.id], ExistingLease(s, req)) else 0.0)
  }

  function FreshLease(s: Store, req: Request, now: Time, a: Account): Lease {
    Lease(req.principalId, req.tenantId, a.id, a.displayLabel, req.model, req.reasoningEffort,
          if a.id in s.routeStates then s.routeStates[a.id].routeMode else a.currentMode,
          if req.principalId in s.leases then s.leases[req.principalId].generation + 1 else 1,
          req.subagentCount, now, now)
  }

  function VerdictOf(s: Store, req: Request, now: Time, accountOrder: seq<AccountId>, rank: Router.Rank): Verdict
    requires forall k :: k in accountOrder ==> k in s.accounts
  {
    var candidates := Candidates(s, req, now, accountOrder);
    if Reusable(s, req, now) then Selected(RefreshedLease(s, req, now), req.cacheAffinityKey, CurrentWarmup(s))
    else if candidates == [] then Exhausted(Exhausting(s, req, now, accountOrder))
    else Selected(FreshLease(s, req, now, Placed(s, req, candidates, rank)), req.cacheAffinityKey, CurrentWarmup(s))
  }

  // ---- Cache metrics ---------------------------------------------------------------------------------

  function Capped(l: RequestLog): nat {
    CfState.Min(l.cachedInputTokens, l.inputTokens)
  }

  function FoldMetrics(logs: seq<RequestLog>): (r: (nat, nat, nat, nat, nat)) {
    if logs == [] then (0, 0, 0, 0, 0)
    else
      var t := FoldMetrics(logs[1..]);
      var l := logs[0];
      (t.0 + l.inputTokens, t.1 + Capped(l), if Capped(l) > t.2 then Capped(l) else t.2,
       t.3 + (if l.inputTokens > 0 then 1 else 0), t.4 + (if l.inputTokens > 0 && Capped(l) > 0 then 1 else 0))
  }

  function DeriveMetrics(logs: seq<RequestLog>, base: CacheMetrics): CacheMetrics {
    var (input, cached, largest, eligible, hits) := FoldMetrics(logs);
    var hitRatio := if eligible > 0 then hits as real / eligible as real else 0.0;
    CacheMetrics(cached, input, largest, hitRatio, if input > 0 then cached as real / input as real else 0.0, hitRatio,
                 base.warmupRoi)
  }

  function CurrentMetrics(logs: seq<RequestLog>, base: CacheMetrics): CacheMetrics {
    var m := DeriveMetrics(logs, base);
    var saving := ObservedWarmup(m).expectedSaving;
    m.(warmupRoi := if saving > 0.0 then saving else 0.0)
  }

  function ObservedWarmup(m: CacheMetrics): Warmup {
    if m.replayTokens == 0 || m.staticPrefixTokens < 1024 then Warmup(false, 0.0)
    else
      var saving := m.staticPrefixTokens as real * m.tokenHitRatio;
      Warmup(m.prefixHitRatio < 0.60 && saving >= 1024.0, saving)
  }

  function CurrentWarmup(s: Store): Warmup {
    ObservedWarmup(CurrentMetrics(s.logs, s.metrics))
  }

  // ---- The whole operation ------------------------------------------------------------------------------

  datatype Resolution = Resolution(outcome: Outcome, verdict: Verdict)

  function Resolve(s: Store, req: Request, now: Time, routeOrder: seq<AccountId>, accountOrder: seq<AccountId>,
                   rank: Router.Rank): Resolution
    requires s.accounts.Keys == s.routeStates.Keys
    requires forall k :: k in accountOrder ==> k in s.accounts
  {
    var s1 := Reconciled(s, now);
    var drift := DriftMessages(s, now, routeOrder);
    var v := VerdictOf(s1, req, now, accountOrder, rank);
    match v
    case Exhausted(_) => Resolution(Outcome(s1, drift), v)
    case Selected(lease, _, _) =>
      if Reusable(s1, req, now) then
        Resolution(Outcome(s1.(leases := s1.leases[req.principalId := lease]), drift + [LeaseUpsert(lease)]), v)
      else
        var m := CurrentMetrics(s1.logs, s1.metrics);
        Resolution(Outcome(s1.(leases := s1.leases[req.principalId := lease], metrics := m),
                           drift + [LeaseUpsert(lease), MetricsUpsert(m)]), v)
  }

  /** Beyond the reconciled routes, a selection writes one lease and perhaps the metrics. */
  lemma ResolveWrites(s: Store, req: Request, now: Time, routeOrder: seq<AccountId>, accountOrder: seq<AccountId>,
                      rank: Router.Rank)
    requires s.accounts.Keys == s.routeStates.Keys
    requires forall k :: k in accountOrder ==> k in s.accounts
    ensures var s1, r := Reconciled(s, now), Resolve(s, req, now, routeOrder, accountOrder, rank);
      && r.verdict == VerdictOf(s1, req, now, accountOrder, rank)
      && r.outcome.store == s1.(metrics := r.outcome.store.metrics, leases := r.outcome.store.leases)
      && r.outcome.store.leases
         == if r.verdict.Selected? then s1.leases[req.principalId := r.verdict.lease] else s1.leases
  {
  }
}
