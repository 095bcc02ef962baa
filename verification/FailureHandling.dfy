/** What a failed attempt does to the account it was made on, and so to the next selection. */
module FailureHandling {
  import opened Prelude
  import opened Models
  import opened Bus
  import opened CfState
  import opened AccountOps
  import opened Runs
  import LeaseSafety
  import Replication
  import Selection
  import SelectionTheorems
  import Upstream

  /** The environment's part in handling one failure. */
  datatype Circumstances = Circumstances(now: Time, incidentId: string, leaseOrder: seq<PrincipalId>)

  function CooldownSeconds(kind: Upstream.FailureKind): int {
    match kind
    case Quota => 1800
    case RateLimited => 45
    case Length => 0
    case Continuation => 0
    case Generic => 0
    case _ => 300
  }

  const AUTH := "auth"
  const RATE_LIMITED := "rate_limited"
  const CAPABILITY := "capability"
  const UPSTREAM_GENERIC := "upstream_generic"
  const CREDENTIAL_MISSING := "credential-missing"
  const HIDDEN_QUOTA := "hidden_quota"
  const QUOTA_429 := "quota_429"

  /**
   * How an attempt can fail: by an answer that hides its failure, by a rejection, with the status and the
   * reset time it brings, or for want of a credential before anything is sent.
   */
  datatype Failure =
    | Hidden(hidden: Upstream.FailureKind)
    | Rejected(rejected: Upstream.FailureKind, status: Option<nat>, resetAt: Option<Time>, quota429: bool)
    | NoCredential
  {
    /** What the upstream complained of, if it was the upstream. */
    function Kind(): Option<Upstream.FailureKind> {
      match this
      case Hidden(kind) => Some(kind)
      case Rejected(kind, _, _, _) => Some(kind)
      case NoCredential => None
    }
  }

  /** A rejection without a telling cause counts against the account if the server was at fault, or none answered. */
  predicate RetryableStatus(status: Option<nat>) {
    status.None? || 500 <= status.value < 600 || status.value == 408
  }

  predicate IsHit(f: Failure) {
    f.Kind() == Some(Upstream.Cf)
  }

  predicate IsQuota(f: Failure) {
    f.Kind() == Some(Upstream.Quota)
  }

  /** The failures that are met with a failover. */
  predicate FailsOver(f: Failure) {
    match f.Kind()
    case None => true
    case Some(kind) =>
      if kind.Generic? then f.Rejected? ==> RetryableStatus(f.status)
      else kind.Auth? || kind.RateLimited? || kind.Capability?
  }

  function SeverityOf(f: Failure): string {
    match f.Kind()
    case None => CREDENTIAL_MISSING
    case Some(kind) =>
      if kind.Auth? then AUTH
      else if kind.RateLimited? then RATE_LIMITED
      else if kind.Capability? then CAPABILITY
      else UPSTREAM_GENERIC
  }

  function FailoverSeconds(f: Failure): int {
    match f.Kind()
    case None => 300
    case Some(kind) => if kind.Generic? then 30 else CooldownSeconds(kind)
  }

  function QuotaNote(f: Failure): string {
    if f.Hidden? then HIDDEN_QUOTA else if f.Rejected? && f.quota429 then QUOTA_429 else QUOTA
  }

  function ResetAt(f: Failure): Option<Time> {
    if f.Rejected? then f.resetAt else None
  }

  /** The operation a failure leads to, if any. */
  function Handle(f: Failure, lease: Lease, c: Circumstances): Option<Op> {
    var id := lease.accountId;
    if IsHit(f) then Some(RouteEvent(id, lease.routeMode, CF_HIT, c.now, c.incidentId, c.leaseOrder))
    else if IsQuota(f) then Some(MarkQuota(id, ResetAt(f), Some(QuotaNote(f)), c.now, c.incidentId, c.leaseOrder))
    else if FailsOver(f) then Some(FailOver(id, SeverityOf(f), FailoverSeconds(f), c.now, c.incidentId, c.leaseOrder))
    else None
  }

  /** When the account may be used again after a failure that puts it to rest, told from the state before it. */
  function BackAt(s: Store, f: Failure, lease: Lease, now: Time): Time
    requires lease.accountId in s.routeStates && RouteInv(s.routeStates[lease.accountId])
  {
    if IsHit(f) then now + Rest(Min(s.routeStates[lease.accountId].cooldownLevel + 1, TOP_LEVEL))
    else if IsQuota(f) then ResetAt(f).UnwrapOr(now + 30 * MINUTE)
    else now + FailoverSeconds(f) * SECOND
  }

  /** The failures that put an account to rest: no direct hits, and only quota and warp hits for a sole account. */
  ghost predicate PutsToRest(s: Store, f: Failure, lease: Lease) {
    if IsHit(f) then lease.routeMode == Warp
    else IsQuota(f) || (FailsOver(f) && !SoleAccount(s, lease.accountId))
  }

  /**
   * The failures that change nothing about when the account rests: direct hits, and those that are no
   * fault of the account's.
   */
  predicate LeavesRest(f: Failure, lease: Lease) {
    if IsHit(f) then lease.routeMode == Direct else !IsQuota(f) && !FailsOver(f)
  }

  /** The store once the failure is handled. */
  ghost function Handled(s: Store, f: Failure, lease: Lease, c: Circumstances): Store {
    var op := Handle(f, lease, c);
    if op.None? then s else RouteStep(s, op.value).store
  }

  ghost predicate MayHappen(s: Store, f: Failure, lease: Lease, c: Circumstances) {
    && Replication.LeaderInv(s) && lease.accountId in s.routeStates
    && (Handle(f, lease, c).Some? ==> Legal(s, Handle(f, lease, c).value))
  }

  /** Whether the account that failed rests at time t, told from the state before the failure. */
  ghost predicate RestsAt(s: Store, f: Failure, lease: Lease, now: Time, t: Time)
    requires lease.accountId in s.routeStates && RouteInv(s.routeStates[lease.accountId])
  {
    if PutsToRest(s, f, lease) then t < BackAt(s, f, lease, now)
    else LeavesRest(f, lease) && SelectionTheorems.Resting(s, lease.accountId, t)
  }

  // ---- The deadline each failure writes --------------------------------------------------------------

  ghost function DeadlineAfter(s: Store, f: Failure, lease: Lease, now: Time): Option<Time>
    requires lease.accountId in s.routeStates && RouteInv(s.routeStates[lease.accountId])
  {
    if PutsToRest(s, f, lease) then Some(BackAt(s, f, lease, now))
    else if LeavesRest(f, lease) then s.routeStates[lease.accountId].cooldownUntil
    else None
  }

  lemma HitDeadline(s: Store, id: AccountId, mode: RouteMode, now: Time, incidentId: string, evict: bool,
                    order: seq<PrincipalId>)
    requires id in s.routeStates
    ensures var s' := CfHitOutcome(s, id, mode, now, incidentId, evict, order).store;
      && id in s'.routeStates
      && s'.routeStates[id].cooldownUntil ==
           (if mode == Warp then Some(now + Rest(Min(s.routeStates[id].cooldownLevel + 1, TOP_LEVEL)))
            else s.routeStates[id].cooldownUntil)
  {
  }

  lemma FailoverDeadline(s: Store, id: AccountId, severity: string, seconds: int, now: Time, incidentId: string,
                         order: seq<PrincipalId>)
    requires id in s.routeStates
    ensures var s' := FailoverOutcome(s, id, severity, seconds, now, incidentId, order).store;
      && id in s'.routeStates
      && s'.routeStates[id].cooldownUntil == if Spared(s, id, severity) then None else Some(now + seconds * SECOND)
  {
  }

  lemma QuotaDeadline(s: Store, id: AccountId, resetAt: Option<Time>, message: Option<string>, now: Time,
                      incidentId: string, order: seq<PrincipalId>)
    requires id in s.routeStates
    ensures var s' := QuotaOutcome(s, id, resetAt, message, now, incidentId, order).store;
      id in s'.routeStates && s'.routeStates[id].cooldownUntil == Some(resetAt.UnwrapOr(now + 30 * MINUTE))
  {
  }

  /** None of the severities of a failure is the one that spares nobody. */
  lemma SeverityIsNotQuota(f: Failure)
    ensures SeverityOf(f) != QUOTA
  {
    assert QUOTA[0] == 'q' && AUTH[0] == 'a' && RATE_LIMITED[0] == 'r' && CAPABILITY[0] == 'c';
    assert UPSTREAM_GENERIC[0] == 'u' && CREDENTIAL_MISSING[0] == 'c';
  }

  /** The account has the deadline the failure leaves it with. */
  ghost predicate Due(s1: Store, id: AccountId, deadline: Option<Time>) {
    id in s1.routeStates && s1.routeStates[id].cooldownUntil == deadline
  }

  lemma HandledHit(s: Store, f: Failure, lease: Lease, c: Circumstances)
    requires MayHappen(s, f, lease, c) && IsHit(f)
    ensures Due(Handled(s, f, lease, c), lease.accountId, DeadlineAfter(s, f, lease, c.now))
  {
    var id, evict := lease.accountId, EventEvicts(s, lease.accountId, lease.routeMode, CF_HIT);
    HitDeadline(s, id, lease.routeMode, c.now, c.incidentId, evict, c.leaseOrder);
    assert Handled(s, f, lease, c)
        == CfHitOutcome(s, id, lease.routeMode, c.now, c.incidentId, evict, c.leaseOrder).store;
  }

  lemma HandledQuota(s: Store, f: Failure, lease: Lease, c: Circumstances)
    requires MayHappen(s, f, lease, c) && IsQuota(f)
    ensures Due(Handled(s, f, lease, c), lease.accountId, DeadlineAfter(s, f, lease, c.now))
  {
    QuotaDeadline(s, lease.accountId, ResetAt(f), Some(QuotaNote(f)), c.now, c.incidentId, c.leaseOrder);
  }

  lemma HandledFailover(s: Store, f: Failure, lease: Lease, c: Circumstances)
    requires MayHappen(s, f, lease, c) && !IsHit(f) && !IsQuota(f) && FailsOver(f)
    ensures Due(Handled(s, f, lease, c), lease.accountId, DeadlineAfter(s, f, lease, c.now))
  {
    SeverityIsNotQuota(f);
    FailoverDeadline(s, lease.accountId, SeverityOf(f), FailoverSeconds(f), c.now, c.incidentId, c.leaseOrder);
  }

  lemma HandledDeadline(s: Store, f: Failure, lease: Lease, c: Circumstances)
    requires MayHappen(s, f, lease, c)
    ensures Due(Handled(s, f, lease, c), lease.accountId, DeadlineAfter(s, f, lease, c.now))
  {
    if IsHit(f) {
      HandledHit(s, f, lease, c);
    } else if IsQuota(f) {
      HandledQuota(s, f, lease, c);
    } else if FailsOver(f) {
      HandledFailover(s, f, lease, c);
    }
  }

  // ---- When the account that failed can be selected again --------------------------------------------------

  /**
   * After any failure the account rests at time t exactly as told before it: until its own deadline if
   * the failure puts it to rest, as it did before if the failure is no business of the account's, and
   * not at all if it is spared for being alone.
   */
  lemma FailureRestsExactly(s: Store, f: Failure, lease: Lease, c: Circumstances, t: Time)
    requires MayHappen(s, f, lease, c)
    ensures SelectionTheorems.Resting(Handled(s, f, lease, c), lease.accountId, t)
       <==> RestsAt(s, f, lease, c.now, t)
  {
    HandledDeadline(s, f, lease, c);
  }

  /** Tenants, models and credentials are the same. */
  ghost predicate SamePool(s: Store, s': Store) {
    && s'.credentials == s.credentials && s'.accounts.Keys == s.accounts.Keys
    && forall k :: k in s.accounts ==>
         s'.accounts[k].tenantId == s.accounts[k].tenantId && s'.accounts[k].models == s.accounts[k].models
  }

  lemma RouteEventKeepsPool(s: Store, id: AccountId, mode: RouteMode, kind: string, now: Time, incidentId: string,
                            order: seq<PrincipalId>)
    ensures SamePool(s, RouteEventOutcome(s, id, mode, kind, now, incidentId, order).store)
  {
    if id in s.routeStates {
      var r0 := AfterReconcile(s.routeStates[id], now);
      if kind == CF_HIT {
        var r := AfterCfHit(r0, mode, now);
        PublishKeepsPool(s, id, r, Some(IncidentOf(s, id, r, Severity(r0, mode), incidentId, now)),
                         EventEvicts(s, id, mode, kind), order);
      } else if kind == SUCCESS {
        PublishKeepsPool(s, id, AfterSuccess(r0, now).(cooldownReason := None), None, false, []);
      }
    }
  }

  lemma FailoverKeepsPool(s: Store, id: AccountId, severity: string, seconds: int, now: Time, incidentId: string,
                          order: seq<PrincipalId>)
    ensures SamePool(s, FailoverOutcome(s, id, severity, seconds, now, incidentId, order).store)
  {
    if id in s.routeStates {
      var until := if Spared(s, id, severity) then None else Some(now + seconds * SECOND);
      var r := AfterFailover(s.routeStates[id], severity, until, now);
      PublishKeepsPool(s, id, r, Some(IncidentOf(s, id, r, severity, incidentId, now)), !Spared(s, id, severity),
                       order);
    }
  }

  lemma QuotaKeepsPool(s: Store, id: AccountId, resetAt: Option<Time>, message: Option<string>, now: Time,
                       incidentId: string, order: seq<PrincipalId>)
    ensures SamePool(s, QuotaOutcome(s, id, resetAt, message, now, incidentId, order).store)
  {
    if id in s.routeStates {
      var r := AfterQuotaMark(s.routeStates[id], resetAt.UnwrapOr(now + 30 * MINUTE), QuotaReason(message));
      PublishKeepsPool(s, id, r, Some(IncidentOf(s, id, r, QUOTA_EXHAUSTED, incidentId, now)), true, order);
    }
  }

  /** Who may serve is not touched by a route change. */
  lemma RouteStepKeepsPool(s: Store, op: Op)
    requires IsRouteChange(op)
    ensures SamePool(s, RouteStep(s, op).store)
  {
    match op {
      case RouteEvent(a, mode, kind, now, incidentId, order) =>
        RouteEventKeepsPool(s, a, mode, kind, now, incidentId, order);
      case FailOver(a, severity, seconds, now, incidentId, order) =>
        FailoverKeepsPool(s, a, severity, seconds, now, incidentId, order);
      case MarkQuota(a, resetAt, message, now, incidentId, order) =>
        QuotaKeepsPool(s, a, resetAt, message, now, incidentId, order);
    }
  }

  lemma PublishKeepsPool(s: Store, id: AccountId, r: RouteState, incident: Option<Incident>, evict: bool,
                         order: seq<PrincipalId>)
    ensures SamePool(s, PublishRoute(s, id, r, incident, evict, order).store)
  {
    var s' := PublishRoute(s, id, r, incident, evict, order).store;
    assert s'.credentials == s.credentials;
    if id in s.accounts {
      ModeKeepsPool(s, s', id, r.routeMode);
    }
  }

  lemma ModeKeepsPool(s: Store, s': Store, id: AccountId, mode: RouteMode)
    requires id in s.accounts && s'.credentials == s.credentials
    requires s'.accounts == s.accounts[id := s.accounts[id].(currentMode := mode)]
    ensures SamePool(s, s')
  {
  }

  /** The account that failed is eligible again exactly when it can serve and does not rest. */
  lemma EligibleAgainExactly(s: Store, f: Failure, lease: Lease, c: Circumstances,
                             req: Selection.Request, t: Time)
    requires MayHappen(s, f, lease, c)
    ensures SelectionTheorems.Eligible(Handled(s, f, lease, c), req, lease.accountId, t)
       <==> SelectionTheorems.CanServe(s, req, lease.accountId) && !RestsAt(s, f, lease, c.now, t)
  {
    FailureRestsExactly(s, f, lease, c, t);
    if Handle(f, lease, c).Some? {
      RouteStepKeepsPool(s, Handle(f, lease, c).value);
    }
  }

  /**
   * A retry does not go back to the account that just failed while it rests: no selection then yields
   * it, for this principal or any other, be it by reuse or by a fresh placement.
   */
  lemma RetryAvoidsFailedAccount(s: Store, f: Failure, lease: Lease, c: Circumstances, select: Op,
                                 w: World)
    requires MayHappen(s, f, lease, c)
    requires select.SelectLease? && Legal(Handled(s, f, lease, c), select)
    requires RestsAt(s, f, lease, c.now, select.now)
    ensures var s1 := Handled(s, f, lease, c);
      && Inv(s1)
      && var v := Selection.Resolve(s1, select.selection, select.now, select.routeOrder, select.accountOrder,
                                    w.rank).verdict;
         v.Selected? ==> v.lease.accountId != lease.accountId
  {
    var s1 := Handled(s, f, lease, c);
    HandledKeeps(s, f, lease, c);
    FailureRestsExactly(s, f, lease, c, select.now);
    var until := s1.routeStates[lease.accountId].cooldownUntil.value;
    LeaseSafety.RestingIsNotSelected(s1, select, w, lease.accountId, until);
  }

  lemma HandledKeeps(s: Store, f: Failure, lease: Lease, c: Circumstances)
    requires MayHappen(s, f, lease, c)
    ensures Replication.LeaderInv(Handled(s, f, lease, c))
  {
    if Handle(f, lease, c).Some? {
      Replication.RouteStepKeeps(s, Handle(f, lease, c).value);
    }
  }
}
