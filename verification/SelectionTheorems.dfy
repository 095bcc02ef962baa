/** Selection is sound, complete, exactly explained, and right about when to come back. */
module SelectionTheorems {
  import opened Prelude
  import opened Models
  import opened Bus
  import opened CfState
  import opened AccountOps
  import opened Selection
  import Router
  import Text

  /** The account belongs to the tenant, holds a usable credential and serves the model. */
  ghost predicate CanServe(s: Store, req: Request, id: AccountId) {
    id in s.accounts && s.accounts[id].tenantId == req.tenantId && Routable(s, id) && req.model in s.accounts[id].models
  }

  ghost predicate Resting(s: Store, id: AccountId, now: Time) {
    id in s.routeStates && InCooldown(s.routeStates[id], now)
  }

  ghost predicate RestingForQuota(s: Store, id: AccountId, now: Time) {
    id in s.routeStates && QuotaHeld(s.routeStates[id], now)
  }

  ghost predicate Eligible(s: Store, req: Request, id: AccountId, now: Time) {
    CanServe(s, req, id) && !Resting(s, id, now)
  }

  // ---- The filters and the tally, seen as sets ---------------------------------------------------

  ghost predicate AllListed(s: Store, accountOrder: seq<AccountId>) {
    Keyed(s) && Enumerates(accountOrder, s.accounts.Keys)
  }

  lemma ListedMembers(s: Store, accountOrder: seq<AccountId>)
    requires AllListed(s, accountOrder)
    ensures forall a :: a in Listed(s, accountOrder) <==> a.id in s.accounts && a == s.accounts[a.id]
    ensures Router.DistinctIds(Listed(s, accountOrder))
  {
    var all := Listed(s, accountOrder);
    forall a: Account | a.id in s.accounts && a == s.accounts[a.id]
      ensures a in all
    {
      assert a.id in accountOrder;
      var i :| 0 <= i < |accountOrder| && accountOrder[i] == a.id;
      assert all[i] == a;
    }
  }

  lemma {:induction false} FilterKeepsDistinct(keep: Account -> bool, s: seq<Account>)
    requires Router.DistinctIds(s)
    ensures Router.DistinctIds(Filter(keep, s))
  {
    if s != [] {
      FilterKeepsDistinct(keep, s[1..]);
      FilterMembers(keep, s[1..]);
      assert forall i :: 1 <= i < |s| ==> s[1..][i - 1] == s[i];
      assert forall a :: a in s[1..] ==> a.id != s[0].id;
    }
  }

  lemma PoolMembers(s: Store, req: Request, accountOrder: seq<AccountId>)
    requires AllListed(s, accountOrder)
    ensures forall a :: (a in RoutableAccounts(s, req, Listed(s, accountOrder)) <==>
      a.id in s.accounts && a == s.accounts[a.id] && a.tenantId == req.tenantId && Routable(s, a.id))
    ensures forall a :: (a in ModelAccounts(s, req, Listed(s, accountOrder)) <==>
      CanServe(s, req, a.id) && a == s.accounts[a.id])
    ensures Router.DistinctIds(ModelAccounts(s, req, Listed(s, accountOrder)))
  {
    ListedMembers(s, accountOrder);
    var all := Listed(s, accountOrder);
    FilterMembers((a: Account) => a.tenantId == req.tenantId, all);
    FilterMembers((a: Account) => Routable(s, a.id), TenantAccounts(req, all));
    FilterMembers((a: Account) => req.model in a.models, RoutableAccounts(s, req, all));
    FilterKeepsDistinct((a: Account) => a.tenantId == req.tenantId, all);
    FilterKeepsDistinct((a: Account) => Routable(s, a.id), TenantAccounts(req, all));
    FilterKeepsDistinct((a: Account) => req.model in a.models, RoutableAccounts(s, req, all));
  }

  ghost predicate RestsIn(a: Account, routes: map<AccountId, RouteState>, now: Time) {
    a.id in routes && InCooldown(routes[a.id], now)
  }

  ghost predicate HeldIn(a: Account, routes: map<AccountId, RouteState>, now: Time) {
    a.id in routes && QuotaHeld(routes[a.id], now)
  }

  /** `t` is when the first of the accounts singled out by `held` is due back, if any is held. */
  ghost predicate IsEarliest(t: Option<Time>, accounts: seq<Account>, held: Account -> bool,
                             routes: map<AccountId, RouteState>) {
    && (t.None? <==> forall a :: a in accounts ==> !held(a))
    && (t.Some? ==>
          && (exists a :: a in accounts && held(a) && a.id in routes && routes[a.id].cooldownUntil == t)
          && (forall a :: a in accounts && held(a) && a.id in routes && routes[a.id].cooldownUntil.Some?
                ==> t.value <= routes[a.id].cooldownUntil.value))
  }

  ghost predicate TallyIsRight(t: Tally, accounts: seq<Account>, routes: map<AccountId, RouteState>, now: Time) {
    && (forall a :: a in t.candidates <==> a in accounts && !RestsIn(a, routes, now))
    && t.quota + t.cooling + |t.candidates| == |accounts|
    && (t.quota == |accounts| <==> forall a :: a in accounts ==> HeldIn(a, routes, now))
    && (t.cooling > 0 <==> exists a :: a in accounts && RestsIn(a, routes, now) && !HeldIn(a, routes, now))
    && IsEarliest(t.resetAt, accounts, (a: Account) => HeldIn(a, routes, now), routes)
    && IsEarliest(t.retryAt, accounts, (a: Account) => RestsIn(a, routes, now), routes)
  }

  lemma EarlierStep(t: Option<Time>, accounts: seq<Account>, last: Account, held: Account -> bool,
                    routes: map<AccountId, RouteState>)
    requires IsEarliest(t, accounts, held, routes)
    requires held(last) ==> last.id in routes && routes[last.id].cooldownUntil.Some?
    ensures IsEarliest(if held(last) then Earlier(t, routes[last.id].cooldownUntil) else t, accounts + [last], held,
                       routes)
  {
    var t' := if held(last) then Earlier(t, routes[last.id].cooldownUntil) else t;
    assert last in accounts + [last];
    assert forall a :: a in accounts + [last] <==> a in accounts || a == last;
    if t'.Some? {
      if held(last) && (t.None? || routes[last.id].cooldownUntil.value <= t.value) {
        assert held(last) && routes[last.id].cooldownUntil == t';
      } else {
        var a :| a in accounts && held(a) && a.id in routes && routes[a.id].cooldownUntil == t;
        assert a in accounts + [last];
      }
    }
  }

  lemma {:induction false} TallyRight(accounts: seq<Account>, routes: map<AccountId, RouteState>, now: Time)
    ensures TallyIsRight(TallyOf(accounts, routes, now), accounts, routes, now)
  {
    if accounts != [] {
      var before, last := accounts[..|accounts| - 1], accounts[|accounts| - 1];
      assert accounts == before + [last];
      TallyRight(before, routes, now);
      var t := TallyOf(before, routes, now);
      EarlierStep(t.resetAt, before, last, (a: Account) => HeldIn(a, routes, now), routes);
      EarlierStep(t.retryAt, before, last, (a: Account) => RestsIn(a, routes, now), routes);
      TallyStep(t, before, last, routes, now);
    }
  }

  lemma TallyStep(t: Tally, before: seq<Account>, last: Account, routes: map<AccountId, RouteState>, now: Time)
    requires TallyIsRight(t, before, routes, now)
    ensures var t' := Note(t, last, routes, now);
      && (forall a :: a in t'.candidates <==> a in before + [last] && !RestsIn(a, routes, now))
      && t'.quota + t'.cooling + |t'.candidates| == |before| + 1
      && (t'.quota == |before| + 1 <==> forall a :: a in before + [last] ==> HeldIn(a, routes, now))
      && (t'.cooling > 0 <==> exists a :: a in before + [last] && RestsIn(a, routes, now) && !HeldIn(a, routes, now))
  {
    assert last in before + [last];
    assert forall a :: a in before + [last] <==> a in before || a == last;
  }

  // ---- When selection gives up, and what it says then ------------------------------------------------

  lemma CandidateMembers(s: Store, req: Request, now: Time, accountOrder: seq<AccountId>)
    requires AllListed(s, accountOrder)
    ensures forall a ::
      a in Candidates(s, req, now, accountOrder) <==> Eligible(s, req, a.id, now) && a == s.accounts[a.id]
  {
    PoolMembers(s, req, accountOrder);
    TallyRight(ModelAccounts(s, req, Listed(s, accountOrder)), s.routeStates, now);
  }

  /** Exhaustion happens exactly when no lease can be reused and no account is eligible. */
  lemma ExhaustedExactly(s: Store, req: Request, now: Time, accountOrder: seq<AccountId>, rank: Router.Rank)
    requires AllListed(s, accountOrder)
    ensures VerdictOf(s, req, now, accountOrder, rank).Exhausted?
       <==> !Reusable(s, req, now) && forall id :: !Eligible(s, req, id, now)
  {
    CandidateMembers(s, req, now, accountOrder);
    var candidates := Candidates(s, req, now, accountOrder);
    NonemptyHas(candidates);
    forall id | Eligible(s, req, id, now)
      ensures s.accounts[id] in candidates
    {
    }
  }

  /** The one kind that describes the pool, defined without counting. */
  ghost predicate Explains(kind: ExhaustedKind, s: Store, req: Request, now: Time) {
    match kind
    case Unavailable => forall id :: id in s.accounts && s.accounts[id].tenantId == req.tenantId ==> !Routable(s, id)
    case Capability =>
      && (exists id :: id in s.accounts && s.accounts[id].tenantId == req.tenantId && Routable(s, id))
      && (forall id :: !CanServe(s, req, id))
    case QuotaExhausted =>
      (exists id :: CanServe(s, req, id)) && forall id :: CanServe(s, req, id) ==> RestingForQuota(s, id, now)
    case Cooldown =>
      && (exists id :: CanServe(s, req, id) && !RestingForQuota(s, id, now))
      && (forall id :: CanServe(s, req, id) ==> Resting(s, id, now))
  }

  lemma PoolFacts(s: Store, req: Request, now: Time, matching: seq<Account>, t: Tally)
    requires Keyed(s) && TallyIsRight(t, matching, s.routeStates, now)
    requires forall a :: (a in matching <==> CanServe(s, req, a.id) && a == s.accounts[a.id])
    ensures matching == [] <==> forall id :: !CanServe(s, req, id)
    ensures t.quota == |matching| <==> forall id :: CanServe(s, req, id) ==> RestingForQuota(s, id, now)
    ensures t.cooling > 0 <==> exists id :: CanServe(s, req, id) && Resting(s, id, now) && !RestingForQuota(s, id, now)
    ensures t.candidates == [] <==> forall id :: !Eligible(s, req, id, now)
  {
    NonemptyHas(matching);
    NonemptyHas(t.candidates);
    forall id | CanServe(s, req, id)
      ensures s.accounts[id] in matching && s.accounts[id].id == id
    {
    }
    forall id | Eligible(s, req, id, now)
      ensures s.accounts[id] in t.candidates
    {
    }
    assert t.candidates != [] ==> Eligible(s, req, t.candidates[0].id, now);
  }

  lemma RoutableFacts(s: Store, req: Request, routable: seq<Account>)
    requires Keyed(s)
    requires forall a :: (a in routable <==>
      a.id in s.accounts && a == s.accounts[a.id] && a.tenantId == req.tenantId && Routable(s, a.id))
    ensures routable == [] <==>
      forall id :: id in s.accounts && s.accounts[id].tenantId == req.tenantId ==> !Routable(s, id)
  {
    NonemptyHas(routable);
    forall id | id in s.accounts && s.accounts[id].tenantId == req.tenantId && Routable(s, id)
      ensures s.accounts[id] in routable
    {
    }
  }

  lemma NonemptyHas<T>(s: seq<T>)
    ensures s != [] ==> s[0] in s
  {
  }

  /**
   * The reported kind is the only one that describes the pool. In particular the two spare branches
   * that would answer Unavailable for a pool with serving accounts are never taken.
   */
  lemma ExplainedExactly(s: Store, req: Request, now: Time, accountOrder: seq<AccountId>, kind: ExhaustedKind)
    requires AllListed(s, accountOrder)
    requires forall id :: !Eligible(s, req, id, now)
    ensures Explains(kind, s, req, now) <==> kind == Exhausting(s, req, now, accountOrder).kind
  {
    var all := Listed(s, accountOrder);
    var matching := ModelAccounts(s, req, all);
    PoolMembers(s, req, accountOrder);
    TallyRight(matching, s.routeStates, now);
    var t := TallyOf(matching, s.routeStates, now);
    PoolFacts(s, req, now, matching, t);
    RoutableFacts(s, req, RoutableAccounts(s, req, all));
    forall id | CanServe(s, req, id)
      ensures Resting(s, id, now)
    {
      assert !Eligible(s, req, id, now);
    }
    KindsAreExclusive(s, req, now, kind, matching == [], RoutableAccounts(s, req, all) == [], t.quota == |matching|);
  }

  lemma KindsAreExclusive(s: Store, req: Request, now: Time, kind: ExhaustedKind, noneServes: bool, noneRoutable: bool,
                          allForQuota: bool)
    requires noneServes <==> forall id :: !CanServe(s, req, id)
    requires noneRoutable <==>
      forall id :: id in s.accounts && s.accounts[id].tenantId == req.tenantId ==> !Routable(s, id)
    requires allForQuota <==> forall id :: CanServe(s, req, id) ==> RestingForQuota(s, id, now)
    requires forall id :: CanServe(s, req, id) ==> Resting(s, id, now)
    ensures Explains(kind, s, req, now) <==>
      kind == if noneServes then (if noneRoutable then ExhaustedKind.Unavailable else Capability)
              else if allForQuota then QuotaExhausted else Cooldown
  {
    assert forall id :: CanServe(s, req, id) ==>
      id in s.accounts && s.accounts[id].tenantId == req.tenantId && Routable(s, id);
  }

  /** Nothing is counted twice and nothing is forgotten. */
  lemma CountsAddUp(s: Store, req: Request, now: Time, accountOrder: seq<AccountId>)
    requires AllListed(s, accountOrder)
    ensures var why := Exhausting(s, req, now, accountOrder);
      && why.quota + why.cooldown + |Candidates(s, req, now, accountOrder)| == |why.attempted|
      && |why.attempted| + why.capability + why.unavailable == |TenantAccounts(req, Listed(s, accountOrder))|
  {
    TallyRight(ModelAccounts(s, req, Listed(s, accountOrder)), s.routeStates, now);
  }

  /** A freshly placed lease names an eligible account of the right tenant. */
  lemma FreshPlacementIsSound(s: Store, req: Request, now: Time, accountOrder: seq<AccountId>, rank: Router.Rank)
    requires Inv(s) && AllListed(s, accountOrder)
    requires !Reusable(s, req, now) && VerdictOf(s, req, now, accountOrder, rank).Selected?
    ensures var lease := VerdictOf(s, req, now, accountOrder, rank).lease;
      && Eligible(s, req, lease.accountId, now)
      && lease.principalId == req.principalId && lease.tenantId == req.tenantId && lease.model == req.model
      && lease.accountLabel == s.accounts[lease.accountId].displayLabel
      && lease.routeMode == s.routeStates[lease.accountId].routeMode
  {
    var candidates := Candidates(s, req, now, accountOrder);
    var placed := PlacedAccount(s, req, now, accountOrder, rank);
    assert placed == Placed(s, req, candidates, rank);
    assert VerdictOf(s, req, now, accountOrder, rank).lease == FreshLease(s, req, now, placed);
  }

  lemma PlacedAccount(s: Store, req: Request, now: Time, accountOrder: seq<AccountId>, rank: Router.Rank)
      returns (placed: Account)
    requires Inv(s) && AllListed(s, accountOrder)
    requires Candidates(s, req, now, accountOrder) != []
    ensures placed == Placed(s, req, Candidates(s, req, now, accountOrder), rank)
    ensures Eligible(s, req, placed.id, now) && placed == s.accounts[placed.id] && placed.id in s.routeStates
  {
    var candidates := Candidates(s, req, now, accountOrder);
    CandidateMembers(s, req, now, accountOrder);
    placed := Placed(s, req, candidates, rank);
    assert forall a :: a in candidates ==> Eligible(s, req, a.id, now);
    PlacedIsBest(s, req, candidates, rank);
  }

  /** When every account has a route state the fallback to the first label is never needed. */
  lemma PlacedIsBest(s: Store, req: Request, candidates: seq<Account>, rank: Router.Rank)
    requires candidates != [] && forall a :: a in candidates ==> a.id in s.routeStates
    ensures var dual := Router.DualCandidates(req.placementAffinityKey, req.model, candidates, rank);
      var placed := Placed(s, req, candidates, rank);
      && placed in dual && placed in candidates
      && forall a :: a in dual ==>
           a.id in s.routeStates &&
           Router.ScoreCandidate(a, s.routeStates[a.id], ExistingLease(s, req))
           <= Router.ScoreCandidate(placed, s.routeStates[placed.id], ExistingLease(s, req))
  {
    var dual := Router.DualCandidates(req.placementAffinityKey, req.model, candidates, rank);
    FilterMembers((a: Account) => a.id in s.routeStates, dual);
    NonemptyHas(dual);
  }

  /**
   * The verdict does not depend on the order the account table is read in: neither what is reported when
   * the pool is exhausted, nor, with no rendezvous ties, where a fresh lease is placed.
   */
  lemma VerdictIgnoresListingOrder(
      s: Store, req: Request, now: Time, accountOrder: seq<AccountId>, accountOrder': seq<AccountId>, rank: Router.Rank)
    requires Inv(s) && AllListed(s, accountOrder) && AllListed(s, accountOrder')
    requires VerdictOf(s, req, now, accountOrder, rank).Selected? && !Reusable(s, req, now) ==>
      Router.NoTies(req.placementAffinityKey, req.model, Candidates(s, req, now, accountOrder), rank)
    ensures var v, v' := VerdictOf(s, req, now, accountOrder, rank), VerdictOf(s, req, now, accountOrder', rank);
      if v.Selected? then v' == v else v'.Exhausted? && SameReport(v.why, v'.why)
  {
    ExhaustedExactly(s, req, now, accountOrder, rank);
    ExhaustedExactly(s, req, now, accountOrder', rank);
    if Reusable(s, req, now) {
      assert VerdictOf(s, req, now, accountOrder', rank) == VerdictOf(s, req, now, accountOrder, rank);
    } else if VerdictOf(s, req, now, accountOrder, rank).Selected? {
      PlacementIgnoresListingOrder(s, req, now, accountOrder, accountOrder', rank);
    } else {
      SameExhausting(s, req, now, accountOrder, accountOrder');
    }
  }

  /** Two reports that tell the same, but for the order in which they list the attempted accounts. */
  ghost predicate SameReport(why: Exhaustion, why': Exhaustion) {
    && why' == why.(attempted := why'.attempted)
    && |why'.attempted| == |why.attempted| && forall id :: id in why.attempted <==> id in why'.attempted
  }

  /** The same accounts, each once, in whatever order. */
  ghost predicate SamePool(a: seq<Account>, b: seq<Account>) {
    Router.DistinctIds(a) && Router.DistinctIds(b) && forall x :: x in a <==> x in b
  }

  lemma PoolsAreAlike(a: seq<Account>, b: seq<Account>)
    requires SamePool(a, b)
    ensures |a| == |b|
  {
    SameMembers(a, b);
    Router.SameLength(a, b);
  }

  lemma FilteredAlike(keep: Account -> bool, a: seq<Account>, b: seq<Account>)
    requires SamePool(a, b)
    ensures SamePool(Filter(keep, a), Filter(keep, b))
  {
    FilterMembers(keep, a);
    FilterMembers(keep, b);
    FilterKeepsDistinct(keep, a);
    FilterKeepsDistinct(keep, b);
  }

  /** The accounts a tally counts as held for quota, and those it counts as merely cooling. */
  function Held(accounts: seq<Account>, routes: map<AccountId, RouteState>, now: Time): seq<Account> {
    Filter((a: Account) => a.id in routes && QuotaHeld(routes[a.id], now), accounts)
  }

  function Cooling(accounts: seq<Account>, routes: map<AccountId, RouteState>, now: Time): seq<Account> {
    Filter((a: Account) => a.id in routes && InCooldown(routes[a.id], now) && !QuotaHeld(routes[a.id], now), accounts)
  }

  lemma {:induction false} TallyCounts(accounts: seq<Account>, routes: map<AccountId, RouteState>, now: Time)
    ensures var t := TallyOf(accounts, routes, now);
      t.quota == |Held(accounts, routes, now)| && t.cooling == |Cooling(accounts, routes, now)|
  {
    if accounts != [] {
      var before, last := accounts[..|accounts| - 1], accounts[|accounts| - 1];
      assert accounts == before + [last];
      TallyCounts(before, routes, now);
      FilterConcat((a: Account) => a.id in routes && QuotaHeld(routes[a.id], now), before, [last]);
      FilterConcat((a: Account) => a.id in routes && InCooldown(routes[a.id], now) && !QuotaHeld(routes[a.id], now),
                   before, [last]);
      assert [last][1..] == [];
    }
  }

  /** There is only one earliest deadline. */
  lemma EarliestIsUnique(t: Option<Time>, t': Option<Time>, a: seq<Account>, b: seq<Account>, held: Account -> bool,
                         routes: map<AccountId, RouteState>)
    requires IsEarliest(t, a, held, routes) && IsEarliest(t', b, held, routes) && forall x :: x in a <==> x in b
    ensures t == t'
  {
  }

  lemma TalliedAlike(a: seq<Account>, b: seq<Account>, routes: map<AccountId, RouteState>, now: Time)
    requires SamePool(a, b)
    ensures var t, t' := TallyOf(a, routes, now), TallyOf(b, routes, now);
      t'.quota == t.quota && t'.cooling == t.cooling && t'.resetAt == t.resetAt && t'.retryAt == t.retryAt
  {
    TallyCounts(a, routes, now);
    TallyCounts(b, routes, now);
    FilteredAlike((x: Account) => x.id in routes && QuotaHeld(routes[x.id], now), a, b);
    FilteredAlike((x: Account) => x.id in routes && InCooldown(routes[x.id], now) && !QuotaHeld(routes[x.id], now),
                  a, b);
    PoolsAreAlike(Held(a, routes, now), Held(b, routes, now));
    PoolsAreAlike(Cooling(a, routes, now), Cooling(b, routes, now));
    TallyRight(a, routes, now);
    TallyRight(b, routes, now);
    var t, t' := TallyOf(a, routes, now), TallyOf(b, routes, now);
    EarliestIsUnique(t.resetAt, t'.resetAt, a, b, (x: Account) => HeldIn(x, routes, now), routes);
    EarliestIsUnique(t.retryAt, t'.retryAt, a, b, (x: Account) => RestsIn(x, routes, now), routes);
  }

  lemma ListedAlike(s: Store, req: Request, accountOrder: seq<AccountId>, accountOrder': seq<AccountId>)
    requires AllListed(s, accountOrder) && AllListed(s, accountOrder')
    ensures var a, b := Listed(s, accountOrder), Listed(s, accountOrder');
      && SamePool(TenantAccounts(req, a), TenantAccounts(req, b))
      && SamePool(RoutableAccounts(s, req, a), RoutableAccounts(s, req, b))
      && SamePool(ModelAccounts(s, req, a), ModelAccounts(s, req, b))
  {
    ListedMembers(s, accountOrder);
    ListedMembers(s, accountOrder');
    var a, b := Listed(s, accountOrder), Listed(s, accountOrder');
    FilteredAlike((x: Account) => x.tenantId == req.tenantId, a, b);
    FilteredAlike((x: Account) => Routable(s, x.id), TenantAccounts(req, a), TenantAccounts(req, b));
    FilteredAlike((x: Account) => req.model in x.models, RoutableAccounts(s, req, a), RoutableAccounts(s, req, b));
  }

  lemma SameExhausting(s: Store, req: Request, now: Time, accountOrder: seq<AccountId>, accountOrder': seq<AccountId>)
    requires AllListed(s, accountOrder) && AllListed(s, accountOrder')
    ensures SameReport(Exhausting(s, req, now, accountOrder), Exhausting(s, req, now, accountOrder'))
  {
    var a, b := Listed(s, accountOrder), Listed(s, accountOrder');
    ListedAlike(s, req, accountOrder, accountOrder');
    PoolsAreAlike(TenantAccounts(req, a), TenantAccounts(req, b));
    PoolsAreAlike(RoutableAccounts(s, req, a), RoutableAccounts(s, req, b));
    PoolsAreAlike(ModelAccounts(s, req, a), ModelAccounts(s, req, b));
    TalliedAlike(ModelAccounts(s, req, a), ModelAccounts(s, req, b), s.routeStates, now);
    SameIds(ModelAccounts(s, req, a), ModelAccounts(s, req, b));
  }

  lemma SameIds(a: seq<Account>, b: seq<Account>)
    requires SamePool(a, b)
    ensures var ids := seq(|a|, i requires 0 <= i < |a| => a[i].id);
      var ids' := seq(|b|, i requires 0 <= i < |b| => b[i].id);
      forall id :: id in ids <==> id in ids'
  {
    IdsAmong(a, b);
    IdsAmong(b, a);
  }

  lemma IdsAmong(a: seq<Account>, b: seq<Account>)
    requires forall x :: x in a ==> x in b
    ensures var ids := seq(|a|, i requires 0 <= i < |a| => a[i].id);
      var ids' := seq(|b|, i requires 0 <= i < |b| => b[i].id);
      forall id :: id in ids ==> id in ids'
  {
    var ids := seq(|a|, i requires 0 <= i < |a| => a[i].id);
    var ids' := seq(|b|, i requires 0 <= i < |b| => b[i].id);
    forall id | id in ids
      ensures id in ids'
    {
      var i :| 0 <= i < |ids| && ids[i] == id;
      assert a[i] in b;
      var j :| 0 <= j < |b| && b[j] == a[i];
      assert ids'[j] == id;
    }
  }

  lemma PlacementIgnoresListingOrder(
      s: Store, req: Request, now: Time, accountOrder: seq<AccountId>, accountOrder': seq<AccountId>, rank: Router.Rank)
    requires Inv(s) && AllListed(s, accountOrder) && AllListed(s, accountOrder')
    requires Router.NoTies(req.placementAffinityKey, req.model, Candidates(s, req, now, accountOrder), rank)
    requires VerdictOf(s, req, now, accountOrder, rank).Selected?
    ensures VerdictOf(s, req, now, accountOrder', rank) == VerdictOf(s, req, now, accountOrder, rank)
  {
    ExhaustedExactly(s, req, now, accountOrder, rank);
    ExhaustedExactly(s, req, now, accountOrder', rank);
    var c, c' := Candidates(s, req, now, accountOrder), Candidates(s, req, now, accountOrder');
    SameCandidates(s, req, now, accountOrder, accountOrder');
    Router.OrderIndependent(req.placementAffinityKey, req.model, c, c', rank);
    if c != [] {
      CandidatesPlaceable(s, req, now, accountOrder);
      var dual := Router.DualCandidates(req.placementAffinityKey, req.model, c, rank);
      NonemptyHas(dual);
      FilterMembers((a: Account) => a.id in s.routeStates, dual);
    }
  }

  lemma SameCandidates(s: Store, req: Request, now: Time, accountOrder: seq<AccountId>, accountOrder': seq<AccountId>)
    requires AllListed(s, accountOrder) && AllListed(s, accountOrder')
    ensures var c, c' := Candidates(s, req, now, accountOrder), Candidates(s, req, now, accountOrder');
      && Router.Members(c) == Router.Members(c') && (c == [] <==> c' == [])
      && Router.DistinctIds(c) && Router.DistinctIds(c')
  {
    CandidatesDistinct(s, req, now, accountOrder);
    CandidatesDistinct(s, req, now, accountOrder');
    CandidateMembers(s, req, now, accountOrder);
    CandidateMembers(s, req, now, accountOrder');
    SameMembers(Candidates(s, req, now, accountOrder), Candidates(s, req, now, accountOrder'));
  }

  lemma SameMembers(c: seq<Account>, c': seq<Account>)
    requires forall a :: a in c <==> a in c'
    ensures Router.Members(c) == Router.Members(c') && (c == [] <==> c' == [])
  {
    NonemptyHas(c);
    NonemptyHas(c');
  }

  lemma CandidatesPlaceable(s: Store, req: Request, now: Time, accountOrder: seq<AccountId>)
    requires Inv(s) && AllListed(s, accountOrder)
    ensures forall a :: a in Candidates(s, req, now, accountOrder) ==> a.id in s.routeStates
  {
    CandidateMembers(s, req, now, accountOrder);
    forall a | a in Candidates(s, req, now, accountOrder)
      ensures a.id in s.routeStates
    {
      assert Eligible(s, req, a.id, now);
    }
  }

  lemma CandidatesDistinct(s: Store, req: Request, now: Time, accountOrder: seq<AccountId>)
    requires AllListed(s, accountOrder)
    ensures Router.DistinctIds(Candidates(s, req, now, accountOrder))
  {
    PoolMembers(s, req, accountOrder);
    var matching := ModelAccounts(s, req, Listed(s, accountOrder));
    TallyDistinct(matching, s.routeStates, now);
    SortDistinct(TallyOf(matching, s.routeStates, now).candidates);
  }

  lemma {:induction false} TallyDistinct(accounts: seq<Account>, routes: map<AccountId, RouteState>, now: Time)
    requires Router.DistinctIds(accounts)
    ensures Router.DistinctIds(TallyOf(accounts, routes, now).candidates)
  {
    if accounts != [] {
      var before, last := accounts[..|accounts| - 1], accounts[|accounts| - 1];
      TallyDistinct(before, routes, now);
      TallyRight(before, routes, now);
      assert forall a :: a in before ==> a.id != last.id;
    }
  }

  lemma ConsDistinct(x: Account, s: seq<Account>)
    requires Router.DistinctIds(s) && forall a :: a in s ==> a.id != x.id
    ensures Router.DistinctIds([x] + s)
  {
    assert forall i :: 1 <= i < |s| + 1 ==> ([x] + s)[i] == s[i - 1];
  }

  lemma {:induction false} InsertDistinct(x: Account, s: seq<Account>)
    requires Router.DistinctIds(s) && forall a :: a in s ==> a.id != x.id
    ensures Router.DistinctIds(InsertByLabel(x, s))
    ensures forall a :: a in InsertByLabel(x, s) <==> a in s || a == x
  {
    if s == [] || Text.LexLeq(x.displayLabel, s[0].displayLabel) {
      ConsDistinct(x, s);
    } else {
      assert s == [s[0]] + s[1..];
      assert forall i :: 1 <= i < |s| ==> s[1..][i - 1] == s[i];
      assert forall a :: a in s[1..] ==> a in s && a.id != s[0].id;
      InsertDistinct(x, s[1..]);
      ConsDistinct(s[0], InsertByLabel(x, s[1..]));
    }
  }

  lemma {:induction false} SortDistinct(s: seq<Account>)
    requires Router.DistinctIds(s)
    ensures Router.DistinctIds(SortByLabel(s))
  {
    if s != [] {
      assert forall i :: 1 <= i < |s| ==> s[1..][i - 1] == s[i];
      assert forall a :: a in s[1..] ==> a.id != s[0].id;
      SortDistinct(s[1..]);
      InsertDistinct(s[0], SortByLabel(s[1..]));
    }
  }

  /** A reused lease keeps its account and generation, and that account is not resting. */
  lemma ReuseIsSound(s: Store, req: Request, now: Time, accountOrder: seq<AccountId>, rank: Router.Rank)
    requires Inv(s) && AllListed(s, accountOrder) && Reusable(s, req, now)
    ensures var v, before := VerdictOf(s, req, now, accountOrder, rank), s.leases[req.principalId];
      && v.Selected?
      && v.lease == before.(lastUsedAt := now, activeSubagents := req.subagentCount,
                            routeMode := s.routeStates[before.accountId].routeMode)
      && Routable(s, v.lease.accountId) && !Resting(s, v.lease.accountId, now)
      && req.model in s.accounts[v.lease.accountId].models
  {
  }

  // ---- When to come back -------------------------------------------------------------------------------

  lemma ReconcilingKeepsInv(s: Store, now: Time)
    requires Inv(s)
    ensures Inv(Reconciled(s, now))
    ensures Reconciled(s, now).accounts.Keys == s.accounts.Keys
  {
    var s1 := Reconciled(s, now);
    assert s1.accounts.Keys == s.accounts.Keys;
    assert s1.routeStates.Keys == s.routeStates.Keys;
    forall k | k in s1.routeStates
      ensures RouteInv(s1.routeStates[k]) && s1.routeStates[k].accountId == k
    {
      assert RouteInv(s.routeStates[k]);
    }
    forall k | k in s1.accounts
      ensures s1.accounts[k].id == k && s1.accounts[k].tenantId == s.accounts[k].tenantId
    {
    }
  }

  lemma ReconcilingKeepsThePool(s: Store, req: Request, now: Time, later: Time)
    ensures var s1 := Reconciled(s, now);
      && (forall id :: CanServe(s1, req, id) <==> CanServe(s, req, id))
      && (forall id :: Resting(s1, id, later) <==> Resting(s, id, later))
  {
    var s1 := Reconciled(s, now);
    forall id
      ensures CanServe(s1, req, id) <==> CanServe(s, req, id)
      ensures Resting(s1, id, later) <==> Resting(s, id, later)
    {
      assert id in s1.accounts <==> id in s.accounts;
      assert id in s1.routeStates <==> id in s.routeStates;
    }
  }

  /** `t` lies ahead and is the least of the deadlines of all serving accounts. */
  ghost predicate IsRetryTime(s: Store, req: Request, now: Time, t: Option<Time>) {
    && t.Some? && t.value > now
    && (exists id :: CanServe(s, req, id) && id in s.routeStates && s.routeStates[id].cooldownUntil == t)
    && (forall id :: CanServe(s, req, id) ==>
          && id in s.routeStates && s.routeStates[id].cooldownUntil.Some?
          && t.value <= s.routeStates[id].cooldownUntil.value)
  }

  /** The earliest retry is the least deadline of all serving accounts, lies ahead, and precedes any quota reset. */
  lemma RetryTimeIsLeast(s: Store, req: Request, now: Time, accountOrder: seq<AccountId>)
    requires AllListed(s, accountOrder)
    requires forall id :: !Eligible(s, req, id, now)
    requires exists id :: CanServe(s, req, id)
    ensures var why := Exhausting(s, req, now, accountOrder);
      && IsRetryTime(s, req, now, why.earliestRetryAt)
      && (why.earliestResetAt.Some? ==> why.earliestRetryAt.value <= why.earliestResetAt.value)
  {
    var matching := ModelAccounts(s, req, Listed(s, accountOrder));
    PoolMembers(s, req, accountOrder);
    TallyRight(matching, s.routeStates, now);
    TallyDue(s, req, now, matching, TallyOf(matching, s.routeStates, now));
  }

  lemma TallyDue(s: Store, req: Request, now: Time, matching: seq<Account>, t: Tally)
    requires Keyed(s) && TallyIsRight(t, matching, s.routeStates, now)
    requires forall a :: (a in matching <==> CanServe(s, req, a.id) && a == s.accounts[a.id])
    requires forall id :: !Eligible(s, req, id, now)
    requires exists id :: CanServe(s, req, id)
    ensures IsRetryTime(s, req, now, t.retryAt)
    ensures t.resetAt.Some? ==> t.retryAt.value <= t.resetAt.value
  {
    forall id | CanServe(s, req, id)
      ensures s.accounts[id] in matching && RestsIn(s.accounts[id], s.routeStates, now)
    {
      assert !Eligible(s, req, id, now);
    }
    var a :| a in matching && RestsIn(a, s.routeStates, now) && s.routeStates[a.id].cooldownUntil == t.retryAt;
    assert CanServe(s, req, a.id);
  }

  /** Asking again at that instant, on otherwise unchanged state, succeeds. */
  lemma RetryingThenSucceeds(
      s: Store, req: Request, now: Time, routeOrder: seq<AccountId>, accountOrder: seq<AccountId>,
      routeOrder': seq<AccountId>, accountOrder': seq<AccountId>, rank: Router.Rank)
    requires Inv(s) && Enumerates(accountOrder, s.accounts.Keys) && Enumerates(accountOrder', s.accounts.Keys)
    requires var v := Resolve(s, req, now, routeOrder, accountOrder, rank).verdict;
      v.Exhausted? && v.why.kind in {QuotaExhausted, Cooldown}
    ensures var first := Resolve(s, req, now, routeOrder, accountOrder, rank);
      && first.verdict.why.earliestRetryAt.Some?
      && first.outcome.store.accounts.Keys == s.accounts.Keys == first.outcome.store.routeStates.Keys
      && var t := first.verdict.why.earliestRetryAt.value;
         Resolve(first.outcome.store, req, t, routeOrder', accountOrder', rank).verdict.Selected?
  {
    var s1 := Reconciled(s, now);
    ReconcilingKeepsInv(s, now);
    ExhaustionWritesNothing(s, req, now, routeOrder, accountOrder, rank);
    SomeoneIsDue(s1, req, now, accountOrder, rank);
    DueThenSelected(s1, req, Exhausting(s1, req, now, accountOrder).earliestRetryAt.value, routeOrder', accountOrder',
                    rank);
  }

  lemma ExhaustionWritesNothing(
      s: Store, req: Request, now: Time, routeOrder: seq<AccountId>, accountOrder: seq<AccountId>, rank: Router.Rank)
    requires s.accounts.Keys == s.routeStates.Keys
    requires forall k :: k in accountOrder ==> k in s.accounts
    requires Resolve(s, req, now, routeOrder, accountOrder, rank).verdict.Exhausted?
    ensures var s1, r := Reconciled(s, now), Resolve(s, req, now, routeOrder, accountOrder, rank);
      && r.outcome.store == s1 && r.verdict == VerdictOf(s1, req, now, accountOrder, rank)
      && r.verdict.why == Exhausting(s1, req, now, accountOrder)
  {
  }

  lemma SomeoneIsDue(s: Store, req: Request, now: Time, accountOrder: seq<AccountId>, rank: Router.Rank)
    requires AllListed(s, accountOrder)
    requires var v := VerdictOf(s, req, now, accountOrder, rank);
      v.Exhausted? && v.why.kind in {QuotaExhausted, Cooldown}
    ensures IsRetryTime(s, req, now, Exhausting(s, req, now, accountOrder).earliestRetryAt)
  {
    ExhaustedExactly(s, req, now, accountOrder, rank);
    ExplainedExactly(s, req, now, accountOrder, Exhausting(s, req, now, accountOrder).kind);
    assert exists id :: CanServe(s, req, id);
    RetryTimeIsLeast(s, req, now, accountOrder);
  }

  lemma DueThenSelected(s: Store, req: Request, t: Time, routeOrder: seq<AccountId>, accountOrder: seq<AccountId>,
                        rank: Router.Rank)
    requires Inv(s) && Enumerates(accountOrder, s.accounts.Keys)
    requires exists id :: CanServe(s, req, id) && id in s.routeStates && s.routeStates[id].cooldownUntil == Some(t)
    ensures Resolve(s, req, t, routeOrder, accountOrder, rank).verdict.Selected?
  {
    var id :| CanServe(s, req, id) && id in s.routeStates && s.routeStates[id].cooldownUntil == Some(t);
    var s1 := Reconciled(s, t);
    ReconcilingKeepsInv(s, t);
    ReconcilingKeepsThePool(s, req, t, t);
    assert Eligible(s1, req, id, t);
    ExhaustedExactly(s1, req, t, accountOrder, rank);
  }
}
