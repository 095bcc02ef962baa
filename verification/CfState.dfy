/** The route of one account: direct or warp, its cooldown ladder, and the way back. */
module CfState {
  import opened Prelude
  import opened Models

  const COOLDOWN_STEPS_SECONDS: seq<int> := [5, 60, 300, 600, 900, 1800, 3600, 43_200]
  const TOP_LEVEL: nat := 7
  const WARP_EJECTION: Time := 72 * HOUR
  const STREAK_TO_RECOVER: nat := 20

  datatype CfOutcome = CfOutcome(switchedToWarp: bool, failoverRequired: bool)

  function Min(a: nat, b: nat): nat {
    if a <= b then a else b
  }

  function Max(a: int, b: int): int {
    if a >= b then a else b
  }

  /** How long an account rests at a level of the ladder. */
  function Rest(level: nat): Time
    requires level <= TOP_LEVEL
  {
    COOLDOWN_STEPS_SECONDS[level] * SECOND
  }

  predicate InCooldown(r: RouteState, now: Time) {
    r.cooldownUntil.Some? && r.cooldownUntil.value > now
  }

  predicate WarpExpired(r: RouteState, now: Time) {
    r.warpEnteredAt.Some? && now - r.warpEnteredAt.value >= WARP_EJECTION
  }

  function Ejected(r: RouteState): RouteState {
    r.(routeMode := Direct, warpEnteredAt := None, warpCfStreak := 0, directCfStreak := 0)
  }

  function AfterReconcile(r: RouteState, now: Time): RouteState {
    if WarpExpired(r, now) then Ejected(r) else r
  }

  function AfterCfHit(r: RouteState, mode: RouteMode, now: Time): RouteState {
    var hit := r.(lastCfAt := Some(now), successStreak := 0);
    match mode
    case Direct =>
      if r.directCfStreak + 1 >= 3
      then hit.(routeMode := Warp, directCfStreak := 0, warpEnteredAt := Some(now))
      else hit.(directCfStreak := r.directCfStreak + 1)
    case Warp =>
      var level := Min(r.cooldownLevel + 1, TOP_LEVEL);
      hit.(warpCfStreak := r.warpCfStreak + 1, cooldownLevel := level, cooldownUntil := Some(now + Rest(level)))
  }

  function AfterSuccess(r: RouteState, now: Time): RouteState {
    var streak := r.successStreak + 1;
    var level := if streak >= STREAK_TO_RECOVER && r.cooldownLevel > 0 then r.cooldownLevel - 1 else r.cooldownLevel;
    AfterReconcile(r.(successStreak := streak, lastSuccessAt := Some(now), cooldownLevel := level), now)
  }

  /** The route state of a freshly imported account. */
  function Fresh(id: AccountId): RouteState {
    RouteState(id, Direct, 0, 0, 0, None, None, None, None, 0, None)
  }

  /** A route state borrowed from the runtime and edited in place. */
  class RouteCell {
    const accountId: AccountId
    var routeMode: RouteMode
    var directCfStreak: nat
    var warpCfStreak: nat
    var cooldownLevel: nat
    var cooldownUntil: Option<Time>
    var cooldownReason: Option<string>
    var warpEnteredAt: Option<Time>
    var lastCfAt: Option<Time>
    var successStreak: nat
    var lastSuccessAt: Option<Time>

    function Snapshot(): RouteState
      reads this
    {
      RouteState(accountId, routeMode, directCfStreak, warpCfStreak, cooldownLevel, cooldownUntil,
                 cooldownReason, warpEnteredAt, lastCfAt, successStreak, lastSuccessAt)
    }

    constructor (r: RouteState)
      ensures Snapshot() == r
    {
      accountId := r.accountId;
      routeMode := r.routeMode;
      directCfStreak := r.directCfStreak;
      warpCfStreak := r.warpCfStreak;
      cooldownLevel := r.cooldownLevel;
      cooldownUntil := r.cooldownUntil;
      cooldownReason := r.cooldownReason;
      warpEnteredAt := r.warpEnteredAt;
      lastCfAt := r.lastCfAt;
      successStreak := r.successStreak;
      lastSuccessAt := r.lastSuccessAt;
    }

    method Reconcile(now: Time)
      modifies this
      ensures Snapshot() == AfterReconcile(old(Snapshot()), now)
    {
      if warpEnteredAt.Some? {
        if now - warpEnteredAt.value >= WARP_EJECTION {
          routeMode := Direct;
          warpEnteredAt := None;
          warpCfStreak := 0;
          directCfStreak := 0;
        }
      }
    }

    /** A third direct hit in a row enters warp; every warp hit climbs the ladder and fails over. */
    method RegisterCfHit(mode: RouteMode, now: Time) returns (outcome: CfOutcome)
      modifies this
      ensures Snapshot() == AfterCfHit(old(Snapshot()), mode, now)
      ensures outcome.failoverRequired <==> mode == Warp
      ensures outcome.switchedToWarp <==> mode == Direct && old(directCfStreak) >= 2
    {
      lastCfAt := Some(now);
      successStreak := 0;
      match mode {
        case Direct =>
          directCfStreak := directCfStreak + 1;
          if directCfStreak >= 3 {
            routeMode := Warp;
            directCfStreak := 0;
            warpEnteredAt := Some(now);
            return CfOutcome(true, false);
          }
          return CfOutcome(false, false);
        case Warp =>
          warpCfStreak := warpCfStreak + 1;
          cooldownLevel := Min(cooldownLevel + 1, |COOLDOWN_STEPS_SECONDS| - 1);
          cooldownUntil := Some(now + COOLDOWN_STEPS_SECONDS[cooldownLevel] * SECOND);
          return CfOutcome(false, true);
      }
    }

    method RegisterSuccess(now: Time)
      modifies this
      ensures Snapshot() == AfterSuccess(old(Snapshot()), now)
    {
      successStreak := successStreak + 1;
      lastSuccessAt := Some(now);
      if successStreak >= STREAK_TO_RECOVER && cooldownLevel > 0 {
        cooldownLevel := cooldownLevel - 1;
      }
      if warpEnteredAt.Some? {
        if now - warpEnteredAt.value >= WARP_EJECTION {
          routeMode := Direct;
          warpEnteredAt := None;
          warpCfStreak := 0;
          directCfStreak := 0;
        }
      }
    }
  }

  // ---- Invariants over every run of route events -------------------------------------------

  /** What can happen to a route state after import, and when. */
  datatype RouteEvent =
    | CfHit(mode: RouteMode)
    | Succeeded
    | Unrecognised
    | FailedOver(severity: string, until: Option<Time>)
    | QuotaMarked(resetAt: Time, reason: string)
    | Settled

  datatype Timed = Timed(event: RouteEvent, at: Time)

  function AfterFailover(r: RouteState, severity: string, until: Option<Time>, now: Time): RouteState {
    r.(successStreak := 0, cooldownUntil := until, cooldownLevel := Max(r.cooldownLevel, 1),
       cooldownReason := Some(severity), lastCfAt := Some(now))
  }

  function AfterQuotaMark(r: RouteState, until: Time, reason: string): RouteState {
    r.(successStreak := 0, cooldownUntil := Some(until), cooldownLevel := Max(r.cooldownLevel, 1),
       cooldownReason := Some(reason))
  }

  function After(r: RouteState, e: Timed): RouteState {
    match e.event
    case CfHit(mode) => AfterCfHit(AfterReconcile(r, e.at), mode, e.at)
    case Succeeded => AfterSuccess(AfterReconcile(r, e.at), e.at).(cooldownReason := None)
    case Unrecognised => AfterReconcile(r, e.at)
    case Settled => AfterReconcile(r, e.at)
    case FailedOver(severity, until) => AfterFailover(r, severity, until, e.at)
    case QuotaMarked(until, reason) => AfterQuotaMark(r, until, reason)
  }

  function AfterAll(r: RouteState, events: seq<Timed>): RouteState
    decreases |events|
  {
    if events == [] then r else AfterAll(After(r, events[0]), events[1..])
  }

  predicate RouteInv(r: RouteState) {
    && (r.routeMode == Warp <==> r.warpEnteredAt.Some?)
    && r.directCfStreak <= 2
    && r.cooldownLevel <= TOP_LEVEL
  }

  /** Every run of events from an invariant state stays invariant, whatever the clock readings. */
  lemma {:induction false} RouteInvAlways(r: RouteState, events: seq<Timed>)
    requires RouteInv(r)
    ensures RouteInv(AfterAll(r, events))
    ensures AfterAll(r, events).accountId == r.accountId
    decreases |events|
  {
    if events != [] {
      RouteInvAlways(After(r, events[0]), events[1..]);
    }
  }

  /** Reconciling leaves no account in warp that entered 72 hours ago or more. */
  lemma {:induction false} ReconciledWarpIsYoung(id: AccountId, events: seq<Timed>, now: Time)
    ensures var r := AfterReconcile(AfterAll(Fresh(id), events), now);
      r.routeMode == Warp ==> r.warpEnteredAt.Some? && now - r.warpEnteredAt.value < WARP_EJECTION
  {
    RouteInvAlways(Fresh(id), events);
  }

  // ---- Closed forms of the ladder ------------------------------------------------------------

  function WarpHits(times: seq<Time>): seq<Timed> {
    seq(|times|, i requires 0 <= i < |times| => Timed(CfHit(Warp), times[i]))
  }

  function Successes(times: seq<Time>): seq<Timed> {
    seq(|times|, i requires 0 <= i < |times| => Timed(Succeeded, times[i]))
  }

  ghost predicate Ascending(times: seq<Time>) {
    forall i, j :: 0 <= i < j < |times| ==> times[i] <= times[j]
  }

  lemma {:induction false} AfterAllConcat(r: RouteState, a: seq<Timed>, b: seq<Timed>)
    ensures AfterAll(r, a + b) == AfterAll(AfterAll(r, a), b)
    decreases |a|
  {
    if a == [] {
      assert a + b == b;
    } else {
      AfterAllConcat(After(r, a[0]), a[1..], b);
      assert (a + b)[1..] == a[1..] + b;
    }
  }

  /**
   * n consecutive warp hits from level L end at level min(7, L + n), with the deadline the ladder
   * gives that level, counted from the last hit.
   */
  lemma {:induction false} WarpHitsClimb(r: RouteState, times: seq<Time>)
    requires r.cooldownLevel <= TOP_LEVEL
    ensures AfterAll(r, WarpHits(times)).cooldownLevel == Min(TOP_LEVEL, r.cooldownLevel + |times|)
    ensures times != [] ==>
      AfterAll(r, WarpHits(times)).cooldownUntil
         == Some(times[|times| - 1] + Rest(Min(TOP_LEVEL, r.cooldownLevel + |times|)))
  {
    if times == [] {
      assert WarpHits(times) == [];
    } else {
      var before := times[..|times| - 1];
      WarpHitsClimb(r, before);
      assert WarpHits(times) == WarpHits(before) + [Timed(CfHit(Warp), times[|times| - 1])];
      AfterAllConcat(r, WarpHits(before), [Timed(CfHit(Warp), times[|times| - 1])]);
    }
  }

  /** On a clock that never runs back, each further warp hit moves the deadline no earlier. */
  lemma WarpHitsNeverShortenTheRest(r: RouteState, times: seq<Time>, i: nat, j: nat)
    requires r.cooldownLevel <= TOP_LEVEL && Ascending(times)
    requires 0 < i <= j <= |times|
    ensures var earlier, later := AfterAll(r, WarpHits(times[..i])), AfterAll(r, WarpHits(times[..j]));
      && earlier.cooldownUntil.Some? && later.cooldownUntil.Some?
      && earlier.cooldownUntil.value <= later.cooldownUntil.value
  {
    LastHitSetsDeadline(r, times, i);
    LastHitSetsDeadline(r, times, j);
    LadderRises(Min(TOP_LEVEL, r.cooldownLevel + i), Min(TOP_LEVEL, r.cooldownLevel + j));
  }

  lemma LastHitSetsDeadline(r: RouteState, times: seq<Time>, n: nat)
    requires r.cooldownLevel <= TOP_LEVEL && 0 < n <= |times|
    ensures AfterAll(r, WarpHits(times[..n])).cooldownUntil
       == Some(times[n - 1] + Rest(Min(TOP_LEVEL, r.cooldownLevel + n)))
  {
    WarpHitsClimb(r, times[..n]);
  }

  lemma LadderRises(a: nat, b: nat)
    requires a <= b <= TOP_LEVEL
    ensures Rest(a) <= Rest(b)
  {
    assert forall k :: 0 <= k < TOP_LEVEL ==> COOLDOWN_STEPS_SECONDS[k] <= COOLDOWN_STEPS_SECONDS[k + 1];
    if a < b {
      LadderRises(a, b - 1);
    }
  }

  /**
   * k consecutive successes after a streak of s lower the level by one for each success that
   * brings the streak to 20 or more, and never below zero.
   */
  lemma {:induction false} SuccessesRecover(r: RouteState, times: seq<Time>)
    ensures var k, s := |times|, r.successStreak;
      AfterAll(r, Successes(times)).cooldownLevel
      == Max(0, r.cooldownLevel - Max(0, if s >= STREAK_TO_RECOVER - 1 then k else s + k - (STREAK_TO_RECOVER - 1)))
    ensures AfterAll(r, Successes(times)).successStreak == r.successStreak + |times|
  {
    if times == [] {
      assert Successes(times) == [];
    } else {
      var before := times[..|times| - 1];
      SuccessesRecover(r, before);
      assert Successes(times) == Successes(before) + [Timed(Succeeded, times[|times| - 1])];
      AfterAllConcat(r, Successes(before), [Timed(Succeeded, times[|times| - 1])]);
    }
  }

  /** From a broken streak, level L > 0 is cleared by 19 + L successes and by no fewer. */
  lemma ClearedByExactly(r: RouteState, times: seq<Time>)
    requires r.successStreak == 0
    ensures AfterAll(r, Successes(times)).cooldownLevel == 0
       <==> r.cooldownLevel == 0 || |times| >= 19 + r.cooldownLevel
  {
    SuccessesRecover(r, times);
  }
}
