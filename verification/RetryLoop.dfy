/** The retries behind one responses request, against an upstream that may answer anything. */
module RetryLoop {
  import opened Prelude
  import opened Upstream

  type LeaseRef = nat

  /** How the upstream answers one attempt. */
  datatype Answer =
    | Delivered
    | Hidden(kind: FailureKind)
    | Rejected(kind: FailureKind, retryableStatus: bool, asksForLess: bool)

  /**
   * Everything one pass through the loop can meet: whether the account has a credential, the answer,
   * whether the input could be compacted, and what the selector offers if it is asked.
   */
  datatype Round = Round(credentialed: bool, answer: Answer, compacts: bool, offered: Option<LeaseRef>)

  datatype Loop = Loop(
    previousId: bool, continuation: bool, compactionAttempted: bool, compactedActive: bool,
    queued: Option<LeaseRef>, selection: Option<LeaseRef>, attempt: nat, nonQuota: nat, pending: bool)

  datatype Exit = Answered | Refused(kind: FailureKind) | NoCredential | NoAccount | NoLease

  datatype Outcome = Again(loop: Loop) | Left(exit: Exit, loop: Loop)

  function Start(previousId: bool, lease: LeaseRef): Loop {
    Loop(previousId, false, false, false, None, Some(lease), 0, 0, false)
  }

  function RetryBudget(matchingAccounts: nat): nat {
    if matchingAccounts <= 1 then matchingAccounts else matchingAccounts - 1
  }

  predicate ShouldRetryViaSelection(kind: FailureKind, nonQuota: nat, budget: nat) {
    RequiresFailover(kind) && (kind == Quota || nonQuota < budget)
  }

  predicate ShouldRetry(answer: Answer, nonQuota: nat, budget: nat)
    requires !answer.Delivered?
  {
    if answer.kind == Generic then nonQuota < budget && (answer.Rejected? ==> answer.retryableStatus)
    else ShouldRetryViaSelection(answer.kind, nonQuota, budget)
  }

  predicate WantsCompaction(answer: Answer) {
    match answer
    case Delivered => false
    case Hidden(kind) => kind == Length
    case Rejected(_, _, asksForLess) => asksForLess
  }

  /** Why the loop goes round again. */
  datatype Reason = Continued | Compacted | FailedOver(kind: FailureKind) | Uncredentialed

  function ReasonFor(s: Loop, r: Round, budget: nat): Option<Reason> {
    if !r.credentialed then (if s.nonQuota == 0 then Some(Uncredentialed) else None)
    else if r.answer.Delivered? then None
    else if s.previousId && r.answer.kind == Continuation && !s.continuation then Some(Continued)
    else if !s.compactionAttempted && WantsCompaction(r.answer) && r.compacts then Some(Compacted)
    else if ShouldRetry(r.answer, s.nonQuota, budget) then Some(FailedOver(r.answer.kind))
    else None
  }

  function Reselect(s: Loop, offered: Option<LeaseRef>): Outcome {
    if offered.None? then Left(NoAccount, s) else Again(s.(selection := offered))
  }

  function Taken(s: Loop): Option<LeaseRef> {
    if s.queued.Some? then s.queued else s.selection
  }

  /** One pass through the loop. */
  function Turn(s: Loop, r: Round, budget: nat): Outcome {
    if Taken(s).None? then Left(NoLease, s)
    else
      var s1 := s.(queued := None, selection := if s.queued.Some? then s.selection else None, pending := true);
      match ReasonFor(s, r, budget)
      case Some(Continued) =>
        Again(s1.(continuation := true, compactedActive := false, previousId := false, queued := Taken(s)))
      case Some(Compacted) =>
        Again(s1.(compactionAttempted := true, compactedActive := true, continuation := false, previousId := false,
                  queued := Taken(s)))
      case Some(FailedOver(kind)) =>
        Reselect(s1.(attempt := s1.attempt + 1, nonQuota := if kind == Quota then s1.nonQuota else s1.nonQuota + 1),
                 r.offered)
      case Some(Uncredentialed) => Reselect(s1.(attempt := s1.attempt + 1, nonQuota := s1.nonQuota + 1), r.offered)
      case None =>
        if !r.credentialed then Left(NoCredential, s1.(pending := false))
        else if r.answer.Delivered? then Left(Answered, s1)
        else Left(Refused(r.answer.kind), s1.(pending := false))
  }

  /** How far a series of rounds gets, and how many of them were used up. */
  datatype Progress = Progress(outcome: Outcome, used: nat)

  function Run(s: Loop, rounds: seq<Round>, budget: nat): (p: Progress)
    ensures p.used <= |rounds|
    decreases |rounds|
  {
    if rounds == [] then Progress(Again(s), 0)
    else
      match Turn(s, rounds[0], budget)
      case Left(exit, s1) => Progress(Left(exit, s1), 1)
      case Again(s1) => var p := Run(s1, rounds[1..], budget); p.(used := p.used + 1)
  }

  /** The variables of the request handler that live across its retries. */
  class Request {
    var previousId: bool
    var continuation: bool
    var compactionAttempted: bool
    var compactedActive: bool
    var queued: Option<LeaseRef>
    var selection: Option<LeaseRef>
    var attempt: nat
    var nonQuota: nat
    var pending: bool
    const budget: nat

    function Snapshot(): Loop
      reads this
    {
      Loop(previousId, continuation, compactionAttempted, compactedActive, queued, selection, attempt, nonQuota,
           pending)
    }

    constructor (previousResponse: bool, lease: LeaseRef, matchingAccounts: nat)
      ensures Snapshot() == Start(previousResponse, lease) && budget == RetryBudget(matchingAccounts)
    {
      previousId, continuation, compactionAttempted, compactedActive := previousResponse, false, false, false;
      queued, selection, attempt, nonQuota, pending := None, Some(lease), 0, 0, false;
      budget := RetryBudget(matchingAccounts);
    }

    method TakeLease() returns (lease: Option<LeaseRef>)
      modifies this`queued, this`selection
      ensures lease == Taken(old(Snapshot()))
      ensures queued == None && selection == (if old(queued).Some? then old(selection) else None)
    {
      if queued.Some? {
        lease, queued := queued, None;
      } else {
        lease, selection := selection, None;
      }
    }

    method Fail(quota: bool, offered: Option<LeaseRef>) returns (exit: Option<Exit>)
      modifies this`attempt, this`nonQuota, this`selection
      ensures attempt == old(attempt) + 1 && nonQuota == (if quota then old(nonQuota) else old(nonQuota) + 1)
      ensures exit == (if offered.None? then Some(NoAccount) else None)
      ensures selection == (if offered.None? then old(selection) else offered)
    {
      attempt := attempt + 1;
      if !quota {
        nonQuota := nonQuota + 1;
      }
      if offered.None? {
        return Some(NoAccount);
      }
      selection := offered;
      return None;
    }

    /** One pass; an exit ends the request. */
    method Pass(r: Round) returns (exit: Option<Exit>)
      modifies this
      ensures Turn(old(Snapshot()), r, budget) == if exit.Some? then Left(exit.value, Snapshot()) else Again(Snapshot())
    {
      var lease := TakeLease();
      if lease.None? {
        return Some(NoLease);
      }
      pending := true;
      if !r.credentialed {
        if nonQuota == 0 {
          exit := Fail(false, r.offered);
          return;
        }
        pending := false;
        return Some(NoCredential);
      }
      if r.answer.Delivered? {
        return Some(Answered);
      }
      var again := RetryOnLease(lease, r);
      if again {
        return None;
      }
      if ShouldRetry(r.answer, nonQuota, budget) {
        exit := Fail(r.answer.kind == Quota, r.offered);
        return;
      }
      pending := false;
      return Some(Refused(r.answer.kind));
    }

    /** A failure that concerns the conversation, not the account, is retried on the same lease. */
    method RetryOnLease(lease: Option<LeaseRef>, r: Round) returns (again: bool)
      requires r.credentialed && !r.answer.Delivered?
      modifies this`continuation, this`compactionAttempted, this`compactedActive, this`previousId, this`queued
      ensures again <==> ReasonFor(old(Snapshot()), r, budget) in {Some(Continued), Some(Compacted)}
      ensures !again ==> Snapshot() == old(Snapshot())
      ensures ReasonFor(old(Snapshot()), r, budget) == Some(Continued) ==>
        Snapshot() == old(Snapshot()).(continuation := true, compactedActive := false, previousId := false,
                                       queued := lease)
      ensures ReasonFor(old(Snapshot()), r, budget) == Some(Compacted) ==>
        Snapshot() == old(Snapshot()).(compactionAttempted := true, compactedActive := true, continuation := false,
                                       previousId := false, queued := lease)
    {
      if previousId && r.answer.kind == Continuation && !continuation {
        continuation, compactedActive, previousId, queued := true, false, false, lease;
        return true;
      }
      if !compactionAttempted && WantsCompaction(r.answer) && r.compacts {
        compactionAttempted, compactedActive, continuation, previousId, queued := true, true, false, false, lease;
        return true;
      }
      return false;
    }

    /** The whole loop, against the rounds the environment has in store. */
    method Serve(rounds: seq<Round>) returns (exit: Option<Exit>, used: nat)
      modifies this
      ensures Run(old(Snapshot()), rounds, budget)
           == Progress(if exit.Some? then Left(exit.value, Snapshot()) else Again(Snapshot()), used)
    {
      exit, used := None, 0;
      while used < |rounds|
        invariant used <= |rounds| && exit.None?
        invariant var rest := Run(Snapshot(), rounds[used..], budget);
          Run(old(Snapshot()), rounds, budget) == rest.(used := rest.used + used)
      {
        assert rounds[used..][0] == rounds[used] && rounds[used..][1..] == rounds[used + 1..];
        exit := Pass(rounds[used]);
        used := used + 1;
        if exit.Some? {
          return;
        }
      }
      assert rounds[used..] == [];
    }
  }

  // ---- Bounds ------------------------------------------------------------------------------------------

  /** How often each reason sent the request round again. */
  datatype Tally = Tally(continued: nat, compacted: nat, other: nat, quota: nat)

  function Counted(t: Tally, why: Reason): Tally {
    match why
    case Continued => t.(continued := t.continued + 1)
    case Compacted => t.(compacted := t.compacted + 1)
    case FailedOver(kind) => if kind == Quota then t.(quota := t.quota + 1) else t.(other := t.other + 1)
    case Uncredentialed => t.(other := t.other + 1)
  }

  /** The retries among the rounds a run used up. */
  function Retries(s: Loop, rounds: seq<Round>, budget: nat): Tally
    decreases |rounds|
  {
    if rounds == [] then Tally(0, 0, 0, 0)
    else
      var next, why := Turn(s, rounds[0], budget), ReasonFor(s, rounds[0], budget);
      if next.Left? || why.None? then Tally(0, 0, 0, 0) else Counted(Retries(next.loop, rounds[1..], budget), why.value)
  }

  function Cap(budget: nat): nat {
    if budget == 0 then 1 else budget
  }

  /** Exactly one lease is at hand at the head of the loop. */
  predicate Armed(s: Loop) {
    s.queued.Some? <==> s.selection.None?
  }

  /**
   * At most one continuation retry, although compaction clears its flag; at most one compaction; at
   * most max(1, budget) retries for anything but quota; and nothing else ever goes round.
   */
  lemma {:induction false} RetriesAreBounded(s: Loop, rounds: seq<Round>, budget: nat)
    requires Armed(s) && s.nonQuota <= Cap(budget)
    ensures var t, p := Retries(s, rounds, budget), Run(s, rounds, budget);
      && t.continued <= (if s.previousId then 1 else 0)
      && t.compacted <= (if s.compactionAttempted then 0 else 1)
      && s.nonQuota + t.other <= Cap(budget)
      && p.used == t.continued + t.compacted + t.other + t.quota + (if p.outcome.Left? then 1 else 0)
    decreases |rounds|
  {
    if rounds != [] && Turn(s, rounds[0], budget).Again? {
      TurnSpends(s, rounds[0], budget);
      RetriesAreBounded(Turn(s, rounds[0], budget).loop, rounds[1..], budget);
    }
  }

  /** Each reason to go round uses up what allows it. */
  lemma TurnSpends(s: Loop, r: Round, budget: nat)
    requires Armed(s) && s.nonQuota <= Cap(budget) && Turn(s, r, budget).Again?
    ensures var s', why := Turn(s, r, budget).loop, ReasonFor(s, r, budget);
      && why.Some? && Armed(s') && s'.nonQuota <= Cap(budget)
      && (s'.previousId ==> s.previousId && why != Some(Continued)) && (why == Some(Continued) ==> s.previousId)
      && (s.compactionAttempted ==> s'.compactionAttempted && why != Some(Compacted))
      && (why == Some(Compacted) ==> s'.compactionAttempted)
      && s'.nonQuota == s.nonQuota + (if why.value in {Continued, Compacted, FailedOver(Quota)} then 0 else 1)
  {
  }

  /** So a request is over after 3 + max(1, budget) attempts, not counting retries after quota failures. */
  lemma AttemptsAreBounded(previousId: bool, lease: LeaseRef, rounds: seq<Round>, budget: nat)
    ensures var s := Start(previousId, lease);
      Run(s, rounds, budget).used <= 3 + Cap(budget) + Retries(s, rounds, budget).quota
  {
    RetriesAreBounded(Start(previousId, lease), rounds, budget);
  }

  /** The head of the loop always has a lease; the exit for a missing one is dead. */
  lemma {:induction false} LeaseIsAlwaysAtHand(s: Loop, rounds: seq<Round>, budget: nat)
    requires Armed(s)
    ensures var p := Run(s, rounds, budget); p.outcome.Left? ==> p.outcome.exit != NoLease
    ensures var p := Run(s, rounds, budget); p.outcome.Again? ==> Armed(p.outcome.loop)
    decreases |rounds|
  {
    if rounds != [] && Turn(s, rounds[0], budget).Again? {
      LeaseIsAlwaysAtHand(Turn(s, rounds[0], budget).loop, rounds[1..], budget);
    }
  }

  /**
   * A pass that fails leaves the turn pending exactly when it was to be retried and the selector had nothing
   * to offer.
   */
  lemma PassLeavesTurnPendingExactly(s: Loop, r: Round, budget: nat)
    requires Armed(s) && Turn(s, r, budget).Left? && Turn(s, r, budget).exit != Answered
    ensures Turn(s, r, budget).loop.pending <==> ReasonFor(s, r, budget).Some? && r.offered.None?
  {
  }

  /** The state a run is in before the last round it uses. */
  function BeforeLast(s: Loop, rounds: seq<Round>, budget: nat): Loop
    requires rounds != []
    decreases |rounds|
  {
    match Turn(s, rounds[0], budget)
    case Left(_, _) => s
    case Again(s1) => if |rounds| == 1 then s else BeforeLast(s1, rounds[1..], budget)
  }

  /**
   * A request that fails leaves its turn pending exactly when the last round called for another
   * account and the selector had none to offer.
   */
  lemma {:induction false} PendingTurnLeftExactly(s: Loop, rounds: seq<Round>, budget: nat)
    requires Armed(s) && Run(s, rounds, budget).outcome.Left?
    ensures var p := Run(s, rounds, budget);
      && 0 < p.used <= |rounds|
      && Armed(BeforeLast(s, rounds, budget))
      && p.outcome == Turn(BeforeLast(s, rounds, budget), rounds[p.used - 1], budget)
      && (p.outcome.exit != Answered ==>
            (p.outcome.loop.pending <==>
              && ReasonFor(BeforeLast(s, rounds, budget), rounds[p.used - 1], budget).Some?
              && rounds[p.used - 1].offered.None?))
    decreases |rounds|
  {
    var next := Turn(s, rounds[0], budget);
    if next.Again? {
      assert |rounds| > 1;
      PendingTurnLeftExactly(next.loop, rounds[1..], budget);
    } else if next.exit != Answered {
      PassLeavesTurnPendingExactly(s, rounds[0], budget);
    }
  }

  /** Retries for continuation and compaction stay on the lease; all others take the one on offer. */
  lemma RetryKeepsLeaseExactly(s: Loop, r: Round, budget: nat)
    requires Armed(s) && Turn(s, r, budget).Again?
    ensures var next, why := Turn(s, r, budget).loop, ReasonFor(s, r, budget);
      && why.Some?
      && Taken(next) == if why.value in {Continued, Compacted} then Taken(s) else r.offered
  {
  }

  /** After a continuation or compaction retry the previous response is never named again. */
  lemma {:induction false} PreviousIdStaysGone(s: Loop, rounds: seq<Round>, budget: nat)
    requires Armed(s)
    ensures var p := Run(s, rounds, budget);
      p.outcome.loop.previousId <==>
        s.previousId && Retries(s, rounds, budget).continued == 0 && Retries(s, rounds, budget).compacted == 0
    decreases |rounds|
  {
    if rounds != [] && Turn(s, rounds[0], budget).Again? {
      TurnForgets(s, rounds[0], budget);
      PreviousIdStaysGone(Turn(s, rounds[0], budget).loop, rounds[1..], budget);
    }
  }

  lemma TurnForgets(s: Loop, r: Round, budget: nat)
    requires Armed(s) && Turn(s, r, budget).Again?
    ensures var s', why := Turn(s, r, budget).loop, ReasonFor(s, r, budget);
      && why.Some? && Armed(s')
      && (s'.previousId <==> s.previousId && why.value !in {Continued, Compacted})
  {
  }

  // ---- The bound is reached ---------------------------------------------------------------------------------

  const GENERIC := Round(true, Hidden(Generic), false, Some(0))

  lemma {:induction false} GenericFailuresUseBudget(s: Loop, n: nat, budget: nat)
    requires Armed(s) && !s.previousId && s.nonQuota + n <= budget
    ensures var rounds := seq(n, _ => GENERIC);
      Run(s, rounds, budget).used == n && Run(s, rounds, budget).outcome.Again?
    ensures n > 0 ==> Run(s, seq(n, _ => GENERIC), budget).outcome.loop == s.(queued := None, selection := Some(0),
      pending := true, attempt := s.attempt + n, nonQuota := s.nonQuota + n)
    decreases n
  {
    if n > 0 {
      var rounds := seq(n, _ => GENERIC);
      assert rounds[0] == GENERIC && rounds[1..] == seq(n - 1, _ => GENERIC);
      GenericFailuresUseBudget(Turn(s, GENERIC, budget).loop, n - 1, budget);
    }
  }

  /** Some upstream makes a request take all 3 + max(1, budget) attempts without a single quota failure. */
  lemma BoundIsReached(lease: LeaseRef, budget: nat) returns (rounds: seq<Round>)
    ensures var s := Start(true, lease);
      Run(s, rounds, budget).used == 3 + Cap(budget) && Retries(s, rounds, budget).quota == 0
  {
    var s := Start(true, lease);
    var continued, compacted := Round(true, Hidden(Continuation), false, None), Round(true, Hidden(Length), true, None);
    var s1 := Turn(s, continued, budget).loop;
    var s2 := Turn(s1, compacted, budget).loop;
    var failures := if budget == 0 then [Round(false, Delivered, false, Some(0))] else seq(budget, _ => GENERIC);
    var last := [Round(true, Delivered, false, None)];
    if budget > 0 {
      GenericFailuresUseBudget(s2, budget, budget);
    } else {
      assert failures[1..] == [];
    }
    RunConcat(s2, failures, last, budget);
    var s3 := Run(s2, failures, budget).outcome.loop;
    assert Run(s3, last, budget).used == 1;
    rounds := [continued] + ([compacted] + (failures + last));
    assert rounds[1..] == [compacted] + (failures + last) && rounds[1..][1..] == failures + last;
    assert Run(s, rounds, budget).used == 1 + (1 + Run(s2, failures + last, budget).used);
    NoQuotaNoQuotaRetries(s, rounds, budget);
  }

  lemma {:induction false} NoQuotaNoQuotaRetries(s: Loop, rounds: seq<Round>, budget: nat)
    requires forall r :: r in rounds && !r.answer.Delivered? ==> r.answer.kind != Quota
    ensures Retries(s, rounds, budget).quota == 0
    decreases |rounds|
  {
    if rounds != [] {
      assert rounds[0] in rounds && forall r :: r in rounds[1..] ==> r in rounds;
      NoQuotaNoQuotaRetries(Turn(s, rounds[0], budget).loop, rounds[1..], budget);
    }
  }

  lemma {:induction false} RunConcat(s: Loop, a: seq<Round>, b: seq<Round>, budget: nat)
    requires Run(s, a, budget).outcome.Again?
    ensures var first := Run(s, a, budget);
      Run(s, a + b, budget) == Progress(Run(first.outcome.loop, b, budget).outcome,
                                        first.used + Run(first.outcome.loop, b, budget).used)
    decreases |a|
  {
    if a == [] {
      assert a + b == b;
    } else {
      assert (a + b)[1..] == a[1..] + b;
      RunConcat(Turn(s, a[0], budget).loop, a[1..], b, budget);
    }
  }

  // ---- The chat loop, which queues nothing -------------------------------------------------------------------

  /** One pass of the chat loop: no continuation, and compaction goes round without queueing the lease. */
  function ChatTurn(s: Loop, r: Round, budget: nat): Outcome {
    if s.selection.None? then Left(NoLease, s)
    else
      var s1 := s.(selection := None, pending := true);
      match ReasonFor(s.(previousId := false), r, budget)
      case Some(Compacted) => Again(s1.(compactionAttempted := true, compactedActive := true))
      case Some(FailedOver(kind)) =>
        Reselect(s1.(attempt := s1.attempt + 1, nonQuota := if kind == Quota then s1.nonQuota else s1.nonQuota + 1),
                 r.offered)
      case Some(_) => Reselect(s1.(attempt := s1.attempt + 1, nonQuota := s1.nonQuota + 1), r.offered)
      case None =>
        if !r.credentialed then Left(NoCredential, s1.(pending := false))
        else if r.answer.Delivered? then Left(Answered, s1)
        else Left(Refused(r.answer.kind), s1.(pending := false))
  }

  /**
   * A chat request that goes round finds no lease exactly when it went round for compaction, and its turn
   * stays pending.
   */
  lemma ChatRetryLosesLeaseExactly(s: Loop, r: Round, next: Round, budget: nat)
    requires ChatTurn(s, r, budget).Again?
    ensures var s1 := ChatTurn(s, r, budget).loop;
      && s1.pending
      && (ChatTurn(s1, next, budget) == Left(NoLease, s1)
          <==> ReasonFor(s.(previousId := false), r, budget) == Some(Compacted))
  {
  }
}
