/** One request at a time on an account that is alone in serving a model. */
module ExecutionGuard {
  import opened Prelude
  import opened Models

  type Task = nat
  type Gate = nat

  /** Where a task stands on its way through an account's gate. */
  datatype Phase =
    | Outside
    | Queued(account: AccountId, gate: Gate)
    | Permitted(account: AccountId, gate: Gate)
    | Guarding(account: AccountId, gate: Gate)
    | Uncounted(account: AccountId, gate: Gate)

  /** `open` are the gates whose only permit is not taken. */
  datatype State = State(tasks: map<Task, Phase>, gates: map<AccountId, Gate>, open: set<Gate>, made: nat,
                         inflight: map<AccountId, nat>)

  const EMPTY := State(map[], map[], {}, 0, map[])

  function PhaseOf(s: State, t: Task): Phase {
    if t in s.tasks then s.tasks[t] else Outside
  }

  function Incremented(m: map<AccountId, nat>, a: AccountId): map<AccountId, nat> {
    m[a := if a in m then m[a] + 1 else 1]
  }

  /** An entry that falls to zero is removed. */
  function Decremented(m: map<AccountId, nat>, a: AccountId): map<AccountId, nat> {
    if a in m && m[a] > 1 then m[a := m[a] - 1] else m - {a}
  }

  /** The table that guards share. */
  class InflightTable {
    var inflight: map<AccountId, nat>

    constructor ()
      ensures inflight == map[]
    {
      inflight := map[];
    }

    method CountIn(a: AccountId)
      modifies this
      ensures inflight == Incremented(old(inflight), a)
    {
      if a !in inflight {
        inflight := inflight[a := 0];
      }
      inflight := inflight[a := inflight[a] + 1];
    }

    /** What dropping a guard does before its permit goes back. */
    method CountOut(a: AccountId)
      modifies this
      ensures inflight == Decremented(old(inflight), a)
    {
      if a !in inflight {
        inflight := inflight[a := 0];
      }
      var entry := if inflight[a] > 0 then inflight[a] - 1 else 0;
      inflight := inflight[a := entry];
      if entry == 0 {
        inflight := inflight - {a};
      }
    }
  }

  /** A request that waits at a gate may be dropped there; once it has the permit it goes through. */
  datatype Step =
    | Request(task: Task, account: AccountId)
    | Cancel(task: Task)
    | Acquire(task: Task)
    | Count(task: Task)
    | Uncount(task: Task)
    | Release(task: Task)
    | Delete(account: AccountId)

  predicate Enabled(s: State, e: Step) {
    match e
    case Request(t, _) => PhaseOf(s, t).Outside?
    case Cancel(t) => PhaseOf(s, t).Queued?
    case Acquire(t) => PhaseOf(s, t).Queued? && PhaseOf(s, t).gate in s.open
    case Count(t) => PhaseOf(s, t).Permitted?
    case Uncount(t) => PhaseOf(s, t).Guarding?
    case Release(t) => PhaseOf(s, t).Uncounted?
    case Delete(_) => true
  }

  function Next(s: State, e: Step): State
    requires Enabled(s, e)
  {
    match e
    case Request(t, a) =>
      if a in s.gates then s.(tasks := s.tasks[t := Queued(a, s.gates[a])])
      else s.(tasks := s.tasks[t := Queued(a, s.made)], gates := s.gates[a := s.made], open := s.open + {s.made},
              made := s.made + 1)
    case Cancel(t) => s.(tasks := s.tasks[t := Outside])
    case Acquire(t) =>
      var p := PhaseOf(s, t);
      s.(tasks := s.tasks[t := Permitted(p.account, p.gate)], open := s.open - {p.gate})
    case Count(t) =>
      var p := PhaseOf(s, t);
      s.(tasks := s.tasks[t := Guarding(p.account, p.gate)], inflight := Incremented(s.inflight, p.account))
    case Uncount(t) =>
      var p := PhaseOf(s, t);
      s.(tasks := s.tasks[t := Uncounted(p.account, p.gate)], inflight := Decremented(s.inflight, p.account))
    case Release(t) =>
      s.(tasks := s.tasks[t := Outside], open := s.open + {PhaseOf(s, t).gate})
    case Delete(a) => s.(gates := s.gates - {a}, inflight := s.inflight - {a})
  }

  /** The task has the permit of its gate. */
  predicate HasPermit(p: Phase) {
    p.Permitted? || p.Guarding? || p.Uncounted?
  }

  ghost predicate Guarded(s: State, a: AccountId) {
    exists t :: t in s.tasks && s.tasks[t].Guarding? && s.tasks[t].account == a
  }

  ghost predicate GatesSound(s: State) {
    && (forall a :: a in s.gates ==> s.gates[a] < s.made)
    && (forall a, b :: a in s.gates && b in s.gates && s.gates[a] == s.gates[b] ==> a == b)
    && (forall g :: g in s.open ==> g < s.made)
    && (forall t :: t in s.tasks && !s.tasks[t].Outside? ==> s.tasks[t].gate < s.made)
  }

  ghost predicate HasHolder(s: State, g: Gate) {
    exists t :: t in s.tasks && HasPermit(s.tasks[t]) && s.tasks[t].gate == g
  }

  /** A gate that is not open has a task that holds its permit. */
  ghost predicate ClosedHaveHolders(s: State) {
    forall g: Gate :: g < s.made && g !in s.open ==> HasHolder(s, g)
  }

  /** A gate is open unless a task has its permit, and then exactly one has. */
  ghost predicate PermitsSound(s: State) {
    && (forall t :: t in s.tasks && HasPermit(s.tasks[t]) ==> s.tasks[t].gate !in s.open)
    && (forall t, u ::
          t in s.tasks && u in s.tasks && HasPermit(s.tasks[t]) && HasPermit(s.tasks[u])
          && s.tasks[t].gate == s.tasks[u].gate
          ==> t == u)
  }

  /** Every task is at the gate its account has now. */
  ghost predicate GatesCurrent(s: State) {
    forall t :: t in s.tasks && !s.tasks[t].Outside? ==>
      s.tasks[t].account in s.gates && s.gates[s.tasks[t].account] == s.tasks[t].gate
  }

  ghost predicate CountsSound(s: State) {
    forall a :: if Guarded(s, a) then a in s.inflight && s.inflight[a] == 1 else a !in s.inflight
  }

  ghost predicate Inv(s: State) {
    GatesSound(s) && PermitsSound(s) && ClosedHaveHolders(s) && GatesCurrent(s) && CountsSound(s)
  }

  ghost predicate Attached(s: State, a: AccountId) {
    exists t :: t in s.tasks && !s.tasks[t].Outside? && s.tasks[t].account == a
  }

  /** No two guards on one account, and a table entry exactly while there is one, reading 1. */
  lemma OneGuardPerAccount(s: State, t: Task, u: Task)
    requires Inv(s) && PhaseOf(s, t).Guarding? && PhaseOf(s, u).Guarding?
    requires PhaseOf(s, t).account == PhaseOf(s, u).account
    ensures t == u && PhaseOf(s, t).account in s.inflight && s.inflight[PhaseOf(s, t).account] == 1
  {
    assert Guarded(s, PhaseOf(s, t).account);
  }

  lemma OthersStayGuarded(s: State, s': State, t: Task, a: AccountId)
    requires t in s'.tasks && s'.tasks == s.tasks[t := s'.tasks[t]]
    requires !(PhaseOf(s, t).Guarding? && PhaseOf(s, t).account == a)
    requires !(s'.tasks[t].Guarding? && s'.tasks[t].account == a)
    ensures Guarded(s', a) <==> Guarded(s, a)
  {
    if Guarded(s, a) {
      var u :| u in s.tasks && s.tasks[u].Guarding? && s.tasks[u].account == a;
      assert u in s'.tasks && s'.tasks[u] == s.tasks[u];
    }
    if Guarded(s', a) {
      var u :| u in s'.tasks && s'.tasks[u].Guarding? && s'.tasks[u].account == a;
      assert u in s.tasks && s'.tasks[u] == s.tasks[u];
    }
  }

  /** A step moves one task; permits of other gates stay with their holders. */
  lemma HoldersStay(s: State, e: Step)
    requires Enabled(s, e) && ClosedHaveHolders(s) && PermitsSound(s)
    ensures ClosedHaveHolders(Next(s, e))
  {
    var s' := Next(s, e);
    forall g: Gate | g < s'.made && g !in s'.open
      ensures HasHolder(s', g)
    {
      if e.Acquire? && g == PhaseOf(s, e.task).gate {
        assert HasPermit(s'.tasks[e.task]) && s'.tasks[e.task].gate == g;
      } else {
        assert HasHolder(s, g);
        var t :| t in s.tasks && HasPermit(s.tasks[t]) && s.tasks[t].gate == g;
        assert t in s'.tasks && HasPermit(s'.tasks[t]) && s'.tasks[t].gate == g;
      }
    }
  }

  lemma CountKeeps(s: State, t: Task)
    requires Inv(s) && Enabled(s, Count(t))
    ensures Inv(Next(s, Count(t)))
  {
    var s', a := Next(s, Count(t)), PhaseOf(s, t).account;
    HoldersStay(s, Count(t));
    assert !Guarded(s, a);
    assert s'.tasks[t].Guarding? && s'.tasks[t].account == a && Guarded(s', a);
    forall b | b != a
      ensures Guarded(s', b) <==> Guarded(s, b)
    {
      OthersStayGuarded(s, s', t, b);
    }
  }

  lemma UncountKeeps(s: State, t: Task)
    requires Inv(s) && Enabled(s, Uncount(t))
    ensures Inv(Next(s, Uncount(t)))
  {
    var s', a := Next(s, Uncount(t)), PhaseOf(s, t).account;
    HoldersStay(s, Uncount(t));
    assert s.tasks[t].Guarding? && Guarded(s, a);
    assert !Guarded(s', a);
    forall b | b != a
      ensures Guarded(s', b) <==> Guarded(s, b)
    {
      OthersStayGuarded(s, s', t, b);
    }
  }

  lemma SameGuards(s: State, e: Step)
    requires Enabled(s, e) && (e.Request? || e.Cancel? || e.Acquire? || e.Release?) && CountsSound(s)
    ensures CountsSound(Next(s, e))
  {
    var s' := Next(s, e);
    forall a
      ensures Guarded(s', a) <==> Guarded(s, a)
    {
      OthersStayGuarded(s, s', e.task, a);
    }
  }

  lemma RequestKeeps(s: State, t: Task, a: AccountId)
    requires Inv(s) && Enabled(s, Request(t, a))
    ensures Inv(Next(s, Request(t, a)))
  {
    SameGuards(s, Request(t, a));
    HoldersStay(s, Request(t, a));
    RequestGates(s, t, a);
    RequestIsCurrent(s, t, a);
    RequestPermits(s, t, a);
  }

  lemma RequestGates(s: State, t: Task, a: AccountId)
    requires GatesSound(s) && Enabled(s, Request(t, a))
    ensures GatesSound(Next(s, Request(t, a)))
  {
  }

  lemma RequestIsCurrent(s: State, t: Task, a: AccountId)
    requires GatesCurrent(s) && Enabled(s, Request(t, a))
    ensures GatesCurrent(Next(s, Request(t, a)))
  {
  }

  /** Whoever asks has no permit yet, and a gate made for it is new. */
  lemma RequestPermits(s: State, t: Task, a: AccountId)
    requires GatesSound(s) && PermitsSound(s) && Enabled(s, Request(t, a))
    ensures PermitsSound(Next(s, Request(t, a)))
  {
    var s' := Next(s, Request(t, a));
    forall u | u in s'.tasks && HasPermit(s'.tasks[u])
      ensures u in s.tasks && s'.tasks[u] == s.tasks[u] && s'.tasks[u].gate !in s'.open
    {
      assert u != t;
    }
  }

  lemma CancelKeeps(s: State, t: Task)
    requires Inv(s) && Enabled(s, Cancel(t))
    ensures Inv(Next(s, Cancel(t)))
  {
    SameGuards(s, Cancel(t));
    HoldersStay(s, Cancel(t));
  }

  lemma AcquireKeeps(s: State, t: Task)
    requires Inv(s) && Enabled(s, Acquire(t))
    ensures Inv(Next(s, Acquire(t)))
  {
    SameGuards(s, Acquire(t));
    HoldersStay(s, Acquire(t));
  }

  lemma ReleaseKeeps(s: State, t: Task)
    requires Inv(s) && Enabled(s, Release(t))
    ensures Inv(Next(s, Release(t)))
  {
    SameGuards(s, Release(t));
    HoldersStay(s, Release(t));
  }

  /** Every step but a deletion keeps permits, gates and counts in order. */
  lemma StepKeeps(s: State, e: Step)
    requires Inv(s) && Enabled(s, e) && !e.Delete?
    ensures Inv(Next(s, e))
  {
    match e {
      case Count(t) => CountKeeps(s, t);
      case Uncount(t) => UncountKeeps(s, t);
      case Request(t, a) => RequestKeeps(s, t, a);
      case Cancel(t) => CancelKeeps(s, t);
      case Acquire(t) => AcquireKeeps(s, t);
      case Release(t) => ReleaseKeeps(s, t);
    }
  }

  /** A deletion keeps them exactly when nobody is attached to the account. */
  lemma StepKeepsExactly(s: State, e: Step)
    requires Inv(s) && Enabled(s, e)
    ensures Inv(Next(s, e)) <==> (e.Delete? ==> !Attached(s, e.account))
  {
    if e.Delete? {
      var s', a := Next(s, e), e.account;
      if Attached(s, a) {
        var t :| t in s.tasks && !s.tasks[t].Outside? && s.tasks[t].account == a;
        assert t in s'.tasks && s'.tasks[t].account !in s'.gates;
      } else {
        assert !Guarded(s, a);
        assert forall b :: Guarded(s', b) <==> Guarded(s, b);
        HoldersStay(s, e);
      }
    } else {
      StepKeeps(s, e);
    }
  }

  ghost predicate Run(s: State, steps: seq<Step>)
    decreases |steps|
  {
    steps == [] || (Enabled(s, steps[0]) && Run(Next(s, steps[0]), steps[1..]))
  }

  ghost function After(s: State, steps: seq<Step>): State
    requires Run(s, steps)
    decreases |steps|
  {
    if steps == [] then s else After(Next(s, steps[0]), steps[1..])
  }

  /** Every interleaving without deletions, from any sound state. */
  lemma {:induction false} InterleavingsKeepInv(s: State, steps: seq<Step>)
    requires Inv(s) && Run(s, steps) && forall e :: e in steps ==> !e.Delete?
    ensures Inv(After(s, steps))
    decreases |steps|
  {
    if steps != [] {
      assert steps[0] in steps && forall e :: e in steps[1..] ==> e in steps;
      StepKeeps(s, steps[0]);
      InterleavingsKeepInv(Next(s, steps[0]), steps[1..]);
    }
  }

  lemma EmptyIsSound()
    ensures Inv(EMPTY)
  {
  }

  /** In every interleaving without deletions one task at most guards an account, and its entry is absent or 1. */
  lemma GuardIsExclusive(steps: seq<Step>, t: Task, u: Task, a: AccountId)
    requires Run(EMPTY, steps) && forall e :: e in steps ==> !e.Delete?
    ensures var s := After(EMPTY, steps);
      && (a in s.inflight ==> s.inflight[a] == 1)
      && (PhaseOf(s, t).Guarding? && PhaseOf(s, u).Guarding? && PhaseOf(s, t).account == a == PhaseOf(s, u).account
          ==> t == u)
  {
    EmptyIsSound();
    InterleavingsKeepInv(EMPTY, steps);
    var s := After(EMPTY, steps);
    if PhaseOf(s, t).Guarding? && PhaseOf(s, u).Guarding? && PhaseOf(s, t).account == a == PhaseOf(s, u).account {
      OneGuardPerAccount(s, t, u);
    }
  }

  // ---- Deleting an account that somebody is at the gate of ----------------------------------------------

  ghost predicate WithoutDeletes(steps: seq<Step>) {
    forall e :: e in steps ==> !e.Delete?
  }

  /** Two tasks guard the account at once. */
  ghost predicate TwoGuards(s: State, a: AccountId) {
    exists t, u :: t != u && t in s.tasks && u in s.tasks && s.tasks[t].Guarding? && s.tasks[u].Guarding?
      && s.tasks[t].account == a == s.tasks[u].account
  }

  /** Some deletion-free future of the state has two guards on the account. */
  ghost predicate CanDouble(s: State, a: AccountId) {
    exists steps :: WithoutDeletes(steps) && Run(s, steps) && TwoGuards(After(s, steps), a)
  }

  /** The task is at a gate of the account and has not been counted out. */
  ghost predicate Bound(p: Phase, a: AccountId) {
    !p.Outside? && !p.Uncounted? && p.account == a
  }

  ghost predicate SomeoneBound(s: State, a: AccountId) {
    exists t :: t in s.tasks && Bound(s.tasks[t], a)
  }

  /** One step further. */
  lemma CanDoubleAfter(s: State, e: Step, a: AccountId)
    requires !e.Delete? && Enabled(s, e) && CanDouble(Next(s, e), a)
    ensures CanDouble(s, a)
  {
    var steps :| WithoutDeletes(steps) && Run(Next(s, e), steps) && TwoGuards(After(Next(s, e), steps), a);
    var all := [e] + steps;
    assert all[0] == e && all[1..] == steps;
    assert forall x :: x in all ==> x == e || x in steps;
    assert WithoutDeletes(all) && Run(s, all) && After(s, all) == After(Next(s, e), steps);
  }

  lemma AlreadyDoubled(s: State, a: AccountId)
    requires TwoGuards(s, a)
    ensures CanDouble(s, a)
  {
    assert WithoutDeletes([]) && Run(s, []) && After(s, []) == s;
  }

  lemma SomeTaskIsOutside(s: State) returns (u: Task)
    ensures u !in s.tasks
  {
    u := OutsideAll(s.tasks.Keys);
  }

  lemma {:induction false} OutsideAll(tasks: set<Task>) returns (u: Task)
    ensures forall t :: t in tasks ==> t < u
  {
    if tasks == {} {
      u := 0;
    } else {
      var t :| t in tasks;
      var v := OutsideAll(tasks - {t});
      u := if t < v then v else t + 1;
      assert forall x :: x in tasks ==> x == t || x in tasks - {t};
    }
  }

  /** With one guard on a deleted account, a newcomer makes a fresh gate and becomes the second. */
  lemma NewcomerDoubles(s: State, a: AccountId, t: Task)
    requires GatesSound(s) && a !in s.gates && t in s.tasks && s.tasks[t].Guarding? && s.tasks[t].account == a
    ensures CanDouble(s, a)
  {
    var u := SomeTaskIsOutside(s);
    var s1 := Next(s, Request(u, a));
    var s2 := Next(s1, Acquire(u));
    var s3 := Next(s2, Count(u));
    assert s3.tasks[t].Guarding? && s3.tasks[u].Guarding? && s3.tasks[u].account == a && t != u;
    AlreadyDoubled(s3, a);
    CanDoubleAfter(s2, Count(u), a);
    CanDoubleAfter(s1, Acquire(u), a);
    CanDoubleAfter(s, Request(u, a), a);
  }

  lemma PermittedDoubles(s: State, a: AccountId, t: Task)
    requires GatesSound(s) && a !in s.gates && t in s.tasks && s.tasks[t].Permitted? && s.tasks[t].account == a
    ensures CanDouble(s, a)
  {
    NewcomerDoubles(Next(s, Count(t)), a, t);
    CanDoubleAfter(s, Count(t), a);
  }

  lemma OpenQueueDoubles(s: State, a: AccountId, t: Task)
    requires GatesSound(s) && a !in s.gates && t in s.tasks && s.tasks[t].Queued? && s.tasks[t].account == a
    requires s.tasks[t].gate in s.open
    ensures CanDouble(s, a)
  {
    PermittedDoubles(Next(s, Acquire(t)), a, t);
    CanDoubleAfter(s, Acquire(t), a);
  }

  /** Whoever is bound to the account when it goes can become one of two guards. */
  lemma BoundDoubles(s: State, a: AccountId, t: Task)
    requires Inv(s) && t in s.tasks && Bound(s.tasks[t], a)
    ensures CanDouble(Next(s, Delete(a)), a)
  {
    var s' := Next(s, Delete(a));
    match s.tasks[t] {
      case Guarding(_, _) => NewcomerDoubles(s', a, t);
      case Permitted(_, _) => PermittedDoubles(s', a, t);
      case Queued(_, g) =>
        if g in s.open {
          OpenQueueDoubles(s', a, t);
        } else {
          assert HasHolder(s, g);
          var h :| h in s.tasks && HasPermit(s.tasks[h]) && s.tasks[h].gate == g;
          assert s.tasks[h].account == a;
          HolderMakesWay(s', a, t, h);
        }
    }
  }

  lemma HolderMakesWay(s: State, a: AccountId, t: Task, h: Task)
    requires GatesSound(s) && a !in s.gates
    requires t in s.tasks && s.tasks[t].Queued? && s.tasks[t].account == a
    requires h in s.tasks && HasPermit(s.tasks[h]) && s.tasks[h].account == a && s.tasks[h].gate == s.tasks[t].gate
    ensures CanDouble(s, a)
  {
    match s.tasks[h] {
      case Guarding(_, _) => NewcomerDoubles(s, a, h);
      case Permitted(_, _) => PermittedDoubles(s, a, h);
      case Uncounted(_, _) =>
        OpenQueueDoubles(Next(s, Release(h)), a, t);
        CanDoubleAfter(s, Release(h), a);
    }
  }

  /** Everybody bound to the account is at its present gate, if it has one. */
  ghost predicate BoundAreCurrent(s: State, a: AccountId) {
    GatesSound(s) && PermitsSound(s) && AtPresentGate(s, a)
  }

  ghost predicate AtPresentGate(s: State, a: AccountId) {
    forall t :: t in s.tasks && Bound(s.tasks[t], a) ==> a in s.gates && s.gates[a] == s.tasks[t].gate
  }

  lemma CurrentHasOneGuard(s: State, a: AccountId)
    requires BoundAreCurrent(s, a)
    ensures !TwoGuards(s, a)
  {
  }

  lemma StepStaysCurrent(s: State, e: Step, a: AccountId)
    requires BoundAreCurrent(s, a) && Enabled(s, e) && !e.Delete?
    ensures BoundAreCurrent(Next(s, e), a)
  {
    match e {
      case Request(t, b) => RequestStaysCurrent(s, t, b, a);
      case Cancel(t) => CancelStaysCurrent(s, t, a);
      case Acquire(t) => AcquireStaysCurrent(s, t, a);
      case Release(t) => ReleaseStaysCurrent(s, t, a);
      case Count(t) => CountStaysCurrent(s, e, a);
      case Uncount(t) => CountStaysCurrent(s, e, a);
    }
  }

  lemma CancelStaysCurrent(s: State, t: Task, a: AccountId)
    requires BoundAreCurrent(s, a) && Enabled(s, Cancel(t))
    ensures BoundAreCurrent(Next(s, Cancel(t)), a)
  {
  }

  lemma AcquireStaysCurrent(s: State, t: Task, a: AccountId)
    requires BoundAreCurrent(s, a) && Enabled(s, Acquire(t))
    ensures BoundAreCurrent(Next(s, Acquire(t)), a)
  {
  }

  lemma ReleaseStaysCurrent(s: State, t: Task, a: AccountId)
    requires BoundAreCurrent(s, a) && Enabled(s, Release(t))
    ensures BoundAreCurrent(Next(s, Release(t)), a)
  {
  }

  lemma CountStaysCurrent(s: State, e: Step, a: AccountId)
    requires BoundAreCurrent(s, a) && Enabled(s, e) && (e.Count? || e.Uncount?)
    ensures BoundAreCurrent(Next(s, e), a)
  {
  }

  lemma RequestStaysCurrent(s: State, t: Task, b: AccountId, a: AccountId)
    requires BoundAreCurrent(s, a) && Enabled(s, Request(t, b))
    ensures BoundAreCurrent(Next(s, Request(t, b)), a)
  {
    RequestGates(s, t, b);
    RequestPermits(s, t, b);
    RequestIsAtPresentGate(s, t, b, a);
  }

  lemma RequestIsAtPresentGate(s: State, t: Task, b: AccountId, a: AccountId)
    requires AtPresentGate(s, a) && Enabled(s, Request(t, b))
    ensures AtPresentGate(Next(s, Request(t, b)), a)
  {
  }

  lemma {:induction false} CurrentNeverDoubles(s: State, steps: seq<Step>, a: AccountId)
    requires BoundAreCurrent(s, a) && WithoutDeletes(steps) && Run(s, steps)
    ensures !TwoGuards(After(s, steps), a)
    decreases |steps|
  {
    if steps == [] {
      CurrentHasOneGuard(s, a);
    } else {
      assert steps[0] in steps && forall e :: e in steps[1..] ==> e in steps;
      StepStaysCurrent(s, steps[0], a);
      CurrentNeverDoubles(Next(s, steps[0]), steps[1..], a);
    }
  }

  /**
   * Deleting an account can lead to two guards on it exactly when a task is queued for it, has its
   * permit, or guards it; one that has been counted out already does no harm.
   */
  lemma DeletionDoublesExactly(s: State, a: AccountId)
    requires Inv(s)
    ensures CanDouble(Next(s, Delete(a)), a) <==> SomeoneBound(s, a)
  {
    var s' := Next(s, Delete(a));
    if SomeoneBound(s, a) {
      var t :| t in s.tasks && Bound(s.tasks[t], a);
      BoundDoubles(s, a, t);
    } else {
      assert BoundAreCurrent(s', a);
      forall steps | WithoutDeletes(steps) && Run(s', steps)
        ensures !TwoGuards(After(s', steps), a)
      {
        CurrentNeverDoubles(s', steps, a);
      }
    }
  }

  /** The table stays right through a deletion exactly when nobody guards the account. */
  lemma DeletionForgetsCountExactly(s: State, a: AccountId)
    requires Inv(s)
    ensures CountsSound(Next(s, Delete(a))) <==> !Guarded(s, a)
  {
    var s' := Next(s, Delete(a));
    forall b
      ensures Guarded(s', b) <==> Guarded(s, b)
    {
      assert s'.tasks == s.tasks;
    }
  }

  /** The same from the empty start, over every run that has deleted nobody yet. */
  lemma ReachableDeletionDoublesExactly(steps: seq<Step>, a: AccountId)
    requires Run(EMPTY, steps) && WithoutDeletes(steps)
    ensures var s := After(EMPTY, steps); CanDouble(Next(s, Delete(a)), a) <==> SomeoneBound(s, a)
  {
    EmptyIsSound();
    InterleavingsKeepInv(EMPTY, steps);
    DeletionDoublesExactly(After(EMPTY, steps), a);
  }
}
