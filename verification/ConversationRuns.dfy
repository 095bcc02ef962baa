/** What whole runs keep of the thread forest and of the conversations threads carry. */
module ConversationRuns {
  import opened Prelude
  import opened Models
  import opened Bus
  import opened AccountOps
  import opened Runs
  import opened Threads
  import LeaseSafety
  import Memory
  import Replication
  import Selection

  // ---- The forest ------------------------------------------------------------------------------------

  /** The upsert an operation amounts to, if it links threads at all. */
  ghost function UpsertOf(s: Store, op: Op): Option<Upsert> {
    match op
    case UpsertThread(u) => Some(u)
    case ForkThread(tenant, parent, child, model, title, source, now) =>
      if parent in s.threads && s.threads[parent].tenantId == tenant.id
      then Some(Upsert(tenant, child, Some(s.threads[parent].threadId),
                       if model.Some? then model else s.threads[parent].model, title, source, now))
      else None
    case _ => None
  }

  /** The link the operation writes, judged before it is written, leaves a forest. */
  ghost predicate LinksSafely(s: Store, op: Op) {
    UpsertOf(s, op).Some? ==>
      var u := UpsertOf(s, op).value;
      ParentFor(s, u).None? || LinkIsSafe(s.threads, u.id, ParentFor(s, u).value)
  }

  lemma StepThreads(s: Store, op: Op, w: World)
    requires Replication.LeaderInv(s) && Legal(s, op)
    ensures var threads := Step(s, op, w).store.threads;
      match UpsertOf(s, op)
      case Some(u) => threads == Threads.UpsertThread(s, u, w.wording).store.threads
      case None => SameShape(s.threads, threads)
  {
    if IsConversation(op) {
      ConversationThreads(s, op, w);
    } else {
      OthersLeaveConversations(s, op, w);
    }
  }

  lemma ConversationThreads(s: Store, op: Op, w: World)
    requires Keyed(s) && IsConversation(op) && Legal(s, op)
    ensures var threads := ConversationStep(s, op, w).store.threads;
      match UpsertOf(s, op)
      case Some(u) => threads == Threads.UpsertThread(s, u, w.wording).store.threads
      case None => SameShape(s.threads, threads)
  {
    match op {
      case ForkThread(tenant, parent, child, model, title, source, now) => ForkThreads(s, op, w);
      case CompactThread(id, preserve, now) =>
        if id in s.threads {
          Memory.CompactFolds(s, id, preserve, now, w.wording);
          FoldsKeepShape(s, Memory.Compact(s, id, preserve, now, w.wording).store, s.threads[id].principalId);
        }
      case RecordTurn(p, summary, responseId, output, now, backing) =>
        Memory.RecordTurnFolds(s, p, summary, responseId, output, now, backing, w.wording);
        FoldsKeepShape(s, Memory.RecordTurn(s, p, summary, responseId, output, now, backing, w.wording).store, p);
      case BeginTurn(_, _, _, _) =>
      case DiscardTurn(_, _) =>
      case UpsertThread(_) =>
    }
  }

  lemma FoldsKeepShape(s: Store, s': Store, p: PrincipalId)
    requires Memory.OnlyFolds(s, s', p)
    ensures SameShape(s.threads, s'.threads)
  {
  }

  lemma ForkThreads(s: Store, op: Op, w: World)
    requires Keyed(s) && op.ForkThread?
    ensures var s' := ConversationStep(s, op, w).store;
      match UpsertOf(s, op)
      case Some(u) => s'.threads == Threads.UpsertThread(s, u, w.wording).store.threads
      case None => s' == s
  {
  }

  lemma OthersLeaveConversations(s: Store, op: Op, w: World)
    requires Replication.LeaderInv(s) && Legal(s, op) && !IsConversation(op)
    ensures SameConversations(s, Step(s, op, w).store)
  {
    if op.SelectLease? {
      Selection.ResolveWrites(s, op.selection, op.now, op.routeOrder, op.accountOrder, w.rank);
    } else if IsRouteChange(op) {
      Replication.RouteStepKeeps(s, op);
    } else {
      Replication.PlainStepKeeps(s, op);
    }
  }

  /** Same threads, same parents, same roots, same principals. */
  ghost predicate SameShape(links: Links, links': Links) {
    && links'.Keys == links.Keys
    && forall t :: t in links ==> Memory.SamePlace(links[t], links'[t])
  }

  lemma {:induction false} SameShapeUp(links: Links, links': Links, t: ThreadId, n: nat)
    requires SameShape(links, links')
    ensures Up(links', t, n) == Up(links, t, n)
    decreases n
  {
    if n > 0 && t in links && links[t].parentThreadId.Some? {
      SameShapeUp(links, links', links[t].parentThreadId.value, n - 1);
    }
  }

  lemma SameShapeGrounded(links: Links, links': Links)
    requires SameShape(links, links') && Grounded(links)
    ensures Grounded(links')
  {
    forall t | t in links'
      ensures GroundedAt(links', t)
    {
      assert GroundedAt(links, t);
      var n: nat :| EndsAt(links, t, links[t].rootThreadId, n);
      SameShapeUp(links, links', t, n);
      assert EndsAt(links', t, links'[t].rootThreadId, n);
    }
  }

  /** One operation leaves every chain ending at its root exactly when the link it writes is safe. */
  lemma StepKeepsForestExactly(s: Store, op: Op, w: World)
    requires Replication.LeaderInv(s) && Legal(s, op) && Grounded(s.threads)
    ensures Grounded(Step(s, op, w).store.threads) <==> LinksSafely(s, op)
  {
    StepThreads(s, op, w);
    if UpsertOf(s, op).Some? {
      UpsertThreadKeepsForestExactly(s, UpsertOf(s, op).value, w.wording);
    } else {
      SameShapeGrounded(s.threads, Step(s, op, w).store.threads);
    }
  }

  ghost predicate SafelyLinkedRun(s: Store, ops: seq<Op>, w: World)
    requires LeaseSafety.LegalRun(s, ops, w)
    decreases |ops|
  {
    ops == [] || (LinksSafely(s, ops[0]) && SafelyLinkedRun(Step(s, ops[0], w).store, ops[1..], w))
  }

  /**
   * From the empty start, safely linked runs keep every parent known, every link with its edge, and every
   * chain ending at its root.
   */
  lemma {:induction false} RunKeepsForest(s: Store, ops: seq<Op>, w: World)
    requires Replication.LeaderInv(s) && Grounded(s.threads)
    requires LeaseSafety.LegalRun(s, ops, w) && SafelyLinkedRun(s, ops, w)
    ensures var s' := LeaseSafety.AfterRun(s, ops, w); LinksKnown(s') && Grounded(s'.threads)
    decreases |ops|
  {
    if ops != [] {
      Replication.StepKeeps(s, ops[0], w);
      StepKeepsForestExactly(s, ops[0], w);
      RunKeepsForest(Step(s, ops[0], w).store, ops[1..], w);
    }
  }

  // ---- A discipline that keeps the forest ---------------------------------------------------------------

  /** A thread is never made its own parent, and one that has children keeps the parent it has on file. */
  ghost predicate LinksPlainly(s: Store, op: Op) {
    match UpsertOf(s, op)
    case None => true
    case Some(u) =>
      match ParentFor(s, u)
      case None => true
      case Some(p) =>
        p != u.id && (u.id in s.threads && HasChild(s.threads, u.id) ==> s.threads[u.id].parentThreadId == Some(p))
  }

  lemma PlainIsSafe(s: Store, op: Op)
    requires Replication.LeaderInv(s) && Grounded(s.threads) && LinksPlainly(s, op)
    ensures LinksSafely(s, op)
  {
    match UpsertOf(s, op) {
      case None =>
      case Some(u) =>
        if ParentFor(s, u).Some? && u.id in s.threads && HasChild(s.threads, u.id) {
          forall t | t in s.threads
            ensures ParentKnown(s.threads, t)
          {
            assert LinkKnown(s, t);
          }
          SameParentIsSafe(s.threads, u.id, ParentFor(s, u).value);
        }
    }
  }

  ghost predicate PlainlyLinkedRun(s: Store, ops: seq<Op>, w: World)
    requires LeaseSafety.LegalRun(s, ops, w)
    decreases |ops|
  {
    ops == [] || (LinksPlainly(s, ops[0]) && PlainlyLinkedRun(Step(s, ops[0], w).store, ops[1..], w))
  }

  /** In runs of that discipline every chain is finite and ends at the root on file. */
  lemma {:induction false} PlainRunKeepsForest(s: Store, ops: seq<Op>, w: World)
    requires Replication.LeaderInv(s) && Grounded(s.threads)
    requires LeaseSafety.LegalRun(s, ops, w) && PlainlyLinkedRun(s, ops, w)
    ensures var s' := LeaseSafety.AfterRun(s, ops, w); LinksKnown(s') && Grounded(s'.threads)
    decreases |ops|
  {
    if ops != [] {
      Replication.StepKeeps(s, ops[0], w);
      PlainIsSafe(s, ops[0]);
      StepKeepsForestExactly(s, ops[0], w);
      PlainRunKeepsForest(Step(s, ops[0], w).store, ops[1..], w);
    }
  }

  // ---- How long a conversation gets ---------------------------------------------------------------------

  ghost predicate Short(contexts: map<PrincipalId, Context>, p: PrincipalId) {
    p in contexts ==> |contexts[p].turns| <= Memory.TURN_LIMIT
  }

  /** No conversation that a thread stands for has more than twelve turns. */
  ghost predicate ThreadsShort(s: Store) {
    forall t {:trigger ShortAt(s, t)} :: t in s.threads ==> ShortAt(s, t)
  }

  ghost predicate ShortAt(s: Store, t: ThreadId)
    requires t in s.threads
  {
    Short(s.contexts, s.threads[t].principalId)
  }

  /** The conversations that an upsert newly attaches to a thread are short already. */
  ghost predicate AdoptsShort(s: Store, op: Op, w: World) {
    UpsertOf(s, op).Some? ==>
      var u := UpsertOf(s, op).value;
      && Short(s.contexts, PrincipalOf(u.tenant.slug, u.id, w.wording))
      && (forall p :: p in NewParents(s, u) ==> Short(s.contexts, PrincipalOf(u.tenant.slug, p, w.wording)))
  }

  lemma UpsertPrincipals(s: Store, u: Upsert, w: Memory.Wording)
    requires Keyed(s)
    ensures var s' := Threads.UpsertThread(s, u, w).store;
      && s'.contexts == s.contexts
      && u.id in s'.threads && s'.threads[u.id].principalId == PrincipalOf(u.tenant.slug, u.id, w)
      && (forall p :: p in NewParents(s, u) ==>
            p in s'.threads && s'.threads[p].principalId == PrincipalOf(u.tenant.slug, p, w))
  {
    UpsertThreadLeavesRest(s, u, w);
    UpsertThreadWrites(s, u, w);
    PlaceholderPrincipals(s, u, w);
  }

  lemma PlaceholderPrincipals(s: Store, u: Upsert, w: Memory.Wording)
    ensures var s1 := EnsureParent(s, u, w).store;
      forall p :: p in NewParents(s, u) ==>
        p in s1.threads && s1.threads[p].principalId == PrincipalOf(u.tenant.slug, p, w)
  {
  }

  lemma UpsertKeepsShortExactly(s: Store, u: Upsert, w: World)
    requires Keyed(s) && ThreadsShort(s)
    ensures ThreadsShort(Threads.UpsertThread(s, u, w.wording).store) <==> AdoptsShort(s, Op.UpsertThread(u), w)
  {
    UpsertThreadShape(s, u, w.wording);
    UpsertPrincipals(s, u, w.wording);
    var s' := Threads.UpsertThread(s, u, w.wording).store;
    if ThreadsShort(s') {
      assert ShortAt(s', u.id);
      forall p | p in NewParents(s, u)
        ensures Short(s.contexts, PrincipalOf(u.tenant.slug, p, w.wording))
      {
        assert ShortAt(s', p);
      }
    }
    if AdoptsShort(s, Op.UpsertThread(u), w) {
      forall t | t in s'.threads
        ensures ShortAt(s', t)
      {
        if t in s.threads && t != u.id {
          assert ShortAt(s, t);
        }
      }
    }
  }

  lemma ForkKeepsShort(s: Store, op: Op, w: World)
    requires Replication.LeaderInv(s) && op.ForkThread? && UpsertOf(s, op).Some? && ThreadsShort(s)
    requires ThreadsShort(Threads.UpsertThread(s, UpsertOf(s, op).value, w.wording).store)
    ensures ThreadsShort(ConversationStep(s, op, w).store)
  {
    var u := UpsertOf(s, op).value;
    var s1, s' := Threads.UpsertThread(s, u, w.wording).store, ConversationStep(s, op, w).store;
    UpsertPrincipals(s, u, w.wording);
    assert ShortAt(s, op.parent) && ShortAt(s1, op.child);
    ForkContexts(s, op, w);
    forall t | t in s'.threads
      ensures ShortAt(s', t)
    {
      assert ShortAt(s1, t);
    }
  }

  /** A fork writes no conversation but its child's, and that one is the child's own or the parent's. */
  lemma ForkContexts(s: Store, op: Op, w: World)
    requires Keyed(s) && op.ForkThread? && UpsertOf(s, op).Some?
    requires op.child in Threads.UpsertThread(s, UpsertOf(s, op).value, w.wording).store.threads
    ensures var s1 := Threads.UpsertThread(s, UpsertOf(s, op).value, w.wording).store;
      var s' := ConversationStep(s, op, w).store;
      s'.threads == s1.threads && InheritsTo(s1, s'.contexts, s1.threads[op.child].principalId, s.contexts,
                                             s.threads[op.parent].principalId)
  {
    var s1 := Threads.UpsertThread(s, UpsertOf(s, op).value, w.wording).store;
    var parent, child := s.threads[op.parent], s1.threads[op.child];
    ForkStore(s, op, w, s1);
    if parent.principalId in s.contexts {
      InheritedIsShort(s1, child, parent, s.contexts, if op.forkModel.Some? then op.forkModel else parent.model,
                       op.now);
    }
  }

  lemma ForkStore(s: Store, op: Op, w: World, s1: Store)
    requires Keyed(s) && op.ForkThread? && UpsertOf(s, op).Some?
    requires s1 == Threads.UpsertThread(s, UpsertOf(s, op).value, w.wording).store && op.child in s1.threads
    ensures var parent := s.threads[op.parent];
      ConversationStep(s, op, w).store ==
        if parent.principalId !in s.contexts then s1
        else
          var model := if op.forkModel.Some? then op.forkModel else parent.model;
          Memory.Publish(
            s1, InheritedContext(s1, s1.threads[op.child], parent, s.contexts[parent.principalId], model, op.now)).store
  {
  }

  lemma InheritedIsShort(s1: Store, child: Thread, parent: Thread, before: map<PrincipalId, Context>,
                         model: Option<string>, now: Time)
    requires parent.principalId in before
    ensures var c := InheritedContext(s1, child, parent, before[parent.principalId], model, now);
      InheritsTo(s1, s1.contexts[c.principalId := c], child.principalId, before, parent.principalId)
  {
    InheritedTurns(s1, child, parent, before[parent.principalId], model, now);
  }

  /** Only the conversation of `p` may differ, and it is short if it was and that of `q` is. */
  ghost predicate InheritsTo(s1: Store, contexts: map<PrincipalId, Context>, p: PrincipalId,
                             before: map<PrincipalId, Context>, q: PrincipalId)
  {
    && (forall x :: x in contexts && x != p ==> x in s1.contexts && contexts[x] == s1.contexts[x])
    && (Short(s1.contexts, p) && Short(before, q) ==> Short(contexts, p))
  }

  lemma InheritedTurns(s: Store, child: Thread, parent: Thread, parentContext: Context, model: Option<string>,
                       now: Time)
    ensures var c := InheritedContext(s, child, parent, parentContext, model, now);
      && c.principalId == child.principalId
      && (c.turns == parentContext.turns
          || (child.principalId in s.contexts && c.turns == s.contexts[child.principalId].turns))
  {
  }

  lemma ContextsOnlyShrink(s: Store, s': Store)
    requires ThreadsShort(s) && SameShape(s.threads, s'.threads)
    requires forall t :: t in s.threads && Short(s.contexts, s.threads[t].principalId) ==>
      Short(s'.contexts, s.threads[t].principalId)
    ensures ThreadsShort(s')
  {
    forall t | t in s'.threads
      ensures ShortAt(s', t)
    {
      assert ShortAt(s, t);
    }
  }

  lemma RecordKeepsShort(s: Store, op: Op, w: World)
    requires Replication.LeaderInv(s) && op.RecordTurn? && Legal(s, op) && ThreadsShort(s)
    ensures ThreadsShort(ConversationStep(s, op, w).store)
  {
    Memory.RecordTurnFolds(s, op.principal, op.summary, op.responseId, op.output, op.now, op.backing, w.wording);
    var s' := ConversationStep(s, op, w).store;
    forall t | t in s.threads && Short(s.contexts, s.threads[t].principalId)
      ensures Short(s'.contexts, s.threads[t].principalId)
    {
      if s.threads[t].principalId == op.principal && op.principal in s.contexts {
        Memory.RecordTurnStaysBounded(s, op.principal, op.summary, op.responseId, op.output, op.now, op.backing,
                                      w.wording);
      }
    }
    ContextsOnlyShrink(s, s');
  }

  lemma QuietStepKeepsShort(s: Store, op: Op, w: World)
    requires Replication.LeaderInv(s) && IsConversation(op) && UpsertOf(s, op).None? && !op.RecordTurn?
    ensures forall p :: Short(s.contexts, p) ==> Short(ConversationStep(s, op, w).store.contexts, p)
  {
    match op {
      case CompactThread(id, preserve, now) => CompactShortens(s, id, preserve, now, w);
      case BeginTurn(_, _, _, _) =>
      case DiscardTurn(_, _) =>
      case ForkThread(_, _, _, _, _, _, _) => ForkThreads(s, op, w);
    }
  }

  lemma CompactShortens(s: Store, id: ThreadId, preserve: nat, now: Time, w: World)
    requires Keyed(s)
    ensures id in s.threads ==>
      forall p :: Short(s.contexts, p) ==> Short(Memory.Compact(s, id, preserve, now, w.wording).store.contexts, p)
  {
    if id in s.threads {
      Memory.CompactFolds(s, id, preserve, now, w.wording);
      var p := s.threads[id].principalId;
      var keep := Memory.Kept(preserve);
      if p in s.contexts && |s.contexts[p].turns| > keep {
        Memory.CompactCases(s, id, preserve, now, w.wording);
      }
    }
  }

  /** One operation keeps thread conversations short when it attaches no thread to a long one. */
  lemma StepKeepsShort(s: Store, op: Op, w: World)
    requires Replication.LeaderInv(s) && Legal(s, op) && ThreadsShort(s) && AdoptsShort(s, op, w)
    ensures ThreadsShort(Step(s, op, w).store)
  {
    var s' := Step(s, op, w).store;
    if UpsertOf(s, op).Some? {
      UpsertKeepsShortExactly(s, UpsertOf(s, op).value, w);
      if op.ForkThread? {
        ForkKeepsShort(s, op, w);
      }
    } else if op.RecordTurn? {
      RecordKeepsShort(s, op, w);
    } else {
      StepThreads(s, op, w);
      if IsConversation(op) {
        QuietStepKeepsShort(s, op, w);
      } else {
        OthersLeaveConversations(s, op, w);
      }
      ContextsOnlyShrink(s, s');
    }
  }

  ghost predicate ShortlyAdoptingRun(s: Store, ops: seq<Op>, w: World)
    requires LeaseSafety.LegalRun(s, ops, w)
    decreases |ops|
  {
    ops == [] || (AdoptsShort(s, ops[0], w) && ShortlyAdoptingRun(Step(s, ops[0], w).store, ops[1..], w))
  }

  lemma {:induction false} RunKeepsShort(s: Store, ops: seq<Op>, w: World)
    requires Replication.LeaderInv(s) && ThreadsShort(s)
    requires LeaseSafety.LegalRun(s, ops, w) && ShortlyAdoptingRun(s, ops, w)
    ensures ThreadsShort(LeaseSafety.AfterRun(s, ops, w))
    decreases |ops|
  {
    if ops != [] {
      Replication.StepKeeps(s, ops[0], w);
      StepKeepsShort(s, ops[0], w);
      RunKeepsShort(Step(s, ops[0], w).store, ops[1..], w);
    }
  }
}
