/** Conversation threads: a parent link, a root, and one edge for every fork. */
module Threads {
  import opened Prelude
  import opened Models
  import opened Bus
  import opened AccountOps
  import Memory
  import Text

  const FORK := "fork"
  const ACTIVE := "active"

  function Normalize(id: string): ThreadId {
    Text.Replace(Text.Trim(id), ' ', '_')
  }

  function PrincipalOf(slug: string, id: ThreadId, w: Memory.Wording): PrincipalId {
    w.tenantMark + slug + w.threadMark + id
  }

  lemma NormalizeTwice(id: string)
    ensures Normalize(Normalize(id)) == Normalize(id)
  {
    var n := Normalize(id);
    Text.TrimFixed(id);
    if n != "" {
      assert n[0] == Text.Trim(id)[0] && n[|n| - 1] == Text.Trim(id)[|n| - 1];
      Text.TrimFixed(n);
    }
    assert Text.Replace(n, ' ', '_') == n;
  }

  /** What one upsert is asked to record; identifiers are already normalised. */
  datatype Upsert = Upsert(
    tenant: Tenant, id: ThreadId, parent: Option<ThreadId>, model: Option<string>, title: Option<string>,
    source: string, now: Time)

  function NormalizedUpsert(
      tenant: Tenant, id: string, parent: Option<string>, model: Option<string>, title: Option<string>, source: string,
      now: Time): Upsert
  {
    Upsert(tenant, Normalize(id), if parent.Some? then Some(Normalize(parent.value)) else None, model, title, source,
           now)
  }

  /** An upsert that names no parent keeps the one on file. */
  function ParentFor(s: Store, u: Upsert): Option<ThreadId> {
    if u.parent.Some? then u.parent
    else if u.id in s.threads then s.threads[u.id].parentThreadId
    else None
  }

  function Placeholder(u: Upsert, parent: ThreadId, w: Memory.Wording): Thread {
    Thread(parent, u.tenant.id, PrincipalOf(u.tenant.slug, parent, w), parent, None, Some(w.placeholderTitle), u.model,
           w.placeholderSource, ACTIVE, None, None, u.now, u.now)
  }

  /** A parent nobody has seen yet is entered as a root of its own. */
  function EnsureParent(s: Store, u: Upsert, w: Memory.Wording): Outcome {
    match ParentFor(s, u)
    case None => Outcome(s, SILENT)
    case Some(parent) =>
      if parent in s.threads then Outcome(s, SILENT)
      else
        var t := Placeholder(u, parent, w);
        Outcome(s.(threads := s.threads[parent := t]), [ThreadUpsert(t)])
  }

  /** `s` is the store before the parent was ensured, `s1` the store after. */
  function RootFor(s: Store, s1: Store, u: Upsert): ThreadId {
    match ParentFor(s, u)
    case Some(parent) => if parent in s1.threads then s1.threads[parent].rootThreadId else parent
    case None => if u.id in s.threads then s.threads[u.id].rootThreadId else u.id
  }

  function Written(s: Store, s1: Store, u: Upsert, w: Memory.Wording): Thread {
    var base :=
      if u.id in s1.threads then s1.threads[u.id]
      else Thread(u.id, u.tenant.id, "", u.id, None, u.title, u.model, u.source, ACTIVE, None, None, u.now, u.now);
    base.(
      tenantId := u.tenant.id,
      principalId := PrincipalOf(u.tenant.slug, u.id, w),
      rootThreadId := RootFor(s, s1, u),
      parentThreadId := ParentFor(s, u),
      title := if u.title.Some? then u.title else base.title,
      model := if u.model.Some? then u.model else base.model,
      source := u.source,
      status := ACTIVE,
      updatedAt := u.now)
  }

  function WriteThread(s: Store, t: Thread): Outcome {
    Outcome(s.(threads := s.threads[t.threadId := t]), [ThreadUpsert(t)])
  }

  function AppendEdge(s: Store, e: Edge): Outcome {
    if KnowsEdge(s.edges, e) then Outcome(s, SILENT) else Outcome(s.(edges := s.edges + [e]), [EdgeUpsert(e)])
  }

  function EdgeFor(s: Store, u: Upsert): Option<Edge> {
    match ParentFor(s, u)
    case None => None
    case Some(parent) => Some(Edge(parent, u.id, FORK, u.now))
  }

  function UpsertThread(s: Store, u: Upsert, w: Memory.Wording): Outcome {
    var ensured := EnsureParent(s, u, w);
    var written := Then(ensured, WriteThread(ensured.store, Written(s, ensured.store, u, w)));
    match EdgeFor(s, u)
    case None => written
    case Some(e) => Then(written, AppendEdge(written.store, e))
  }

  /** A fork records the child and hands it the parent's conversation, unless it already has one. */
  function InheritedContext(s: Store, child: Thread, parent: Thread, parentContext: Context, model: Option<string>,
                            now: Time): Context {
    var inheritedModel := model.UnwrapOr(parentContext.model);
    var spine :=
      if parent.compactionSummary.Some? && !Text.IsBlank(parent.compactionSummary.value)
      then parent.compactionSummary.value
      else parentContext.workflowSpine;
    var c :=
      if child.principalId in s.contexts then s.contexts[child.principalId]
      else Context(child.principalId, inheritedModel, spine, None, parentContext.turns, Some(now));
    c.(principalId := child.principalId,
       model := inheritedModel,
       workflowSpine := if Text.IsBlank(c.workflowSpine) then spine else c.workflowSpine,
       turns := if c.turns == [] then parentContext.turns else c.turns,
       pendingTurn := None,
       updatedAt := Some(now))
  }

  datatype ForkError = TenantNotFound | ParentNotFound | ParentOfAnotherTenant

  datatype ForkResult = Forked(outcome: Outcome) | Refused(error: ForkError)

  function ForkThread(s: Store, tenant: Tenant, parentId: ThreadId, childId: ThreadId, model: Option<string>,
                      title: Option<string>, source: string, now: Time, w: Memory.Wording): ForkResult
  {
    if parentId !in s.threads then Refused(ParentNotFound)
    else if s.threads[parentId].tenantId != tenant.id then Refused(ParentOfAnotherTenant)
    else
      var parent := s.threads[parentId];
      var model' := if model.Some? then model else parent.model;
      var upserted := UpsertThread(s, Upsert(tenant, childId, Some(parent.threadId), model', title, source, now), w);
      if parent.principalId !in s.contexts || childId !in upserted.store.threads then Forked(upserted)
      else
        var c := InheritedContext(upserted.store, upserted.store.threads[childId], parent,
                                  s.contexts[parent.principalId], model', now);
        var inherited := Memory.Publish(upserted.store, c);
        Forked(Then(upserted, inherited))
  }

  /** A fork as a client asks for it; a child without a name is given a generated one. */
  datatype ForkRequest = ForkRequest(
    tenantId: TenantId, parentId: string, childId: Option<string>, model: Option<string>, title: Option<string>,
    source: Option<string>)

  const INTERNAL_FORK := "internal_fork"

  function ForkNamed(s: Store, r: ForkRequest, generated: ThreadId, now: Time, w: Memory.Wording): ForkResult {
    if r.tenantId !in s.tenants then Refused(TenantNotFound)
    else
      var child := if r.childId.Some? then Normalize(r.childId.value) else generated;
      ForkThread(s, s.tenants[r.tenantId], Normalize(r.parentId), child, r.model, r.title,
                 r.source.UnwrapOr(INTERNAL_FORK), now, w)
  }

  // ---- The messages rebuild the change ------------------------------------------------------------------

  lemma UpsertThreadBridges(s: Store, u: Upsert, w: Memory.Wording)
    requires Keyed(s)
    ensures Bridges(s, UpsertThread(s, u, w))
    ensures Keyed(UpsertThread(s, u, w).store)
  {
    var ensured := EnsureParent(s, u, w);
    EnsureParentBridges(s, u, w);
    var t := Written(s, ensured.store, u, w);
    WriteThreadBridges(ensured.store, t);
    ThenBridges(s, ensured, WriteThread(ensured.store, t));
    var written := Then(ensured, WriteThread(ensured.store, t));
    if EdgeFor(s, u).Some? {
      var e := EdgeFor(s, u).value;
      AppendEdgeBridges(written.store, e);
      ThenBridges(s, written, AppendEdge(written.store, e));
    }
  }

  lemma EnsureParentBridges(s: Store, u: Upsert, w: Memory.Wording)
    requires Keyed(s)
    ensures Bridges(s, EnsureParent(s, u, w)) && Keyed(EnsureParent(s, u, w).store)
  {
    var o := EnsureParent(s, u, w);
    if o.sent != [] {
      ApplyOne(s, o.sent[0]);
    }
  }

  lemma WriteThreadBridges(s: Store, t: Thread)
    requires Keyed(s)
    ensures Bridges(s, WriteThread(s, t)) && Keyed(WriteThread(s, t).store)
  {
    ApplyOne(s, ThreadUpsert(t));
  }

  lemma AppendEdgeBridges(s: Store, e: Edge)
    requires Keyed(s)
    ensures Bridges(s, AppendEdge(s, e)) && Keyed(AppendEdge(s, e).store)
  {
    ApplyOne(s, EdgeUpsert(e));
  }

  lemma ForkThreadBridges(s: Store, tenant: Tenant, parentId: ThreadId, childId: ThreadId, model: Option<string>,
                          title: Option<string>, source: string, now: Time, w: Memory.Wording)
    requires Keyed(s)
    ensures var r := ForkThread(s, tenant, parentId, childId, model, title, source, now, w);
      r.Forked? ==> Bridges(s, r.outcome) && Keyed(r.outcome.store)
  {
    var r := ForkThread(s, tenant, parentId, childId, model, title, source, now, w);
    if r.Forked? {
      var parent := s.threads[parentId];
      var model' := if model.Some? then model else parent.model;
      var u := Upsert(tenant, childId, Some(parent.threadId), model', title, source, now);
      UpsertThreadBridges(s, u, w);
      var upserted := UpsertThread(s, u, w);
      if parent.principalId in s.contexts && childId in upserted.store.threads {
        var c := InheritedContext(upserted.store, upserted.store.threads[childId], parent,
                                  s.contexts[parent.principalId], model', now);
        Memory.PublishBridges(upserted.store, c);
        ThenBridges(s, upserted, Memory.Publish(upserted.store, c));
      }
    }
  }

  // ---- What every run keeps -----------------------------------------------------------------------------

  /** The parent of `t`, if it has one, is a known thread, and the link has its edge. */
  ghost predicate LinkKnown(s: Store, t: ThreadId)
    requires t in s.threads
  {
    s.threads[t].parentThreadId.Some? ==>
      && s.threads[t].parentThreadId.value in s.threads
      && HasEdge(s.edges, s.threads[t].parentThreadId.value, t)
  }

  ghost predicate HasEdge(edges: seq<Edge>, parent: ThreadId, child: ThreadId) {
    exists i :: 0 <= i < |edges| && edges[i].parent == parent && edges[i].child == child && edges[i].relation == FORK
  }

  ghost predicate EdgesSound(edges: seq<Edge>, known: set<ThreadId>) {
    && (forall i :: 0 <= i < |edges| ==> edges[i].parent in known && edges[i].child in known)
    && (forall i, j :: 0 <= i < j < |edges| ==> !SameLink(edges[i], edges[j]))
  }

  ghost predicate LinksKnown(s: Store) {
    && (forall t {:trigger LinkKnown(s, t)} :: t in s.threads ==> LinkKnown(s, t))
    && EdgesSound(s.edges, s.threads.Keys)
  }

  lemma EnsureParentShape(s: Store, u: Upsert, w: Memory.Wording)
    ensures var s1 := EnsureParent(s, u, w).store;
      && s1.threads.Keys == s.threads.Keys + NewParents(s, u)
      && (forall t :: t in s.threads ==> s1.threads[t] == s.threads[t])
      && (forall t :: t in NewParents(s, u) ==>
            s1.threads[t].parentThreadId.None? && s1.threads[t].rootThreadId == t && s1.threads[t].threadId == t)
  {
    if NewParents(s, u) != {} {
      var parent := ParentFor(s, u).value;
      assert EnsureParent(s, u, w).store.threads == s.threads[parent := Placeholder(u, parent, w)];
    }
  }

  /** The parent an upsert has to enter first, if it names one that nobody has seen. */
  ghost function NewParents(s: Store, u: Upsert): set<ThreadId> {
    if ParentFor(s, u).Some? && ParentFor(s, u).value !in s.threads then {ParentFor(s, u).value} else {}
  }

  lemma WrittenShape(s: Store, s1: Store, u: Upsert, w: Memory.Wording)
    requires u.id in s1.threads ==> s1.threads[u.id].threadId == u.id
    ensures var t := Written(s, s1, u, w);
      t.threadId == u.id && t.parentThreadId == ParentFor(s, u) && t.rootThreadId == RootFor(s, s1, u)
  {
  }

  lemma UpsertThreadWrites(s: Store, u: Upsert, w: Memory.Wording)
    requires u.id in s.threads ==> s.threads[u.id].threadId == u.id
    ensures var s1 := EnsureParent(s, u, w).store;
      UpsertThread(s, u, w).store.threads == s1.threads[u.id := Written(s, s1, u, w)]
  {
    EnsureParentShape(s, u, w);
    WrittenShape(s, EnsureParent(s, u, w).store, u, w);
  }

  /** How one upsert changes the threads: it writes one, and may enter its parent as a new root. */
  lemma UpsertThreadShape(s: Store, u: Upsert, w: Memory.Wording)
    requires Keyed(s)
    ensures var s', s1 := UpsertThread(s, u, w).store, EnsureParent(s, u, w).store;
      && s'.threads.Keys == s.threads.Keys + {u.id} + NewParents(s, u)
      && s'.threads[u.id].parentThreadId == ParentFor(s, u) && s'.threads[u.id].rootThreadId == RootFor(s, s1, u)
      && (forall t :: t in s.threads && t != u.id ==> s'.threads[t] == s.threads[t])
      && (forall t :: t in NewParents(s, u) && t != u.id ==>
            s'.threads[t].parentThreadId.None? && s'.threads[t].rootThreadId == t)
  {
    EnsureParentShape(s, u, w);
    UpsertThreadWrites(s, u, w);
    WrittenShape(s, EnsureParent(s, u, w).store, u, w);
  }

  /** Only threads and edges change. */
  lemma UpsertThreadLeavesRest(s: Store, u: Upsert, w: Memory.Wording)
    ensures var s' := UpsertThread(s, u, w).store; s' == s.(threads := s'.threads, edges := s'.edges)
  {
    var s1 := EnsureParent(s, u, w).store;
    assert s1 == s.(threads := s1.threads);
  }

  lemma UpsertThreadEdges(s: Store, u: Upsert, w: Memory.Wording)
    ensures var s' := UpsertThread(s, u, w).store;
      if EdgeFor(s, u).None? || KnowsEdge(s.edges, EdgeFor(s, u).value) then s'.edges == s.edges
      else s'.edges == s.edges + [EdgeFor(s, u).value]
  {
  }

  /** Every parent and every edge endpoint is a known thread, no edge is doubled, and every link has its edge. */
  lemma UpsertThreadKeepsLinks(s: Store, u: Upsert, w: Memory.Wording)
    requires Keyed(s) && LinksKnown(s)
    ensures LinksKnown(UpsertThread(s, u, w).store)
  {
    UpsertThreadShape(s, u, w);
    UpsertThreadEdges(s, u, w);
    var s' := UpsertThread(s, u, w).store;
    forall t | t in s'.threads
      ensures LinkKnown(s', t)
    {
      if t != u.id && t in s.threads {
        assert LinkKnown(s, t);
        OldEdges(s, u, w, t);
      } else if t == u.id && ParentFor(s, u).Some? {
        NewEdge(s, u, w);
      }
    }
    EdgesStaySound(s.edges, s.threads.Keys, EdgeFor(s, u), s'.edges, s'.threads.Keys);
  }

  lemma EdgesStaySound(edges: seq<Edge>, known: set<ThreadId>, e: Option<Edge>, edges': seq<Edge>,
                       known': set<ThreadId>)
    requires EdgesSound(edges, known) && known <= known'
    requires e.Some? ==> e.value.parent in known' && e.value.child in known'
    requires edges' == if e.None? || KnowsEdge(edges, e.value) then edges else edges + [e.value]
    ensures EdgesSound(edges', known')
  {
    if edges' != edges {
      forall i | 0 <= i < |edges|
        ensures !SameLink(edges[i], e.value)
      {
      }
    }
  }

  lemma OldEdges(s: Store, u: Upsert, w: Memory.Wording, t: ThreadId)
    requires Keyed(s)
    ensures forall parent :: HasEdge(s.edges, parent, t) ==> HasEdge(UpsertThread(s, u, w).store.edges, parent, t)
  {
    UpsertThreadEdges(s, u, w);
    var edges' := UpsertThread(s, u, w).store.edges;
    forall parent | HasEdge(s.edges, parent, t)
      ensures HasEdge(edges', parent, t)
    {
      var i :|
        0 <= i < |s.edges| && s.edges[i].parent == parent && s.edges[i].child == t && s.edges[i].relation == FORK;
      assert edges'[i] == s.edges[i];
    }
  }

  lemma NewEdge(s: Store, u: Upsert, w: Memory.Wording)
    requires ParentFor(s, u).Some?
    ensures HasEdge(UpsertThread(s, u, w).store.edges, ParentFor(s, u).value, u.id)
  {
    UpsertThreadEdges(s, u, w);
    var e, edges' := EdgeFor(s, u).value, UpsertThread(s, u, w).store.edges;
    if KnowsEdge(s.edges, e) {
      var i :| 0 <= i < |s.edges| && SameLink(s.edges[i], e);
      assert edges'[i].parent == e.parent && edges'[i].child == e.child && edges'[i].relation == FORK;
    } else {
      assert edges'[|s.edges|] == e;
    }
  }

  // ---- The forest ------------------------------------------------------------------------------------------

  type Links = map<ThreadId, Thread>

  /** The thread n parent links above `t`, if there are that many. */
  ghost function Up(links: Links, t: ThreadId, n: nat): Option<ThreadId>
    decreases n
  {
    if n == 0 then Some(t)
    else if t in links && links[t].parentThreadId.Some? then Up(links, links[t].parentThreadId.value, n - 1)
    else None
  }

  /** The chain of `t` ends after n links, at a thread without a parent. */
  ghost predicate EndsAt(links: Links, t: ThreadId, root: ThreadId, n: nat) {
    Up(links, t, n) == Some(root) && root in links && links[root].parentThreadId.None?
  }

  /** Every parent chain is finite and ends at the root on file. */
  ghost predicate Grounded(links: Links) {
    forall t {:trigger GroundedAt(links, t)} :: t in links ==> GroundedAt(links, t)
  }

  ghost predicate GroundedAt(links: Links, t: ThreadId)
    requires t in links
  {
    exists n: nat :: EndsAt(links, t, links[t].rootThreadId, n)
  }

  ghost predicate IsAbove(links: Links, a: ThreadId, t: ThreadId) {
    exists n: nat :: Up(links, t, n) == Some(a)
  }

  ghost predicate HasChild(links: Links, id: ThreadId) {
    exists t :: t in links && links[t].parentThreadId == Some(id)
  }

  lemma {:induction false} UpPlus(links: Links, t: ThreadId, m: nat, n: nat)
    requires Up(links, t, m).Some?
    ensures Up(links, t, m + n) == Up(links, Up(links, t, m).value, n)
    decreases m
  {
    if m > 0 {
      UpPlus(links, links[t].parentThreadId.value, m - 1, n);
    }
  }

  lemma ChainIsUnique(links: Links, t: ThreadId, a: ThreadId, m: nat, b: ThreadId, n: nat)
    requires EndsAt(links, t, a, m) && EndsAt(links, t, b, n)
    ensures a == b && m == n
  {
    if m < n {
      UpPlus(links, t, m, n - m);
    } else if n < m {
      UpPlus(links, t, n, m - n);
    }
  }

  /** A thread that sits above itself has no end to its chain. */
  lemma {:induction false} CycleHasNoEnd(links: Links, t: ThreadId, k: nat, root: ThreadId, n: nat)
    requires k > 0 && Up(links, t, k) == Some(t)
    ensures !EndsAt(links, t, root, n)
    decreases n
  {
    if EndsAt(links, t, root, n) {
      if n >= k {
        UpPlus(links, t, k, n - k);
        CycleHasNoEnd(links, t, k, root, n - k);
      } else {
        UpPlus(links, t, n, k - n);
      }
    }
  }

  /** Chains that do not pass through `id` are untouched by a write to `id`. */
  lemma {:induction false} ChainAvoiding(links: Links, links': Links, id: ThreadId, t: ThreadId, root: ThreadId, n: nat)
    requires EndsAt(links, t, root, n)
    requires forall i: nat :: i <= n ==> Up(links, t, i) != Some(id)
    requires forall x :: x in links && x != id ==> x in links' && links'[x].parentThreadId == links[x].parentThreadId
    ensures EndsAt(links', t, root, n)
    ensures forall i: nat :: i <= n ==> Up(links', t, i) == Up(links, t, i)
    decreases n
  {
    assert Up(links, t, 0) == Some(t);
    if n > 0 {
      var p := links[t].parentThreadId.value;
      forall i: nat | i <= n - 1
        ensures Up(links, p, i) != Some(id)
      {
        assert Up(links, t, i + 1) == Up(links, p, i);
      }
      ChainAvoiding(links, links', id, p, root, n - 1);
      forall i: nat | i <= n
        ensures Up(links', t, i) == Up(links, t, i)
      {
        if i > 0 {
          assert Up(links', t, i) == Up(links', p, i - 1);
        }
      }
    }
  }

  /**
   * Whether a write that gives `id` the parent `p` leaves the forest a forest, told before the
   * write: the parent must not be below `id`, and children already filed under `id` must be going
   * to the root they are filed with.
   */
  ghost predicate LinkIsSafe(links: Links, id: ThreadId, p: ThreadId) {
    p != id &&
    (id in links && HasChild(links, id) ==>
       p in links && !IsAbove(links, id, p) && links[p].rootThreadId == links[id].rootThreadId)
  }

  /** What an upsert does to the links: `id` is written, and a missing parent is entered as a root. */
  ghost predicate Linked(links: Links, links': Links, id: ThreadId, p: ThreadId) {
    && links'.Keys == links.Keys + {id, p}
    && links'[id].parentThreadId == Some(p)
    && (p != id ==> links'[id].rootThreadId == links'[p].rootThreadId)
    && (forall t :: t in links && t != id ==> links'[t] == links[t])
    && (forall t :: t in links' && t != id && t !in links ==>
          links'[t].parentThreadId.None? && links'[t].rootThreadId == t)
  }

  ghost predicate ParentsKnown(links: Links) {
    forall t {:trigger ParentKnown(links, t)} :: t in links ==> ParentKnown(links, t)
  }

  ghost predicate ParentKnown(links: Links, t: ThreadId)
    requires t in links
  {
    links[t].parentThreadId.Some? ==> links[t].parentThreadId.value in links
  }

  /** If the chain of `t` ever reaches `id`, it does so at a last position before its end. */
  lemma {:induction false} WithoutChildUnreached(links: Links, id: ThreadId, t: ThreadId, n: nat)
    requires ParentsKnown(links) && t in links && t != id && !HasChild(links, id)
    ensures Up(links, t, n) != Some(id)
    decreases n
  {
    if n > 0 && links[t].parentThreadId.Some? {
      var p := links[t].parentThreadId.value;
      assert p != id && ParentKnown(links, t);
      WithoutChildUnreached(links, id, p, n - 1);
    }
  }

  lemma ParentChain(links: Links, links': Links, id: ThreadId, p: ThreadId) returns (n: nat)
    requires Grounded(links) && ParentsKnown(links) && Linked(links, links', id, p) && LinkIsSafe(links, id, p)
    ensures EndsAt(links', p, links'[p].rootThreadId, n) && Up(links', id, n + 1) == Some(links'[p].rootThreadId)
  {
    if p !in links {
      n := 0;
    } else {
      var root := links[p].rootThreadId;
      assert GroundedAt(links, p);
      n :| EndsAt(links, p, root, n);
      forall i: nat | i <= n
        ensures Up(links, p, i) != Some(id)
      {
        if id in links && !HasChild(links, id) {
          WithoutChildUnreached(links, id, p, i);
        } else if id !in links {
          StaysKnown(links, p, i);
        } else {
          assert !IsAbove(links, id, p);
        }
      }
      ChainAvoiding(links, links', id, p, root, n);
    }
    assert Up(links', id, n + 1) == Up(links', p, n);
  }

  lemma {:induction false} StaysKnown(links: Links, t: ThreadId, n: nat)
    requires ParentsKnown(links) && t in links
    ensures Up(links, t, n).Some? ==> Up(links, t, n).value in links
    decreases n
  {
    if n > 0 && links[t].parentThreadId.Some? {
      assert ParentKnown(links, t);
      StaysKnown(links, links[t].parentThreadId.value, n - 1);
    }
  }

  /** The chain of any other thread, after the write. */
  lemma {:induction false} OtherChain(links: Links, links': Links, id: ThreadId, p: ThreadId, t: ThreadId, n: nat)
      returns (k: nat)
    requires Grounded(links) && ParentsKnown(links) && Linked(links, links', id, p) && LinkIsSafe(links, id, p)
    requires t in links && EndsAt(links, t, links[t].rootThreadId, n)
    ensures t != id ==> EndsAt(links', t, links[t].rootThreadId, k)
    ensures t == id && HasChild(links, id) ==> EndsAt(links', t, links[t].rootThreadId, k)
    decreases n
  {
    k := 0;
    if t == id {
      if HasChild(links, id) {
        var m := ParentChain(links, links', id, p);
        k := m + 1;
      }
    } else if n == 0 {
      k := 0;
    } else {
      var q := links[t].parentThreadId.value;
      var root := links[t].rootThreadId;
      assert ParentKnown(links, t) && GroundedAt(links, q);
      assert EndsAt(links, q, root, n - 1);
      var m: nat :| EndsAt(links, q, links[q].rootThreadId, m);
      ChainIsUnique(links, q, root, n - 1, links[q].rootThreadId, m);
      assert q == id ==> HasChild(links, id);
      var k' := OtherChain(links, links', id, p, q, n - 1);
      k := k' + 1;
      assert Up(links', t, k) == Up(links', q, k');
    }
  }

  lemma SafeLinkStaysGrounded(links: Links, links': Links, id: ThreadId, p: ThreadId)
    requires Grounded(links) && ParentsKnown(links) && Linked(links, links', id, p) && LinkIsSafe(links, id, p)
    ensures Grounded(links')
  {
    forall t | t in links'
      ensures GroundedAt(links', t)
    {
      if t == id {
        var n := ParentChain(links, links', id, p);
        assert EndsAt(links', t, links'[t].rootThreadId, n + 1);
      } else if t in links {
        assert GroundedAt(links, t);
        var n: nat :| EndsAt(links, t, links[t].rootThreadId, n);
        var k := OtherChain(links, links', id, p, t, n);
        assert EndsAt(links', t, links'[t].rootThreadId, k);
      } else {
        assert EndsAt(links', t, t, 0);
      }
    }
  }

  /** Writing the parent that is already on file is always safe. */
  lemma SameParentIsSafe(links: Links, id: ThreadId, p: ThreadId)
    requires Grounded(links) && ParentsKnown(links) && id in links && links[id].parentThreadId == Some(p)
    ensures LinkIsSafe(links, id, p)
  {
    assert ParentKnown(links, id) && GroundedAt(links, id) && GroundedAt(links, p);
    var m: nat :| EndsAt(links, id, links[id].rootThreadId, m);
    var n: nat :| EndsAt(links, p, links[p].rootThreadId, n);
    assert Up(links, id, n + 1) == Up(links, p, n);
    ChainIsUnique(links, id, links[id].rootThreadId, m, links[p].rootThreadId, n + 1);
    forall k: nat
      ensures Up(links, p, k) != Some(id)
    {
      if Up(links, p, k) == Some(id) {
        assert Up(links, id, k + 1) == Some(id);
        CycleHasNoEnd(links, id, k + 1, links[id].rootThreadId, m);
      }
    }
    assert Up(links, p, 0) == Some(p);
  }

  /** An unsafe link breaks the forest: a cycle, or a child filed under a root its chain no longer reaches. */
  lemma UnsafeLinkBreaksForest(links: Links, links': Links, id: ThreadId, p: ThreadId)
    requires Grounded(links) && ParentsKnown(links) && Linked(links, links', id, p) && !LinkIsSafe(links, id, p)
    ensures !Grounded(links')
  {
    if Grounded(links') {
      assert GroundedAt(links', id);
      var n: nat :| EndsAt(links', id, links'[id].rootThreadId, n);
      if p == id {
        assert Up(links', id, 1) == Up(links', id, 0) == Some(id);
        CycleHasNoEnd(links', id, 1, links'[id].rootThreadId, n);
      } else {
        var c :| c in links && links[c].parentThreadId == Some(id);
        if p in links && IsAbove(links, id, p) {
          var k: nat :| Up(links, p, k) == Some(id);
          var k' := FirstReach(links, links', id, p, k);
          assert Up(links', id, k' + 1) == Up(links', p, k');
          CycleHasNoEnd(links', id, k' + 1, links'[id].rootThreadId, n);
        } else if p !in links {
          StrandedChild(links, links', id, p, c);
        } else {
          StrandedChild(links, links', id, p, c);
        }
      }
    }
  }

  /** The links up to the first visit of `id` are the same before and after the write. */
  lemma {:induction false} FirstReach(links: Links, links': Links, id: ThreadId, t: ThreadId, k: nat) returns (k': nat)
    requires Up(links, t, k) == Some(id)
    requires forall x :: x in links && x != id ==> x in links' && links'[x].parentThreadId == links[x].parentThreadId
    ensures Up(links', t, k') == Some(id)
    decreases k
  {
    if t == id {
      k' := 0;
    } else {
      var q := links[t].parentThreadId.value;
      var j := FirstReach(links, links', id, q, k - 1);
      k' := j + 1;
      assert Up(links', t, k') == Up(links', q, j);
    }
  }

  lemma StrandedChild(links: Links, links': Links, id: ThreadId, p: ThreadId, c: ThreadId)
    requires Grounded(links) && Linked(links, links', id, p) && p != id && id in links
    requires c in links && links[c].parentThreadId == Some(id)
    requires p in links ==> links[p].rootThreadId != links[id].rootThreadId
    ensures !Grounded(links')
  {
    if Grounded(links') {
      assert GroundedAt(links, c) && GroundedAt(links, id) && GroundedAt(links', c) && GroundedAt(links', id);
      var n: nat :| EndsAt(links, c, links[c].rootThreadId, n);
      assert n > 0 && EndsAt(links, id, links[c].rootThreadId, n - 1);
      var m: nat :| EndsAt(links, id, links[id].rootThreadId, m);
      ChainIsUnique(links, id, links[c].rootThreadId, n - 1, links[id].rootThreadId, m);
      if c == id {
        CycleHasNoEnd(links, c, 1, links[c].rootThreadId, n) by { assert Up(links, c, 1) == Up(links, id, 0); }
      }
      var k: nat :| EndsAt(links', c, links'[c].rootThreadId, k);
      assert k > 0 && EndsAt(links', id, links'[c].rootThreadId, k - 1);
      var j: nat :| EndsAt(links', id, links'[id].rootThreadId, j);
      ChainIsUnique(links', id, links'[c].rootThreadId, k - 1, links'[id].rootThreadId, j);
    }
  }

  /** The forest survives an upsert exactly when the link it writes is safe. */
  lemma UpsertThreadKeepsForestExactly(s: Store, u: Upsert, w: Memory.Wording)
    requires Keyed(s) && LinksKnown(s) && Grounded(s.threads)
    ensures Grounded(UpsertThread(s, u, w).store.threads)
       <==> ParentFor(s, u).None? || LinkIsSafe(s.threads, u.id, ParentFor(s, u).value)
  {
    UpsertThreadShape(s, u, w);
    var links, links' := s.threads, UpsertThread(s, u, w).store.threads;
    match ParentFor(s, u) {
      case Some(p) =>
        assert Linked(links, links', u.id, p);
        forall t | t in links
          ensures ParentKnown(links, t)
        {
          assert LinkKnown(s, t);
        }
        if LinkIsSafe(links, u.id, p) {
          SafeLinkStaysGrounded(links, links', u.id, p);
        } else {
          UnsafeLinkBreaksForest(links, links', u.id, p);
        }
      case None =>
        UnlinkedStaysGrounded(s, u, w);
    }
  }

  lemma UnlinkedStaysGrounded(s: Store, u: Upsert, w: Memory.Wording)
    requires Keyed(s) && Grounded(s.threads) && ParentFor(s, u).None?
    ensures Grounded(UpsertThread(s, u, w).store.threads)
  {
    UpsertThreadShape(s, u, w);
    var links, links' := s.threads, UpsertThread(s, u, w).store.threads;
    forall t | t in links'
      ensures GroundedAt(links', t)
    {
      if t in links {
        assert GroundedAt(links, t);
        var n: nat :| EndsAt(links, t, links[t].rootThreadId, n);
        SameLinks(links, links', t, n);
        assert links'[t].rootThreadId == links[t].rootThreadId;
        assert EndsAt(links', t, links[t].rootThreadId, n);
      } else {
        assert EndsAt(links', t, t, 0);
      }
    }
  }

  lemma {:induction false} SameLinks(links: Links, links': Links, t: ThreadId, n: nat)
    requires forall x :: x in links ==> x in links' && links'[x].parentThreadId == links[x].parentThreadId
    requires Up(links, t, n).Some?
    ensures Up(links', t, n) == Up(links, t, n)
    decreases n
  {
    if n > 0 {
      SameLinks(links, links', links[t].parentThreadId.value, n - 1);
    }
  }
}
