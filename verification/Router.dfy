/** Placing a principal on an account: two rendezvous candidates, scored against each other. */
module Router {
  import opened Prelude
  import opened Models
  import CfState

  datatype Salt = A | B

  /** (principal, model, account id, salt) to a score; the server derives it from a SHA-256 digest. */
  type Rank = (string, string, AccountId, Salt) -> real

  /** One salt of the ranking, with principal and model fixed. */
  type Score = Account -> real

  function ScoreFor(rank: Rank, principal: string, model: string, salt: Salt): Score {
    (a: Account) => rank(principal, model, a.id, salt)
  }

  /** A stable descending sort, one element at a time from the back of the list. */
  function InsertRanked(x: Account, s: seq<Account>, score: Score): (r: seq<Account>)
    ensures |r| == |s| + 1
  {
    if s == [] || score(x) >= score(s[0]) then [x] + s else [s[0]] + InsertRanked(x, s[1..], score)
  }

  function Ranked(s: seq<Account>, score: Score): (r: seq<Account>)
    ensures |r| == |s|
  {
    if s == [] then [] else InsertRanked(s[0], Ranked(s[1..], score), score)
  }

  /** The last of the elements that score highest, as an iterator's maximum is chosen. */
  function LastMax(s: seq<Account>, score: Score): (m: Account)
    requires s != []
    ensures m in s && forall x :: x in s ==> score(x) <= score(m)
  {
    if |s| == 1 then s[0]
    else
      var m := LastMax(s[1..], score);
      assert s == [s[0]] + s[1..];
      if score(s[0]) > score(m) then s[0] else m
  }

  function Others(s: seq<Account>, id: AccountId): (r: seq<Account>)
    ensures forall x :: x in r <==> x in s && x.id != id
  {
    FilterMembers((a: Account) => a.id != id, s);
    Filter((a: Account) => a.id != id, s)
  }

  /** The specification of the pair: best by the first salt, then best of the others by the second. */
  function DualCandidates(principal: string, model: string, accounts: seq<Account>, rank: Rank): (pair: seq<Account>)
    ensures |pair| == CfState.Min(2, |accounts|)
    ensures forall x :: x in pair ==> x in accounts
  {
    var byA := ScoreFor(rank, principal, model, A);
    var ranked := Ranked(accounts, byA);
    RankedIsPermutation(accounts, byA);
    if |accounts| < 2 then ranked
    else
      var others := Others(accounts, ranked[0].id);
      if others == [] then ranked[..2]
      else [ranked[0], LastMax(others, ScoreFor(rank, principal, model, B))]
  }

  method SelectDualCandidates(principal: string, model: string, accounts: seq<Account>, rank: Rank)
    returns (out: seq<Account>)
    ensures out == DualCandidates(principal, model, accounts, rank)
  {
    var byA := ScoreFor(rank, principal, model, A);
    RankedIsPermutation(accounts, byA);
    var ranked := Ranked(accounts, byA);
    out := ranked[..CfState.Min(2, |ranked|)];
    if |out| < 2 {
      return;
    }
    var others := Others(accounts, out[0].id);
    if others != [] {
      out := out[1 := LastMax(others, ScoreFor(rank, principal, model, B))];
    }
  }

  lemma {:induction false} InsertRankedIsPermutation(x: Account, s: seq<Account>, score: Score)
    ensures multiset(InsertRanked(x, s, score)) == multiset(s) + multiset{x}
  {
    if s != [] && score(x) < score(s[0]) {
      InsertRankedIsPermutation(x, s[1..], score);
      assert s == [s[0]] + s[1..];
    }
  }

  lemma {:induction false} RankedIsPermutation(s: seq<Account>, score: Score)
    ensures multiset(Ranked(s, score)) == multiset(s)
    ensures forall x :: x in Ranked(s, score) <==> x in s
  {
    if s != [] {
      RankedIsPermutation(s[1..], score);
      InsertRankedIsPermutation(s[0], Ranked(s[1..], score), score);
      assert s == [s[0]] + s[1..];
    }
    assert forall x :: x in Ranked(s, score) <==> x in multiset(Ranked(s, score));
  }

  /** The head of the ranking scores at least as high as everyone. */
  lemma {:induction false} RankedHeadIsMax(s: seq<Account>, score: Score)
    requires s != []
    ensures forall x :: x in s ==> score(x) <= score(Ranked(s, score)[0])
  {
    if |s| > 1 {
      RankedHeadIsMax(s[1..], score);
      assert s == [s[0]] + s[1..];
    }
  }

  // ---- What the pair does not depend on, and how little it moves ----------------------------

  ghost predicate DistinctIds(s: seq<Account>) {
    forall i, j :: 0 <= i < j < |s| ==> s[i].id != s[j].id
  }

  /** No two accounts of the list score alike under either salt. */
  ghost predicate NoTies(principal: string, model: string, s: seq<Account>, rank: Rank) {
    forall a, b, salt :: a in s && b in s && a.id != b.id
      ==> rank(principal, model, a.id, salt) != rank(principal, model, b.id, salt)
  }

  /** `m` beats every other member of `s`. */
  ghost predicate Tops(m: Account, s: set<Account>, score: Score) {
    m in s && forall x :: x in s && x != m ==> score(x) < score(m)
  }

  ghost function Members(s: seq<Account>): set<Account> {
    set x | x in s
  }

  lemma SameIdSameMember(s: seq<Account>, a: Account, b: Account)
    requires DistinctIds(s) && a in s && b in s && a.id == b.id
    ensures a == b
  {
    var i :| 0 <= i < |s| && s[i] == a;
    var j :| 0 <= j < |s| && s[j] == b;
    assert i == j;
  }

  /** With distinct ids and no ties the pair is fixed by who is in the list alone. */
  lemma PairOf(principal: string, model: string, s: seq<Account>, rank: Rank)
    requires DistinctIds(s) && NoTies(principal, model, s, rank) && |s| >= 2
    ensures var pair, byA, byB :=
        DualCandidates(principal, model, s, rank),
        ScoreFor(rank, principal, model, A), ScoreFor(rank, principal, model, B);
      Tops(pair[0], Members(s), byA) && Tops(pair[1], Members(s) - {pair[0]}, byB)
  {
    var byA, byB := ScoreFor(rank, principal, model, A), ScoreFor(rank, principal, model, B);
    var first := FirstTops(principal, model, s, rank);
    SecondTops(principal, model, s, rank, first);
  }

  lemma FirstTops(principal: string, model: string, s: seq<Account>, rank: Rank) returns (first: Account)
    requires DistinctIds(s) && NoTies(principal, model, s, rank) && |s| >= 2
    ensures first == Ranked(s, ScoreFor(rank, principal, model, A))[0] && first in s
    ensures Tops(first, Members(s), ScoreFor(rank, principal, model, A))
  {
    var byA := ScoreFor(rank, principal, model, A);
    first := Ranked(s, byA)[0];
    RankedIsPermutation(s, byA);
    RankedHeadIsMax(s, byA);
    OthersHaveOtherIds(s, first);
  }

  lemma OthersHaveOtherIds(s: seq<Account>, a: Account)
    requires DistinctIds(s) && a in s
    ensures forall x :: x in s && x != a ==> x.id != a.id
  {
    forall x | x in s && x.id == a.id
      ensures x == a
    {
      SameIdSameMember(s, x, a);
    }
  }

  lemma SecondTops(principal: string, model: string, s: seq<Account>, rank: Rank, first: Account)
    requires DistinctIds(s) && NoTies(principal, model, s, rank) && |s| >= 2 && first in s
    ensures Others(s, first.id) != []
    ensures Tops(LastMax(Others(s, first.id), ScoreFor(rank, principal, model, B)), Members(s) - {first},
                 ScoreFor(rank, principal, model, B))
  {
    OthersHaveOtherIds(s, first);
    var other := if s[0].id == first.id then s[1] else s[0];
    assert other in s && other in Others(s, first.id);
    OthersHaveOtherIds(s, LastMax(Others(s, first.id), ScoreFor(rank, principal, model, B)));
  }

  /** The order in which the accounts are listed plays no part. */
  lemma OrderIndependent(principal: string, model: string, s: seq<Account>, t: seq<Account>, rank: Rank)
    requires DistinctIds(s) && DistinctIds(t) && Members(s) == Members(t)
    requires NoTies(principal, model, s, rank)
    ensures DualCandidates(principal, model, s, rank) == DualCandidates(principal, model, t, rank)
  {
    SameLength(s, t);
    assert forall x :: x in t ==> x in Members(t);
    assert forall x :: x in s ==> x in Members(s);
    if |s| >= 2 {
      PairOf(principal, model, s, rank);
      PairOf(principal, model, t, rank);
      TopsIsUnique(DualCandidates(principal, model, s, rank)[0], DualCandidates(principal, model, t, rank)[0],
                   Members(s), ScoreFor(rank, principal, model, A));
    } else if |s| == 1 {
      assert s[0] in Members(t);
    }
  }

  lemma TopsIsUnique(m: Account, n: Account, s: set<Account>, score: Score)
    requires Tops(m, s, score) && Tops(n, s, score)
    ensures m == n
  {
  }

  lemma SameLength(s: seq<Account>, t: seq<Account>)
    requires DistinctIds(s) && DistinctIds(t) && Members(s) == Members(t)
    ensures |s| == |t|
  {
    MembersCount(s);
    MembersCount(t);
  }

  lemma {:induction false} MembersCount(s: seq<Account>)
    requires DistinctIds(s)
    ensures |Members(s)| == |s|
  {
    if s == [] {
      assert Members(s) == {};
    } else {
      MembersCount(s[1..]);
      assert s == [s[0]] + s[1..];
      assert Members(s) == Members(s[1..]) + {s[0]};
    }
  }

  /** Two candidates, when there are two accounts, are two different accounts. */
  lemma PairIsDistinct(principal: string, model: string, s: seq<Account>, rank: Rank)
    requires DistinctIds(s) && NoTies(principal, model, s, rank) && |s| >= 2
    ensures var pair := DualCandidates(principal, model, s, rank);
      |pair| == 2 && pair[0].id != pair[1].id && pair[0] in s && pair[1] in s
  {
    PairOf(principal, model, s, rank);
    var pair := DualCandidates(principal, model, s, rank);
    if pair[0].id == pair[1].id {
      SameIdSameMember(s, pair[0], pair[1]);
    }
  }

  /** `p` is best of `s` by the first score and `q` best of the rest by the second. */
  ghost predicate PairTops(p: Account, q: Account, s: set<Account>, byA: Score, byB: Score) {
    Tops(p, s, byA) && Tops(q, s - {p}, byB)
  }

  lemma AddingToSet(s: set<Account>, x: Account, p: Account, q: Account, p': Account, q': Account, byA: Score,
                    byB: Score)
    requires x !in s && PairTops(p, q, s, byA, byB) && PairTops(p', q', s + {x}, byA, byB)
    ensures {p', q'} <= {p, q, x}
  {
    assert p in s + {x};
    assert q != p' ==> q in s + {x} - {p'};
  }

  lemma RemovingFromSet(s: set<Account>, x: Account, p: Account, q: Account, p': Account, q': Account, byA: Score,
                        byB: Score)
    requires x !in {p, q} && PairTops(p, q, s, byA, byB) && PairTops(p', q', s - {x}, byA, byB)
    ensures p' == p && q' == q
  {
    assert p in s - {x};
    assert q in s - {x} - {p};
  }

  /** A new account can displace a candidate only with itself or with the other old candidate. */
  lemma AddingDisturbsLittle(principal: string, model: string, s: seq<Account>, x: Account, rank: Rank)
    requires DistinctIds(s + [x]) && NoTies(principal, model, s + [x], rank)
    ensures Members(DualCandidates(principal, model, s + [x], rank))
         <= Members(DualCandidates(principal, model, s, rank)) + {x}
  {
    var t := s + [x];
    Extended(s, x);
    assert forall a :: a in s ==> a in t;
    if |s| >= 2 {
      AddingToMany(principal, model, s, x, rank);
    } else {
      OldOrNew(s, x, DualCandidates(principal, model, s, rank), DualCandidates(principal, model, t, rank));
    }
  }

  lemma AddingToMany(principal: string, model: string, s: seq<Account>, x: Account, rank: Rank)
    requires DistinctIds(s + [x]) && NoTies(principal, model, s + [x], rank) && |s| >= 2
    requires DistinctIds(s) && NoTies(principal, model, s, rank) && Members(s + [x]) == Members(s) + {x} && x !in s
    ensures Members(DualCandidates(principal, model, s + [x], rank))
         <= Members(DualCandidates(principal, model, s, rank)) + {x}
  {
    var byA, byB := ScoreFor(rank, principal, model, A), ScoreFor(rank, principal, model, B);
    var pair, pair' := DualCandidates(principal, model, s, rank), DualCandidates(principal, model, s + [x], rank);
    PairOf(principal, model, s, rank);
    PairOf(principal, model, s + [x], rank);
    AddingToSet(Members(s), x, pair[0], pair[1], pair'[0], pair'[1], byA, byB);
    assert pair' == [pair'[0], pair'[1]];
  }

  lemma Extended(s: seq<Account>, x: Account)
    requires DistinctIds(s + [x])
    ensures DistinctIds(s) && Members(s + [x]) == Members(s) + {x} && x !in s
  {
    var t := s + [x];
    assert forall i :: 0 <= i < |s| ==> s[i] == t[i];
    assert t[|s|] == x;
  }

  lemma OldOrNew(s: seq<Account>, x: Account, pair: seq<Account>, pair': seq<Account>)
    requires |s| < 2 && |pair| == |s| && (forall a :: a in pair ==> a in s) && (forall a :: a in pair' ==> a in s + [x])
    ensures Members(pair') <= Members(pair) + {x}
  {
    if |s| == 1 {
      assert pair[0] in s;
    }
  }

  /** Removing an account that was not chosen changes nothing. */
  lemma RemovingUnchosenChangesNothing(
      principal: string, model: string, s: seq<Account>, i: nat, rank: Rank)
    requires DistinctIds(s) && NoTies(principal, model, s, rank) && i < |s|
    requires s[i] !in DualCandidates(principal, model, s, rank)
    ensures DualCandidates(principal, model, s[..i] + s[i + 1..], rank) == DualCandidates(principal, model, s, rank)
  {
    var t := s[..i] + s[i + 1..];
    var pair, pair' := DualCandidates(principal, model, s, rank), DualCandidates(principal, model, t, rank);
    Without(s, i);
    assert forall a :: a in t ==> a in s;
    assert pair[0] in s;
    if |s| >= 2 {
      var byA, byB := ScoreFor(rank, principal, model, A), ScoreFor(rank, principal, model, B);
      PairOf(principal, model, s, rank);
      assert pair[0] in Members(t) && pair[1] in Members(t) && pair[0] != pair[1];
      assert |t| != 1;
      PairOf(principal, model, t, rank);
      RemovingFromSet(Members(s), s[i], pair[0], pair[1], pair'[0], pair'[1], byA, byB);
      assert pair == [pair[0], pair[1]];
    }
  }

  lemma Without(s: seq<Account>, i: nat)
    requires DistinctIds(s) && i < |s|
    ensures var t := s[..i] + s[i + 1..]; DistinctIds(t) && Members(t) == Members(s) - {s[i]}
  {
    var t := s[..i] + s[i + 1..];
    assert forall k :: 0 <= k < |t| ==> t[k] == s[if k < i then k else k + 1];
    forall k | 0 <= k < |s| && k != i
      ensures s[k] in t
    {
      assert s[k] == t[if k < i then k else k - 1];
    }
  }

  // ---- Scoring --------------------------------------------------------------------------------

  function Clamp(x: real): (r: real)
    ensures 0.0 <= r <= 1.0
  {
    if x < 0.0 then 0.0 else if x > 1.0 then 1.0 else x
  }

  function MinReal(a: real, b: real): real {
    if a <= b then a else b
  }

  function EffectiveHeadroom(s: Signals): real {
    MinReal(MinReal(s.quotaHeadroom, s.quotaHeadroom5h), s.quotaHeadroom7d)
  }

  function ScoreCandidate(a: Account, r: RouteState, lease: Option<Lease>): real {
    var affinity := if lease.Some? && lease.value.accountId == a.id && lease.value.model in a.models then 1.0 else 0.35;
    var spare := if a.signals.capacity == 0 then 1.0 else 1.0 - a.signals.inflight as real / a.signals.capacity as real;
    var bonus := if r.routeMode == Direct then 0.08 else 0.04;
    0.35 * affinity + 0.20 * Clamp(EffectiveHeadroom(a.signals)) + 0.15 * Clamp(a.signals.healthScore)
    + 0.10 * Clamp(a.signals.egressStability) + 0.10 * Clamp(a.signals.fairnessBias) + 0.10 * Clamp(spare) + bonus
  }

  predicate ShouldReuse(lease: Lease, a: Account, r: RouteState, now: Time) {
    lease.accountId == a.id && lease.model in a.models && !CfState.InCooldown(r, now)
  }

  /** Sticking to the account of a live lease outweighs any difference in routing mode and one signal. */
  lemma AffinityOutweighs(a: Account, b: Account, ra: RouteState, rb: RouteState, lease: Lease)
    requires lease.accountId == a.id && lease.model in a.models && b.id != a.id
    requires EffectiveHeadroom(a.signals) >= EffectiveHeadroom(b.signals)
    requires a.signals.healthScore >= b.signals.healthScore
    requires a.signals.egressStability >= b.signals.egressStability
    requires a.signals.fairnessBias >= b.signals.fairnessBias
    ensures ScoreCandidate(a, ra, Some(lease)) > ScoreCandidate(b, rb, Some(lease))
  {
    assert 0.35 * 1.0 - 0.35 * 0.35 > 0.10 + 0.04;
  }
}
