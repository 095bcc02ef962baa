/**
 * A form of JSON documents in which the order of object members no longer shows. The theorems are about
 * documents: as the program is built, parsing sorts the members of an object already.
 */
module CanonicalJson {
  import opened Prelude
  import opened Json
  import Text

  predicate Before(a: string, b: string) {
    a != b && Text.LexLeq(a, b)
  }

  /** Files a member by its key; a key filed before is replaced. */
  function FileMember(m: Member, s: seq<Member>): seq<Member> {
    if s == [] || Before(m.key, s[0].key) then [m] + s
    else if m.key == s[0].key then [m] + s[1..]
    else [s[0]] + FileMember(m, s[1..])
  }

  function SortMembers(s: seq<Member>): seq<Member> {
    if s == [] then [] else FileMember(s[|s| - 1], SortMembers(s[..|s| - 1]))
  }

  function Canonical(v: Value): Value {
    match v
    case Array(items) => Array(seq(|items|, i requires 0 <= i < |items| => Canonical(items[i])))
    case Object(members) =>
      Object(SortMembers(
        seq(|members|, i requires 0 <= i < |members| => Member(members[i].key, Canonical(members[i].value)))))
    case _ => v
  }

  function CanonicalMembers(members: seq<Member>): seq<Member> {
    seq(|members|, i requires 0 <= i < |members| => Member(members[i].key, Canonical(members[i].value)))
  }

  lemma CanonicalObject(members: seq<Member>)
    ensures Canonical(Object(members)) == Object(SortMembers(CanonicalMembers(members)))
  {
    var v := Object(members);
    assert seq(|members|, i requires 0 <= i < |members| => Member(members[i].key, Canonical(members[i].value)))
       == CanonicalMembers(members);
  }

  // ---- Sorted member lists ------------------------------------------------------------------------

  ghost predicate StrictlySorted(s: seq<Member>) {
    forall i, j :: 0 <= i < j < |s| ==> Before(s[i].key, s[j].key)
  }

  lemma BeforeTransitive(a: string, b: string, c: string)
    requires Before(a, b) && Before(b, c)
    ensures Before(a, c)
  {
    Text.LexTransitive(a, b, c);
    if a == c {
      Text.LexAntisymmetric(a, b);
    }
  }

  lemma BeforeTotal(a: string, b: string)
    ensures Before(a, b) || a == b || Before(b, a)
    ensures !(Before(a, b) && Before(b, a))
  {
    Text.LexTotal(a, b);
    if Before(a, b) && Before(b, a) {
      Text.LexAntisymmetric(a, b);
    }
  }

  lemma {:induction false} FileKeepsSorted(m: Member, s: seq<Member>)
    requires StrictlySorted(s)
    ensures StrictlySorted(FileMember(m, s))
    ensures forall x :: x in FileMember(m, s) ==> x == m || x in s
  {
    if s != [] {
      BeforeTotal(m.key, s[0].key);
      assert forall i :: 1 <= i < |s| ==> s[1..][i - 1] == s[i];
      if Before(m.key, s[0].key) {
        forall j | 1 <= j < |s|
          ensures Before(m.key, s[j].key)
        {
          BeforeTransitive(m.key, s[0].key, s[j].key);
        }
      } else if m.key != s[0].key {
        FileKeepsSorted(m, s[1..]);
        var rest := FileMember(m, s[1..]);
        forall j | 0 <= j < |rest|
          ensures Before(s[0].key, rest[j].key)
        {
          assert rest[j] in rest;
        }
      }
    }
  }

  lemma {:induction false} SortSorts(s: seq<Member>)
    ensures StrictlySorted(SortMembers(s))
    ensures forall x :: x in SortMembers(s) ==> x in s
  {
    if s != [] {
      var front := s[..|s| - 1];
      SortSorts(front);
      FileKeepsSorted(s[|s| - 1], SortMembers(front));
    }
  }

  lemma {:induction false} FileLooksUp(m: Member, s: seq<Member>, key: string)
    requires StrictlySorted(s)
    ensures Lookup(FileMember(m, s), key) == if key == m.key then Some(m.value) else Lookup(s, key)
  {
    if s != [] {
      BeforeTotal(m.key, s[0].key);
      assert forall i :: 1 <= i < |s| ==> s[1..][i - 1] == s[i];
      if !Before(m.key, s[0].key) && m.key != s[0].key {
        FileLooksUp(m, s[1..], key);
      }
    }
  }

  /** No key twice. */
  ghost predicate UniqueKeys(s: seq<Member>) {
    forall i, j :: 0 <= i < j < |s| ==> s[i].key != s[j].key
  }

  lemma {:induction false} LookupSnoc(s: seq<Member>, m: Member, key: string)
    ensures Lookup(s + [m], key) == if Lookup(s, key).Some? then Lookup(s, key)
                                    else if key == m.key then Some(m.value) else None
  {
    if s == [] {
      assert s + [m] == [m];
    } else {
      assert (s + [m])[1..] == s[1..] + [m];
      LookupSnoc(s[1..], m, key);
    }
  }

  lemma {:induction false} LookupFinds(s: seq<Member>, key: string)
    ensures Lookup(s, key).Some? ==> exists i :: 0 <= i < |s| && s[i].key == key && Lookup(s, key) == Some(s[i].value)
    ensures Lookup(s, key).None? ==> forall i :: 0 <= i < |s| ==> s[i].key != key
  {
    if s != [] && s[0].key != key {
      LookupFinds(s[1..], key);
      if Lookup(s, key).Some? {
        var i :| 0 <= i < |s[1..]| && s[1..][i].key == key && Lookup(s, key) == Some(s[1..][i].value);
        assert s[i + 1].key == key;
      }
      assert forall i :: 1 <= i < |s| ==> s[1..][i - 1] == s[i];
    }
  }

  lemma {:induction false} LookupAt(s: seq<Member>, i: nat)
    requires UniqueKeys(s) && i < |s|
    ensures Lookup(s, s[i].key) == Some(s[i].value)
  {
    LookupFinds(s, s[i].key);
  }

  /** Sorting changes no value. */
  lemma {:induction false} SortLooksUp(s: seq<Member>, key: string)
    requires UniqueKeys(s)
    ensures Lookup(SortMembers(s), key) == Lookup(s, key)
  {
    if s != [] {
      var front, last := s[..|s| - 1], s[|s| - 1];
      assert s == front + [last];
      SortLooksUp(front, key);
      SortSorts(front);
      FileLooksUp(last, SortMembers(front), key);
      LookupSnoc(front, last, key);
      LookupFinds(front, last.key);
    }
  }

  ghost predicate SameLookups(a: seq<Member>, b: seq<Member>) {
    forall key :: Lookup(a, key) == Lookup(b, key)
  }

  /** Sorted lists that look up the same are the same. */
  lemma {:induction false} SortedByLookup(a: seq<Member>, b: seq<Member>)
    requires StrictlySorted(a) && StrictlySorted(b)
    requires SameLookups(a, b)
    ensures a == b
  {
    assert (a != [] ==> Lookup(a, a[0].key).Some?) && (b != [] ==> Lookup(b, b[0].key).Some?);
    if a != [] && b != [] {
      HeadIsLeast(a, b[0].key);
      HeadIsLeast(b, a[0].key);
      assert Lookup(a, a[0].key).Some? && Lookup(b, b[0].key).Some?;
      BeforeTotal(a[0].key, b[0].key);
      assert a[0] == b[0];
      forall key
        ensures Lookup(a[1..], key) == Lookup(b[1..], key)
      {
        HeadIsAlone(a);
        HeadIsAlone(b);
        assert Lookup(a, key) == Lookup(b, key);
      }
      assert forall i :: 1 <= i < |a| ==> a[1..][i - 1] == a[i];
      assert forall i :: 1 <= i < |b| ==> b[1..][i - 1] == b[i];
      SortedByLookup(a[1..], b[1..]);
    }
  }

  lemma HeadIsLeast(s: seq<Member>, key: string)
    requires StrictlySorted(s) && s != [] && Lookup(s, key).Some?
    ensures key == s[0].key || Before(s[0].key, key)
  {
    LookupFinds(s, key);
  }

  lemma HeadIsAlone(s: seq<Member>)
    requires StrictlySorted(s) && s != []
    ensures Lookup(s[1..], s[0].key).None?
  {
    LookupFinds(s[1..], s[0].key);
  }

  // ---- Once is enough --------------------------------------------------------------------------------

  lemma {:induction false} SortedStays(s: seq<Member>)
    requires StrictlySorted(s)
    ensures SortMembers(s) == s
  {
    if s != [] {
      var front, last := s[..|s| - 1], s[|s| - 1];
      SortedStays(front);
      FileLast(last, front);
      assert s == front + [last];
    }
  }

  lemma {:induction false} FileLast(m: Member, s: seq<Member>)
    requires StrictlySorted(s) && forall i :: 0 <= i < |s| ==> Before(s[i].key, m.key)
    ensures FileMember(m, s) == s + [m]
  {
    if s != [] {
      BeforeTotal(m.key, s[0].key);
      assert forall i :: 1 <= i < |s| ==> s[1..][i - 1] == s[i];
      FileLast(m, s[1..]);
    }
  }

  /** A canonical document is its own canonical form. */
  lemma {:induction false} CanonicalTwice(v: Value)
    ensures Canonical(Canonical(v)) == Canonical(v)
    decreases v
  {
    match v {
      case Array(items) =>
        forall i | 0 <= i < |items|
          ensures Canonical(Canonical(items[i])) == Canonical(items[i])
        {
          CanonicalTwice(items[i]);
        }
      case Object(members) =>
        var once := CanonicalMembers(members);
        forall i | 0 <= i < |members|
          ensures Canonical(once[i].value) == once[i].value
        {
          CanonicalTwice(members[i].value);
        }
        SortSorts(once);
        CanonicalObject(members);
        var sorted := SortMembers(once);
        forall i | 0 <= i < |sorted|
          ensures Canonical(sorted[i].value) == sorted[i].value
        {
          assert sorted[i] in once;
        }
        assert CanonicalMembers(sorted) == sorted;
        CanonicalObject(sorted);
        SortedStays(sorted);
      case _ =>
    }
  }

  // ---- What canonical forms distinguish -----------------------------------------------------------------

  /** No object at any depth has a key twice. */
  ghost predicate WellKeyed(v: Value) {
    match v
    case Array(items) => forall i :: 0 <= i < |items| ==> WellKeyed(items[i])
    case Object(members) => UniqueKeys(members) && forall i :: 0 <= i < |members| ==> WellKeyed(members[i].value)
    case _ => true
  }

  /** Equal, but for the order of object members at every depth. */
  ghost predicate SameButOrder(a: Value, b: Value)
    decreases a
  {
    match a
    case Array(items) =>
      b.Array? && |items| == |b.items| && forall i :: 0 <= i < |items| ==> SameButOrder(items[i], b.items[i])
    case Object(members) =>
      && b.Object?
      && (forall j :: 0 <= j < |b.members| ==> HasKey(members, b.members[j].key))
      && (forall i :: 0 <= i < |members| ==>
            HasKey(b.members, members[i].key) && SameButOrder(members[i].value, ValueAt(b.members, members[i].key)))
    case _ => a == b
  }

  ghost predicate HasKey(members: seq<Member>, key: string) {
    Lookup(members, key).Some?
  }

  ghost function ValueAt(members: seq<Member>, key: string): Value {
    Lookup(members, key).UnwrapOr(Null)
  }

  lemma {:induction false} CanonicalLookup(members: seq<Member>, key: string)
    ensures Lookup(CanonicalMembers(members), key)
         == if Lookup(members, key).Some? then Some(Canonical(Lookup(members, key).value)) else None
  {
    if members != [] {
      var c := CanonicalMembers(members);
      assert c[1..] == CanonicalMembers(members[1..]);
      CanonicalLookup(members[1..], key);
    }
  }

  /** Canonical objects are equal exactly when their members' canonical values agree key by key. */
  lemma ObjectsAgreeExactly(a: seq<Member>, b: seq<Member>)
    requires UniqueKeys(a) && UniqueKeys(b)
    ensures Canonical(Object(a)) == Canonical(Object(b))
       <==> SameLookups(CanonicalMembers(a), CanonicalMembers(b))
  {
    CanonicalObject(a);
    CanonicalObject(b);
    var ca, cb := CanonicalMembers(a), CanonicalMembers(b);
    forall key
      ensures Lookup(SortMembers(ca), key) == Lookup(ca, key) && Lookup(SortMembers(cb), key) == Lookup(cb, key)
    {
      SortLooksUp(ca, key);
      SortLooksUp(cb, key);
    }
    SortSorts(ca);
    SortSorts(cb);
    assert SameLookups(SortMembers(ca), SortMembers(cb)) <==> SameLookups(ca, cb);
    if SameLookups(ca, cb) {
      SortedByLookup(SortMembers(ca), SortMembers(cb));
    }
  }

  /** Two documents have the same canonical form exactly when they differ in the order of members only. */
  lemma {:induction false} CanonicalEqualExactly(a: Value, b: Value)
    requires WellKeyed(a) && WellKeyed(b)
    ensures Canonical(a) == Canonical(b) <==> SameButOrder(a, b)
    decreases a
  {
    match a {
      case Array(items) =>
        if b.Array? && |items| == |b.items| {
          forall i | 0 <= i < |items|
            ensures Canonical(items[i]) == Canonical(b.items[i]) <==> SameButOrder(items[i], b.items[i])
          {
            CanonicalEqualExactly(items[i], b.items[i]);
          }
          assert forall i :: 0 <= i < |items| ==>
            Canonical(a).items[i] == Canonical(items[i]) && Canonical(b).items[i] == Canonical(b.items[i]);
        }
      case Object(members) =>
        if b.Object? {
          forall i | 0 <= i < |members| && HasKey(b.members, members[i].key)
            ensures Canonical(members[i].value) == Canonical(ValueAt(b.members, members[i].key))
               <==> SameButOrder(members[i].value, ValueAt(b.members, members[i].key))
          {
            LookupFinds(b.members, members[i].key);
            CanonicalEqualExactly(members[i].value, ValueAt(b.members, members[i].key));
          }
          MembersAgreeExactly(members, b.members);
        }
      case _ =>
    }
  }

  lemma MembersAgreeExactly(a: seq<Member>, b: seq<Member>)
    requires UniqueKeys(a) && UniqueKeys(b)
    requires forall i :: 0 <= i < |a| && HasKey(b, a[i].key) ==>
      (Canonical(a[i].value) == Canonical(ValueAt(b, a[i].key)) <==> SameButOrder(a[i].value, ValueAt(b, a[i].key)))
    ensures Canonical(Object(a)) == Canonical(Object(b)) <==> SameButOrder(Object(a), Object(b))
  {
    ObjectsAgreeExactly(a, b);
    forall key
      ensures Lookup(CanonicalMembers(a), key) == if HasKey(a, key) then Some(Canonical(ValueAt(a, key))) else None
      ensures Lookup(CanonicalMembers(b), key) == if HasKey(b, key) then Some(Canonical(ValueAt(b, key))) else None
    {
      CanonicalLookup(a, key);
      CanonicalLookup(b, key);
    }
    if SameButOrder(Object(a), Object(b)) {
      forall key
        ensures Lookup(CanonicalMembers(a), key) == Lookup(CanonicalMembers(b), key)
      {
        LookupFinds(a, key);
        LookupFinds(b, key);
      }
    }
    if Canonical(Object(a)) == Canonical(Object(b)) {
      KeysAgree(a, b);
    }
  }

  lemma KeysAgree(a: seq<Member>, b: seq<Member>)
    requires UniqueKeys(a) && UniqueKeys(b)
    requires SameLookups(CanonicalMembers(a), CanonicalMembers(b))
    ensures forall j :: 0 <= j < |b| ==> HasKey(a, b[j].key)
    ensures forall i :: 0 <= i < |a| ==> HasKey(b, a[i].key) && Canonical(a[i].value) == Canonical(ValueAt(b, a[i].key))
  {
    forall j | 0 <= j < |b|
      ensures HasKey(a, b[j].key)
    {
      LookupAt(b, j);
      CanonicalLookup(a, b[j].key);
      CanonicalLookup(b, b[j].key);
    }
    forall i | 0 <= i < |a|
      ensures HasKey(b, a[i].key) && Canonical(a[i].value) == Canonical(ValueAt(b, a[i].key))
    {
      LookupAt(a, i);
      CanonicalLookup(a, a[i].key);
      CanonicalLookup(b, a[i].key);
    }
  }
}
