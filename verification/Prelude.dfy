/** Shared vocabulary: optional values, instants, and iteration orders. */
module Prelude {

  datatype Option<+T> = None | Some(value: T) {
    function UnwrapOr(default: T): T {
      if Some? then value else default
    }
  }

  /** Instants and durations are counted in nanoseconds, the resolution of the server's clock. */
  type Time = int

  const SECOND: Time := 1_000_000_000
  const MINUTE: Time := 60 * SECOND
  const HOUR: Time := 60 * MINUTE

  /** No value occurs twice. */
  ghost predicate NoDuplicates<T>(s: seq<T>) {
    forall i, j :: 0 <= i < j < |s| ==> s[i] != s[j]
  }

  /**
   * `order` lists every member of `s` exactly once. A hash map hands out its keys in some such
   * order, and nothing more is known about which one.
   */
  ghost predicate Enumerates<T(!new)>(order: seq<T>, s: set<T>) {
    && NoDuplicates(order)
    && (forall x :: x in order <==> x in s)
  }

  function Filter<T>(keep: T -> bool, s: seq<T>): (r: seq<T>)
    ensures |r| <= |s|
  {
    if s == [] then []
    else if keep(s[0]) then [s[0]] + Filter(keep, s[1..])
    else Filter(keep, s[1..])
  }

  lemma {:induction false} FilterMembers<T(!new)>(keep: T -> bool, s: seq<T>)
    ensures forall x :: x in Filter(keep, s) <==> x in s && keep(x)
  {
    if s != [] {
      FilterMembers(keep, s[1..]);
      assert s == [s[0]] + s[1..];
    }
  }

  lemma {:induction false} FilterNoDuplicates<T(!new)>(keep: T -> bool, s: seq<T>)
    requires NoDuplicates(s)
    ensures NoDuplicates(Filter(keep, s))
  {
    if s != [] {
      FilterNoDuplicates(keep, s[1..]);
      FilterMembers(keep, s[1..]);
    }
  }

  lemma FilterCons<T>(keep: T -> bool, x: T, rest: seq<T>)
    ensures Filter(keep, [x] + rest) == (if keep(x) then [x] else []) + Filter(keep, rest)
  {
    assert ([x] + rest)[1..] == rest;
    assert [] + Filter(keep, rest) == Filter(keep, rest);
  }

  lemma Associates<T>(a: seq<T>, b: seq<T>, c: seq<T>)
    ensures a + (b + c) == (a + b) + c
  {
  }

  lemma {:induction false} FilterConcat<T>(keep: T -> bool, a: seq<T>, b: seq<T>)
    ensures Filter(keep, a + b) == Filter(keep, a) + Filter(keep, b)
  {
    if a == [] {
      assert a + b == b && [] + Filter(keep, b) == Filter(keep, b);
    } else {
      var x, rest := a[0], a[1..];
      assert a == [x] + rest;
      Associates([x], rest, b);
      FilterCons(keep, x, rest);
      FilterCons(keep, x, rest + b);
      FilterConcat(keep, rest, b);
      Associates(if keep(x) then [x] else [], Filter(keep, rest), Filter(keep, b));
    }
  }

  /** Lists a set in an arbitrary order, as iterating over a hash map does. */
  method ArbitraryOrder<T(!new, ==)>(s: set<T>) returns (order: seq<T>)
    ensures Enumerates(order, s)
  {
    order := [];
    var rest := s;
    while rest != {}
      invariant rest <= s
      invariant Enumerates(order, s - rest)
      decreases rest
    {
      var x :| x in rest;
      rest := rest - {x};
      order := order + [x];
    }
  }
}
