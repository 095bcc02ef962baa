/** Texts as their UTF-8 encoding measures them: how many bytes they take, and where they can be cut. */
module Utf8 {
  import opened Prelude

  function Width(c: char): (n: nat)
    ensures 1 <= n <= 4
  {
    var code := c as int;
    if code < 0x80 then 1 else if code < 0x800 then 2 else if code < 0x1_0000 then 3 else 4
  }

  function Size(s: string): (n: nat)
    ensures n >= |s|
  {
    if s == "" then 0 else Width(s[0]) + Size(s[1..])
  }

  lemma {:induction false} SizeConcat(a: string, b: string)
    ensures Size(a + b) == Size(a) + Size(b)
  {
    if a == "" {
      assert a + b == b;
    } else {
      assert (a + b)[1..] == a[1..] + b;
      SizeConcat(a[1..], b);
    }
  }

  lemma {:induction false} AsciiSize(s: string)
    requires forall i :: 0 <= i < |s| ==> Width(s[i]) == 1
    ensures Size(s) == |s|
  {
    if s != "" {
      AsciiSize(s[1..]);
    }
  }

  lemma PrefixOfFirst(a: string, b: string, k: nat)
    requires k <= |a|
    ensures (a + b)[..k] == a[..k]
  {
  }

  lemma PrefixOfBoth(a: string, b: string, k: nat)
    requires |a| <= k <= |a + b|
    ensures (a + b)[..k] == a + b[..k - |a|]
  {
  }

  lemma PrefixSize(s: string, k: nat)
    requires k <= |s|
    ensures Size(s[..k]) <= Size(s) && (Size(s[..k]) == Size(s) ==> k == |s|)
  {
    assert s == s[..k] + s[k..];
    SizeConcat(s[..k], s[k..]);
  }

  /** Some whole number of characters takes exactly n bytes. */
  ghost predicate IsBoundary(s: string, n: nat) {
    exists k :: 0 <= k <= |s| && Size(s[..k]) == n
  }

  /** How many characters take exactly n bytes, if n does not fall inside one. */
  function CharsIn(s: string, n: nat): (k: Option<nat>)
    ensures k.Some? ==> k.value <= |s|
  {
    if n == 0 then Some(0)
    else if s == "" || Width(s[0]) > n then None
    else
      var k := CharsIn(s[1..], n - Width(s[0]));
      if k.None? then None else Some(k.value + 1)
  }

  lemma {:induction false} CharsFound(s: string, n: nat)
    ensures CharsIn(s, n).Some? <==> IsBoundary(s, n)
    ensures CharsIn(s, n).Some? ==> Size(s[..CharsIn(s, n).value]) == n
  {
    if n == 0 {
      assert s[..0] == "";
    } else if s != "" && Width(s[0]) <= n {
      CharsFound(s[1..], n - Width(s[0]));
      BoundaryBehind(s, n);
      var k := CharsIn(s[1..], n - Width(s[0]));
      if k.Some? {
        assert s[..k.value + 1][1..] == s[1..][..k.value];
      }
    } else {
      NoBoundary(s, n);
    }
  }

  lemma BoundaryBehind(s: string, n: nat)
    requires s != "" && 0 < Width(s[0]) <= n
    ensures IsBoundary(s, n) <==> IsBoundary(s[1..], n - Width(s[0]))
  {
    if k :| 0 <= k <= |s| && Size(s[..k]) == n {
      assert s[..k][1..] == s[1..][..k - 1];
    }
    if k :| 0 <= k <= |s| - 1 && Size(s[1..][..k]) == n - Width(s[0]) {
      assert s[..k + 1][1..] == s[1..][..k];
    }
  }

  lemma NoBoundary(s: string, n: nat)
    requires n > 0 && (s == "" || Width(s[0]) > n)
    ensures !IsBoundary(s, n)
  {
    forall k | 0 <= k <= |s|
      ensures Size(s[..k]) != n
    {
      if k > 0 {
        assert s[..k][0] == s[0];
      }
    }
  }

  /** Boundaries within the first part of a text are those of that part. */
  lemma BoundaryInPrefix(a: string, b: string, n: nat)
    requires n <= Size(a)
    ensures IsBoundary(a + b, n) <==> IsBoundary(a, n)
  {
    if k :| 0 <= k <= |a + b| && Size((a + b)[..k]) == n {
      if k > |a| {
        assert (a + b)[..k] == a + b[..k - |a|];
        SizeConcat(a, b[..k - |a|]);
      }
      assert k <= |a| && (a + b)[..k] == a[..k];
    }
    if k :| 0 <= k <= |a| && Size(a[..k]) == n {
      assert (a + b)[..k] == a[..k];
    }
  }

  /** The text fits, or can be cut there. */
  ghost predicate Cuts(s: string, max: nat) {
    Size(s) <= max || IsBoundary(s, max)
  }

  const DOTS := "..."

  /** The first `max` bytes and three dots; there is no such text when the cut falls inside a character. */
  function Truncated(s: string, max: nat): (r: Option<string>)
  {
    if Size(s) <= max then Some(s)
    else
      var k := CharsIn(s, max);
      if k.None? then None else Some(s[..k.value] + DOTS)
  }

  lemma TruncatedExactly(s: string, max: nat)
    ensures Truncated(s, max).Some? <==> Cuts(s, max)
    ensures Size(s) <= max ==> Truncated(s, max) == Some(s)
    ensures Truncated(s, max).Some? && Size(s) > max ==>
      exists k :: 0 <= k <= |s| && Size(s[..k]) == max && Truncated(s, max).value == s[..k] + DOTS
    ensures Truncated(s, max).Some? ==> Size(Truncated(s, max).value) <= max + 3
  {
    CharsFound(s, max);
    if Size(s) > max && CharsIn(s, max).Some? {
      var k := CharsIn(s, max).value;
      SizeConcat(s[..k], DOTS);
      AsciiSize(DOTS);
    }
  }
}
