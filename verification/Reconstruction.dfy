/** Rebuilding the finished response from the pieces that stream past. */
module Reconstruction {
  import opened Prelude
  import opened Json
  import Text

  /** One parsed stream event. `introducesItem` tells whether its own type is item-added or item-done. */
  datatype Piece = Piece(value: Value, introducesItem: bool)

  function ResponseId(v: Value): Option<string> {
    StringAt(Root(v), "id")
  }

  function OutputItems(v: Value): seq<Value> {
    ItemsAt(Root(v), "output")
  }

  predicate IsCompleted(v: Value) {
    StringAt(Root(v), "status").Some? && Text.ToAsciiLowercase(StringAt(Root(v), "status").value) == "completed"
  }

  /** The item an event introduces, and where. */
  function Introduced(p: Piece): Option<(nat, Value)> {
    var index, item := AsU64(Get(p.value, "output_index")), Get(p.value, "item");
    if p.introducesItem && index.Some? && item.Some? then Some((index.value, item.value)) else None
  }

  // ---- Ascending order of indices ----------------------------------------------------------------------

  predicate IsLeast(k: nat, s: set<nat>) {
    k in s && forall j :: j in s ==> k <= j
  }

  lemma {:induction false} SomeLeast(s: set<nat>)
    requires s != {}
    ensures exists k :: IsLeast(k, s)
  {
    var x :| x in s;
    if s - {x} == {} {
      assert forall j :: j in s ==> j == x || j in s - {x};
      assert IsLeast(x, s);
    } else {
      SomeLeast(s - {x});
      var j :| IsLeast(j, s - {x});
      assert forall i :: i in s ==> i == x || i in s - {x};
      assert IsLeast(if x <= j then x else j, s);
    }
  }

  ghost predicate SortedKeys(keys: seq<nat>, s: set<nat>) {
    && (forall i, j :: 0 <= i < j < |keys| ==> keys[i] < keys[j])
    && (forall k :: k in keys <==> k in s)
  }

  ghost function Sorted(s: set<nat>): (keys: seq<nat>)
    ensures SortedKeys(keys, s)
  {
    if s == {} then []
    else
      SomeLeast(s);
      var k :| IsLeast(k, s);
      [k] + Sorted(s - {k})
  }

  /** There is only one way to list a set in ascending order. */
  lemma {:induction false} SortedIsUnique(a: seq<nat>, b: seq<nat>, s: set<nat>)
    requires SortedKeys(a, s) && SortedKeys(b, s)
    ensures a == b
  {
    assert (a != [] ==> a[0] in a) && (b != [] ==> b[0] in b);
    if a != [] && b != [] {
      assert a[0] in b && b[0] in a;
      assert a[0] == b[0];
      assert forall i :: 1 <= i < |a| ==> a[1..][i - 1] == a[i];
      assert forall i :: 1 <= i < |b| ==> b[1..][i - 1] == b[i];
      SortedIsUnique(a[1..], b[1..], s - {a[0]});
    }
  }

  ghost function At(m: map<nat, Value>, keys: seq<nat>): seq<Value>
    requires forall k :: k in keys ==> k in m
  {
    seq(|keys|, i requires 0 <= i < |keys| => m[keys[i]])
  }

  /** The items in ascending order of their indices. */
  ghost function Ascending(m: map<nat, Value>): seq<Value> {
    At(m, Sorted(m.Keys))
  }

  /** Reads an ordered map out from its least index up. */
  method ValuesInOrder(m: map<nat, Value>) returns (items: seq<Value>)
    ensures items == Ascending(m)
  {
    items := [];
    var rest := m.Keys;
    ghost var keys: seq<nat> := [];
    while rest != {}
      invariant rest <= m.Keys && SortedKeys(keys, m.Keys - rest)
      invariant forall i, j :: i in keys && j in rest ==> i < j
      invariant forall k :: k in keys ==> k in m
      invariant items == At(m, keys)
      decreases rest
    {
      SomeLeast(rest);
      var k :| k in rest && forall j :: j in rest ==> k <= j;
      forall i | 0 <= i < |keys|
        ensures keys[i] < k
      {
        assert keys[i] in keys;
      }
      rest := rest - {k};
      items := items + [m[k]];
      keys := keys + [k];
    }
    SortedIsUnique(keys, Sorted(m.Keys), m.Keys);
  }

  /** A list sits at the indices from 0. */
  function Indexed(items: seq<Value>): map<nat, Value> {
    map i: nat | i < |items| :: items[i]
  }

  /** The entries of `m`, overridden by those of `m1`. */
  function Overlaid(m: map<nat, Value>, m1: map<nat, Value>): map<nat, Value> {
    m + m1
  }

  // ---- What streams past ---------------------------------------------------------------------------------

  datatype Captured = Captured(responseId: Option<string>, items: map<nat, Value>, completed: Option<Value>)

  const NOTHING := Captured(None, map[], None)

  function Capture(c: Captured, p: Piece): Captured {
    var introduced := Introduced(p);
    var items := if introduced.Some? then c.items[introduced.value.0 := introduced.value.1] else c.items;
    Captured(if c.responseId.None? then ResponseId(p.value) else c.responseId,
             Overlaid(items, Indexed(OutputItems(p.value))),
             if IsCompleted(p.value) then Some(Root(p.value)) else c.completed)
  }

  function CaptureAll(c: Captured, ps: seq<Piece>): Captured
    decreases |ps|
  {
    if ps == [] then c else CaptureAll(Capture(c, ps[0]), ps[1..])
  }

  /** Sets a member in place, or adds it at the end. */
  function Insert(members: seq<Member>, key: string, v: Value): seq<Member> {
    if members == [] then [Member(key, v)]
    else if members[0].key == key then [Member(key, v)] + members[1..]
    else [members[0]] + Insert(members[1..], key, v)
  }

  lemma {:induction false} LookupInserted(members: seq<Member>, key: string, v: Value)
    ensures Lookup(Insert(members, key, v), key) == Some(v)
    ensures forall other :: other != key ==> Lookup(Insert(members, key, v), other) == Lookup(members, other)
  {
    if members != [] && members[0].key != key {
      LookupInserted(members[1..], key, v);
      var rest := Insert(members[1..], key, v);
      assert ([members[0]] + rest)[1..] == rest;
    }
  }

  ghost function Finalize(c: Captured): Option<Value> {
    if c.completed.None? then None
    else if !c.completed.value.Object? then c.completed
    else
      var members := c.completed.value.members;
      var identified := Identified(c, members);
      var merged := Overlaid(Indexed(AsItems(Lookup(identified, "output")).UnwrapOr([])), c.items);
      Some(Object(if merged == map[] then identified else Insert(identified, "output", Array(Ascending(merged)))))
  }

  /** The maps a stream handler fills while it relays, and the response it makes of them. */
  class StreamCapture {
    var responseId: Option<string>
    var items: map<nat, Value>
    var completed: Option<Value>

    function Snapshot(): Captured
      reads this
    {
      Captured(responseId, items, completed)
    }

    constructor ()
      ensures Snapshot() == NOTHING
    {
      responseId, items, completed := None, map[], None;
    }

    method Record(p: Piece)
      modifies this
      ensures Snapshot() == Capture(old(Snapshot()), p)
    {
      if responseId.None? {
        responseId := ResponseId(p.value);
      }
      var introduced := Introduced(p);
      if introduced.Some? {
        items := items[introduced.value.0 := introduced.value.1];
      }
      RecordItems(OutputItems(p.value));
      if IsCompleted(p.value) {
        completed := Some(Root(p.value));
      }
    }

    method RecordItems(output: seq<Value>)
      modifies this`items
      ensures items == Overlaid(old(items), Indexed(output))
    {
      for index := 0 to |output|
        invariant items == Overlaid(old(items), Indexed(output[..index]))
      {
        items := items[index := output[index]];
      }
      assert output[..|output|] == output;
    }

    method Finish() returns (response: Option<Value>)
      ensures response == Finalize(Snapshot())
    {
      if completed.None? {
        return None;
      }
      if !completed.value.Object? {
        return completed;
      }
      var members := completed.value.members;
      if Lookup(members, "id").None? && responseId.Some? {
        members := Insert(members, "id", String(responseId.value));
      }
      var merged := Indexed(AsItems(Lookup(members, "output")).UnwrapOr([]));
      merged := merged + items;
      if merged != map[] {
        var ordered := ValuesInOrder(merged);
        members := Insert(members, "output", Array(ordered));
      }
      response := Some(Object(members));
    }
  }

  // ---- Last write wins, in ascending order ---------------------------------------------------------------

  /** What one event writes at an index: the output it carries outranks the item it introduces. */
  function WrittenAt(p: Piece, i: nat): Option<Value> {
    var output, introduced := OutputItems(p.value), Introduced(p);
    if i < |output| then Some(output[i])
    else if introduced.Some? && introduced.value.0 == i then Some(introduced.value.1)
    else None
  }

  function LastWrite(ps: seq<Piece>, i: nat): Option<Value> {
    if ps == [] then None
    else
      var w := WrittenAt(ps[|ps| - 1], i);
      if w.Some? then w else LastWrite(ps[..|ps| - 1], i)
  }

  function FirstId(ps: seq<Piece>): Option<string> {
    if ps == [] then None
    else if ResponseId(ps[0].value).Some? then ResponseId(ps[0].value)
    else FirstId(ps[1..])
  }

  lemma {:induction false} CaptureAllConcat(c: Captured, a: seq<Piece>, b: seq<Piece>)
    ensures CaptureAll(c, a + b) == CaptureAll(CaptureAll(c, a), b)
    decreases |a|
  {
    if a == [] {
      assert a + b == b;
    } else {
      assert (a + b)[1..] == a[1..] + b;
      CaptureAllConcat(Capture(c, a[0]), a[1..], b);
    }
  }

  /** Every index holds what the last event that wrote it put there. */
  lemma {:induction false} CapturedIsLastWrite(ps: seq<Piece>, i: nat)
    ensures var items := CaptureAll(NOTHING, ps).items;
      LastWrite(ps, i) == if i in items then Some(items[i]) else None
  {
    if ps != [] {
      var before, last := ps[..|ps| - 1], ps[|ps| - 1];
      assert ps == before + [last];
      CaptureAllConcat(NOTHING, before, [last]);
      assert CaptureAll(CaptureAll(NOTHING, before), [last]) == Capture(CaptureAll(NOTHING, before), last);
      CapturedIsLastWrite(before, i);
    }
  }

  lemma {:induction false} FirstIdIsKept(c: Captured, ps: seq<Piece>)
    ensures CaptureAll(c, ps).responseId == if c.responseId.Some? then c.responseId else FirstId(ps)
    decreases |ps|
  {
    if ps != [] {
      FirstIdIsKept(Capture(c, ps[0]), ps[1..]);
    }
  }

  ghost function Beyond(m: map<nat, Value>, n: nat): map<nat, Value> {
    map k | k in m && k >= n :: m[k]
  }

  ghost function Below(n: nat): seq<nat> {
    seq(n, i => i)
  }

  lemma SortedSplits(s: set<nat>, high: seq<nat>, n: nat)
    requires forall k: nat :: k < n ==> k in s
    requires SortedKeys(high, set k | k in s && k >= n)
    ensures Sorted(s) == Below(n) + high
  {
    var keys := Below(n) + high;
    forall k: nat | k < n
      ensures k in Below(n)
    {
      assert Below(n)[k] == k;
    }
    assert forall i :: 0 <= i < |high| ==> high[i] in high;
    assert forall k :: k in keys <==> k in s;
    SortedIsUnique(keys, Sorted(s), s);
  }

  lemma AscendingSplits(m: map<nat, Value>, front: seq<Value>)
    requires forall i: nat :: i < |front| ==> i in m && m[i] == front[i]
    ensures Ascending(m) == front + Ascending(Beyond(m, |front|))
  {
    var further := Beyond(m, |front|);
    var high := Sorted(further.Keys);
    assert further.Keys == set k | k in m.Keys && k >= |front|;
    SortedSplits(m.Keys, high, |front|);
    SplitValues(m, front, further, high);
  }

  lemma SplitValues(m: map<nat, Value>, front: seq<Value>, further: map<nat, Value>, high: seq<nat>)
    requires forall i: nat :: i < |front| ==> i in m && m[i] == front[i]
    requires forall k :: k in high ==> k in further && k in m && further[k] == m[k]
    requires forall k :: k in Below(|front|) + high ==> k in m
    ensures At(m, Below(|front|) + high) == front + At(further, high)
  {
  }

  /** Everything in the response but its id and its output is as the completed event had it. */
  ghost predicate OtherwiseSame(r: seq<Member>, r': seq<Member>) {
    forall key :: key != "id" && key != "output" ==> Lookup(r', key) == Lookup(r, key)
  }

  /**
   * For every event sequence that ends in a completed response: its own items come first and as it
   * had them, streamed items at further indices are kept behind them in ascending order, and a
   * missing id is the first that was seen.
   */
  lemma CompletedResponse(before: seq<Piece>, done: Piece)
    requires IsCompleted(done.value)
    ensures Root(done.value).Object?
    ensures var c := CaptureAll(NOTHING, before + [done]);
      var own, output := Root(done.value).members, OutputItems(done.value);
      var further := Beyond(c.items, |output|);
      && Finalize(c).Some? && Finalize(c).value.Object?
      && var r := Finalize(c).value.members;
         && OtherwiseSame(own, r)
         && Lookup(r, "output") ==
              (if output != [] || further != map[] then Some(Array(output + Ascending(further)))
               else Lookup(own, "output"))
         && Lookup(r, "id") == (if Lookup(own, "id").Some? then Lookup(own, "id")
                                else if FirstId(before).Some? then Some(String(FirstId(before).value)) else None)
  {
    var c := CaptureAll(NOTHING, before + [done]);
    CompletedCapture(before, done);
    FinalizedOutput(c, Root(done.value).members, OutputItems(done.value));
    FinalizedResponse(c, Root(done.value).members, OutputItems(done.value), Finalize(c).value.members);
  }

  lemma CompletedCapture(before: seq<Piece>, done: Piece)
    requires IsCompleted(done.value)
    ensures Root(done.value).Object?
    ensures var c := CaptureAll(NOTHING, before + [done]);
      && c.completed == Some(Root(done.value))
      && (Lookup(Root(done.value).members, "id").None? ==> c.responseId == FirstId(before))
      && (forall i: nat :: i < |OutputItems(done.value)| ==> i in c.items && c.items[i] == OutputItems(done.value)[i])
  {
    CaptureAllConcat(NOTHING, before, [done]);
    assert CaptureAll(NOTHING, before + [done]) == Capture(CaptureAll(NOTHING, before), done);
    FirstIdIsKept(NOTHING, before);
  }

  lemma FinalizedResponse(c: Captured, own: seq<Member>, output: seq<Value>, r: seq<Member>)
    requires output == AsItems(Lookup(own, "output")).UnwrapOr([])
    requires forall i: nat :: i < |output| ==> i in c.items && c.items[i] == output[i]
    requires forall key :: key != "output" ==> Lookup(r, key) == Lookup(Identified(c, own), key)
    requires Lookup(r, "output") == if c.items == map[] then Lookup(own, "output") else Some(Array(Ascending(c.items)))
    ensures var further := Beyond(c.items, |output|);
      && OtherwiseSame(own, r)
      && Lookup(r, "output") ==
           (if output != [] || further != map[] then Some(Array(output + Ascending(further)))
            else Lookup(own, "output"))
      && Lookup(r, "id") == (if Lookup(own, "id").Some? then Lookup(own, "id")
                             else if c.responseId.Some? then Some(String(c.responseId.value)) else None)
  {
    IdentifiedMembers(c, own);
    OutputSplits(c.items, output, Lookup(own, "output"));
  }

  lemma OutputSplits(m: map<nat, Value>, output: seq<Value>, absent: Option<Value>)
    requires forall i: nat :: i < |output| ==> i in m && m[i] == output[i]
    ensures var further := Beyond(m, |output|);
      (if m == map[] then absent else Some(Array(Ascending(m))))
      == if output != [] || further != map[] then Some(Array(output + Ascending(further))) else absent
  {
    AscendingSplits(m, output);
    NothingHere(m, output);
  }

  lemma FinalizedOutput(c: Captured, own: seq<Member>, output: seq<Value>)
    requires c.completed == Some(Object(own)) && output == AsItems(Lookup(own, "output")).UnwrapOr([])
    requires forall i: nat :: i < |output| ==> i in c.items && c.items[i] == output[i]
    ensures Finalize(c).Some? && Finalize(c).value.Object?
    ensures var r := Finalize(c).value.members;
      && (forall key :: key != "output" ==> Lookup(r, key) == Lookup(Identified(c, own), key))
      && Lookup(r, "output") == if c.items == map[] then Lookup(own, "output") else Some(Array(Ascending(c.items)))
  {
    IdentifiedMembers(c, own);
    assert Overlaid(Indexed(output), c.items) == c.items;
    FinalizedMembers(c, own, Identified(c, own), output);
  }

  /** The members of the completed response once it has an id, if any was seen. */
  function Identified(c: Captured, own: seq<Member>): seq<Member> {
    if Lookup(own, "id").None? && c.responseId.Some? then Insert(own, "id", String(c.responseId.value)) else own
  }

  lemma IdentifiedMembers(c: Captured, own: seq<Member>)
    ensures var r := Identified(c, own);
      && (forall key :: key != "id" ==> Lookup(r, key) == Lookup(own, key))
      && Lookup(r, "id") == (if Lookup(own, "id").Some? then Lookup(own, "id")
                             else if c.responseId.Some? then Some(String(c.responseId.value)) else None)
  {
    if c.responseId.Some? {
      LookupInserted(own, "id", String(c.responseId.value));
    }
  }

  lemma NothingHere(m: map<nat, Value>, output: seq<Value>)
    requires forall i: nat :: i < |output| ==> i in m
    ensures m == map[] <==> output == [] && Beyond(m, |output|) == map[]
  {
    assert output != [] ==> 0 in m;
    if k :| k in m && output == [] {
      assert k in Beyond(m, |output|);
    }
    if m == map[] {
      assert Beyond(m, |output|) == map[];
    }
  }

  lemma FinalizedMembers(c: Captured, own: seq<Member>, identified: seq<Member>, output: seq<Value>)
    requires c.completed == Some(Object(own))
    requires identified == Identified(c, own)
    requires output == AsItems(Lookup(identified, "output")).UnwrapOr([])
    requires Overlaid(Indexed(output), c.items) == c.items
    ensures Finalize(c).Some? && Finalize(c).value.Object?
    ensures var r := Finalize(c).value.members;
      && (forall key :: key != "output" ==> Lookup(r, key) == Lookup(identified, key))
      && Lookup(r, "output") == if c.items == map[] then Lookup(identified, "output")
                                else Some(Array(Ascending(c.items)))
  {
    LookupInserted(identified, "output", Array(Ascending(c.items)));
  }

  /** The rebuilt output is the completed event's own exactly when nothing was streamed at an index beyond it. */
  lemma OutputIsOwnExactly(before: seq<Piece>, done: Piece)
    requires IsCompleted(done.value)
    ensures var c := CaptureAll(NOTHING, before + [done]);
      var output := OutputItems(done.value);
      && Finalize(c).Some?
      && (ItemsAt(Finalize(c).value, "output") == output
          <==> forall i: nat :: i >= |output| ==> LastWrite(before + [done], i).None?)
  {
    var c := CaptureAll(NOTHING, before + [done]);
    var output := OutputItems(done.value);
    CompletedResponse(before, done);
    NothingBeyondExactly(before + [done], |output|);
    FurtherItemsShow(output, Beyond(c.items, |output|));
  }

  /** Nothing is captured from an index on exactly when nothing was ever written there. */
  lemma NothingBeyondExactly(pieces: seq<Piece>, n: nat)
    ensures Beyond(CaptureAll(NOTHING, pieces).items, n) == map[]
       <==> forall i: nat :: i >= n ==> LastWrite(pieces, i).None?
  {
    var further := Beyond(CaptureAll(NOTHING, pieces).items, n);
    if further == map[] {
      forall i: nat | i >= n
        ensures LastWrite(pieces, i).None?
      {
        CapturedIsLastWrite(pieces, i);
        assert i !in further;
      }
    } else {
      var i :| i in further;
      CapturedIsLastWrite(pieces, i);
    }
  }

  lemma FurtherItemsShow(output: seq<Value>, further: map<nat, Value>)
    ensures output + Ascending(further) == output <==> further == map[]
  {
    assert |Ascending(further)| == |Sorted(further.Keys)|;
    if further != map[] {
      var i :| i in further;
      assert i in Sorted(further.Keys);
      assert |output + Ascending(further)| > |output|;
    } else {
      assert Ascending(further) == [];
      assert output + [] == output;
    }
  }
}
