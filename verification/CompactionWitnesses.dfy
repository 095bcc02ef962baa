/** A conversation of ordinary requests that loses its turns when the thirteenth is answered. */
module CompactionWitnesses {
  import opened Prelude
  import opened Models
  import opened Bus
  import opened AccountOps
  import opened Runs
  import LeaseSafety
  import Memory
  import Replication
  import Summaries
  import Text
  import Threads
  import Utf8
  import Witnesses

  const THREAD := "t"

  function Opened(tenant: Tenant): Op {
    UpsertThread(Threads.Upsert(tenant, THREAD, None, None, None, "", 0))
  }

  function Asked(p: PrincipalId, text: string): Op {
    Op.BeginTurn(p, "", PendingTurn(1, text, [], 0), 0)
  }

  function Answered(p: PrincipalId): Op {
    Op.RecordTurn(p, "", None, [], 0, Some(THREAD))
  }

  function Spoken(text: string): Turn {
    Memory.CompletedTurn(PendingTurn(1, text, [], 0), "", None, [], 0)
  }

  ghost predicate AllSpoken(turns: seq<Turn>, text: string, n: nat) {
    |turns| == n && forall i :: 0 <= i < n ==> turns[i] == Spoken(text)
  }

  /** The only thread is the principal's and was never compacted; its conversation has n turns. */
  ghost predicate Talked(s: Store, p: PrincipalId, text: string, n: nat) {
    && Replication.LeaderInv(s) && s.threads.Keys == {THREAD}
    && s.threads[THREAD].principalId == p && s.threads[THREAD].compactionSummary.None?
    && (p in s.contexts <==> n > 0)
    && (n > 0 ==> AllSpoken(s.contexts[p].turns, text, n))
  }

  /** The same, once the next request is asked. */
  ghost predicate Waiting(s: Store, p: PrincipalId, text: string, n: nat) {
    && Replication.LeaderInv(s) && s.threads.Keys == {THREAD}
    && s.threads[THREAD].principalId == p && s.threads[THREAD].compactionSummary.None?
    && p in s.contexts && s.contexts[p].pendingTurn == Some(PendingTurn(1, text, [], 0))
    && AllSpoken(s.contexts[p].turns, text, n)
  }

  lemma OpenedThread(tenant: Tenant, w: World)
    ensures var s := Step(EMPTY_STORE, Opened(tenant), w).store;
      && s.threads.Keys == {THREAD} && s.contexts == map[]
      && s.threads[THREAD].principalId == Threads.PrincipalOf(tenant.slug, THREAD, w.wording)
      && s.threads[THREAD].compactionSummary.None?
  {
  }

  lemma AskedStep(s: Store, p: PrincipalId, text: string, n: nat, w: World)
    requires Talked(s, p, text, n)
    ensures Legal(s, Asked(p, text)) && Waiting(Step(s, Asked(p, text), w).store, p, text, n)
  {
    Replication.StepKeeps(s, Asked(p, text), w);
  }

  lemma AnsweredStep(s: Store, p: PrincipalId, text: string, n: nat, w: World)
    requires Waiting(s, p, text, n) && n < Memory.TURN_LIMIT
    ensures Legal(s, Answered(p)) && Talked(Step(s, Answered(p), w).store, p, text, n + 1)
  {
    Replication.StepKeeps(s, Answered(p), w);
    Memory.RecordOnly(s, p, "", None, [], 0, Some(THREAD), w.wording);
  }

  ghost predicate TalkedAfter(ops: seq<Op>, p: PrincipalId, text: string, n: nat, w: World) {
    LeaseSafety.LegalRun(EMPTY_STORE, ops, w) && Talked(LeaseSafety.AfterRun(EMPTY_STORE, ops, w), p, text, n)
  }

  ghost predicate WaitingAfter(ops: seq<Op>, p: PrincipalId, text: string, n: nat, w: World) {
    LeaseSafety.LegalRun(EMPTY_STORE, ops, w) && Waiting(LeaseSafety.AfterRun(EMPTY_STORE, ops, w), p, text, n)
  }

  lemma OpenedTalks(tenant: Tenant, text: string, w: World)
    ensures var p := Threads.PrincipalOf(tenant.slug, THREAD, w.wording);
      TalkedAfter([Opened(tenant)], p, text, 0, w)
  {
    Replication.EmptyIsInvariant();
    Replication.StepKeeps(EMPTY_STORE, Opened(tenant), w);
    assert LeaseSafety.LegalRun(EMPTY_STORE, [], w) && LeaseSafety.AfterRun(EMPTY_STORE, [], w) == EMPTY_STORE;
    Witnesses.RunOneMore(EMPTY_STORE, [], Opened(tenant), w);
    assert [] + [Opened(tenant)] == [Opened(tenant)];
    OpenedThread(tenant, w);
  }

  lemma AskedLeads(ops: seq<Op>, p: PrincipalId, text: string, n: nat, w: World)
    requires TalkedAfter(ops, p, text, n, w)
    ensures WaitingAfter(ops + [Asked(p, text)], p, text, n, w)
  {
    Replication.EmptyIsInvariant();
    AskedStep(LeaseSafety.AfterRun(EMPTY_STORE, ops, w), p, text, n, w);
    Witnesses.RunOneMore(EMPTY_STORE, ops, Asked(p, text), w);
  }

  lemma AnsweredLeads(ops: seq<Op>, p: PrincipalId, text: string, n: nat, w: World)
    requires WaitingAfter(ops, p, text, n, w) && n < Memory.TURN_LIMIT
    ensures TalkedAfter(ops + [Answered(p)], p, text, n + 1, w)
  {
    Replication.EmptyIsInvariant();
    AnsweredStep(LeaseSafety.AfterRun(EMPTY_STORE, ops, w), p, text, n, w);
    Witnesses.RunOneMore(EMPTY_STORE, ops, Answered(p), w);
  }

  lemma ExchangeLeads(ops: seq<Op>, p: PrincipalId, text: string, n: nat, w: World)
    requires TalkedAfter(ops, p, text, n, w) && n < Memory.TURN_LIMIT
    ensures TalkedAfter(ops + [Asked(p, text)] + [Answered(p)], p, text, n + 1, w)
  {
    AskedLeads(ops, p, text, n, w);
    AnsweredLeads(ops + [Asked(p, text)], p, text, n, w);
  }

  /** A thread is opened, and the same request asked and answered n times. */
  lemma {:induction false} TalkLeads(tenant: Tenant, p: PrincipalId, text: string, n: nat, w: World)
      returns (ops: seq<Op>)
    requires p == Threads.PrincipalOf(tenant.slug, THREAD, w.wording) && n <= Memory.TURN_LIMIT
    ensures TalkedAfter(ops, p, text, n, w)
  {
    if n == 0 {
      ops := [Opened(tenant)];
      OpenedTalks(tenant, text, w);
    } else {
      var before := TalkLeads(tenant, p, text, n - 1, w);
      ops := before + [Asked(p, text)] + [Answered(p)];
      ExchangeLeads(before, p, text, n - 1, w);
    }
  }

  /** A text of characters that take three bytes each, such as Chinese. */
  ghost predicate OfThreeBytes(text: string) {
    forall i :: 0 <= i < |text| ==> Utf8.Width(text[i]) == 3
  }

  lemma {:induction false} ThreesSize(text: string)
    requires OfThreeBytes(text)
    ensures Utf8.Size(text) == 3 * |text|
  {
    if text != "" {
      ThreesSize(text[1..]);
    }
  }

  /** Behind plain characters a cut between two multiples of three falls inside a character. */
  lemma ThreesMiss(plain: string, text: string, q: nat, n: nat)
    requires Utf8.Size(plain) == |plain| && OfThreeBytes(text)
    requires |plain| + 3 * q < n < |plain| + 3 * q + 3
    ensures !Utf8.IsBoundary(plain + text, n)
  {
    forall k | 0 <= k <= |plain + text|
      ensures Utf8.Size((plain + text)[..k]) != n
    {
      CutMisses(plain, text, q, n, k);
    }
  }

  lemma CutMisses(plain: string, text: string, q: nat, n: nat, k: nat)
    requires Utf8.Size(plain) == |plain| && OfThreeBytes(text)
    requires |plain| + 3 * q < n < |plain| + 3 * q + 3 && k <= |plain + text|
    ensures Utf8.Size((plain + text)[..k]) != n
  {
    if k <= |plain| {
      CutBefore(plain, text, n, k);
    } else {
      CutBehind(plain, text, q, n, k);
    }
  }

  lemma CutBefore(plain: string, text: string, n: nat, k: nat)
    requires Utf8.Size(plain) < n && k <= |plain|
    ensures Utf8.Size((plain + text)[..k]) != n
  {
    Utf8.PrefixOfFirst(plain, text, k);
    Utf8.PrefixSize(plain, k);
  }

  lemma CutBehind(plain: string, text: string, q: nat, n: nat, k: nat)
    requires |plain| <= k <= |plain + text| && OfThreeBytes(text)
    requires Utf8.Size(plain) + 3 * q < n < Utf8.Size(plain) + 3 * q + 3
    ensures Utf8.Size((plain + text)[..k]) != n
  {
    Utf8.PrefixOfBoth(plain, text, k);
    Utf8.SizeConcat(plain, text[..k - |plain|]);
    ThreesSize(text[..k - |plain|]);
  }

  const USER := "g1 user: "

  lemma FirstLine(text: string)
    ensures Summaries.TurnLines(Spoken(text))[..1] == [USER + text]
    ensures |Summaries.TurnLines(Spoken(text))| == 2
  {
    assert Text.Decimal(1) == "1";
    assert "g" + "1" + " user: " == USER;
  }

  /** The text to be summarised begins with the heading and the first request. */
  lemma TurnsTextBegins(turns: seq<Turn>, text: string, heading: string)
    requires turns != [] && turns[0] == Spoken(text)
    ensures var begin := heading + "\n" + USER + text; begin + "\n" <= Summaries.TurnsText(turns, heading)
  {
    FirstLine(text);
    var lines := Summaries.AllTurnLines(turns);
    assert lines[0] == USER + text && |lines| >= 2;
    var all := [heading] + lines;
    assert all[1..] == lines;
    var more := Text.Join(lines[1..], "\n");
    assert Text.Join(lines, "\n") == lines[0] + "\n" + more;
    assert Text.Join(all, "\n") == heading + "\n" + (lines[0] + "\n" + more);
    assert heading + "\n" + (USER + text + "\n" + more) == (heading + "\n" + USER + text) + "\n" + more;
  }

  ghost predicate OneLine(line: string) {
    forall i :: 0 <= i < |line| ==> line[i] != '\n' && line[i] != '\r'
  }

  lemma LineEnds(line: string, rest: string)
    requires OneLine(line)
    ensures Text.LineEnd(line + "\n" + rest) == |line|
    ensures (line + "\n" + rest)[..|line|] == line && (line + "\n" + rest)[|line| + 1..] == rest
    ensures Text.WithoutCarriageReturn(line) == line
  {
    var s := line + "\n" + rest;
    assert s[|line|] == '\n';
    assert forall i :: 0 <= i < |line| ==> s[i] == line[i];
  }

  lemma FirstLineKept(line: string, rest: string, n: nat)
    requires OneLine(line) && rest != "" && n > 0
    ensures Summaries.FirstLines(line + "\n" + rest, n + 1) == line + "\n" + Summaries.FirstLines(rest, n)
  {
    LineEnds(line, rest);
    Summaries.FirstLinesStep(line + "\n" + rest, n + 1);
  }

  lemma LineKept(line: string, rest: string, n: nat)
    requires OneLine(line) && n > 0
    ensures line <= Summaries.FirstLines(line + "\n" + rest, n)
  {
    LineEnds(line, rest);
    Summaries.FirstLinesStep(line + "\n" + rest, n);
  }

  /** The first two lines of a text are kept as they are. */
  lemma TwoLinesKept(first: string, second: string, rest: string)
    requires OneLine(first) && OneLine(second)
    ensures first + "\n" + second <= Summaries.FirstLines(first + "\n" + (second + "\n" + rest), 16)
  {
    LineKept(second, rest, 15);
    FirstLineKept(first, second + "\n" + rest, 15);
    PrefixBehind(first + "\n", second, Summaries.FirstLines(second + "\n" + rest, 15));
  }

  lemma PrefixBehind(head: string, a: string, b: string)
    requires a <= b
    ensures head + a <= head + b
  {
  }

  const PLAIN := Memory.SUMMARY_HEADING + "\n" + USER

  lemma PlainIsPlain()
    ensures OneLine(Memory.SUMMARY_HEADING) && OneLine(USER)
    ensures Utf8.Size(PLAIN) == |PLAIN| == 41
  {
    assert forall i :: 0 <= i < |PLAIN| ==> Utf8.Width(PLAIN[i]) == 1;
    Utf8.AsciiSize(PLAIN);
  }

  lemma CannotFold(turns: seq<Turn>, text: string)
    requires turns != [] && turns[0] == Spoken(text) && OfThreeBytes(text) && |text| >= 147
    ensures !Summaries.Foldable(None, turns, Memory.SUMMARY_HEADING)
  {
    SummaryBegins(turns, text);
    CannotCut(Summaries.FirstLines(Summaries.TurnsText(turns, Memory.SUMMARY_HEADING), 16), text);
  }

  /** Byte 480 falls inside a character, and the text is longer than that. */
  lemma CannotCut(kept: string, text: string)
    requires PLAIN + text <= kept && OfThreeBytes(text) && |text| >= 147
    ensures !Utf8.Cuts(kept, 480)
  {
    PlainIsPlain();
    var tail := kept[|PLAIN + text|..];
    assert kept == (PLAIN + text) + tail;
    ThreesMiss(PLAIN, text, 146, 480);
    ThreesSize(text);
    Utf8.SizeConcat(PLAIN, text);
    Utf8.SizeConcat(PLAIN + text, tail);
    Utf8.BoundaryInPrefix(PLAIN + text, tail, 480);
  }

  lemma SummaryBegins(turns: seq<Turn>, text: string)
    requires turns != [] && turns[0] == Spoken(text) && OfThreeBytes(text)
    ensures PLAIN + text <= Summaries.FirstLines(Summaries.TurnsText(turns, Memory.SUMMARY_HEADING), 16)
  {
    PlainIsPlain();
    TurnsTextBegins(turns, text, Memory.SUMMARY_HEADING);
    var whole, begin := Summaries.TurnsText(turns, Memory.SUMMARY_HEADING), PLAIN + text + "\n";
    var rest := whole[|begin|..];
    assert OneLine(USER + text);
    BeginsTwice(Memory.SUMMARY_HEADING, text, rest);
    assert whole == begin + rest;
    TwoLinesKept(Memory.SUMMARY_HEADING, USER + text, rest);
  }

  lemma BeginsTwice(heading: string, text: string, rest: string)
    ensures heading + "\n" + USER + text + "\n" + rest == heading + "\n" + ((USER + text) + "\n" + rest)
    ensures heading + "\n" + USER + text == heading + "\n" + (USER + text)
  {
  }

  /**
   * Ask the same question of at least 147 three-byte characters thirteen times: the thirteenth answer
   * takes nine turns out of the conversation, cannot sum them up, and tells the follower nothing of it.
   */
  lemma TurnsAreLost(tenant: Tenant, text: string, w: World) returns (ops: seq<Op>)
    requires OfThreeBytes(text) && |text| >= 147 && w.wording == Memory.GATEWAY_WORDING
    ensures LeaseSafety.LegalRun(EMPTY_STORE, ops, w)
    ensures var s, p := LeaseSafety.AfterRun(EMPTY_STORE, ops, w), Threads.PrincipalOf(tenant.slug, THREAD, w.wording);
      && Replication.LeaderInv(s) && Legal(s, Answered(p)) && p in s.contexts && |s.contexts[p].turns| == 12
      && !Replication.Published(s, Answered(p), w) && !Bridges(s, Step(s, Answered(p), w))
      && var s' := Step(s, Answered(p), w).store; p in s'.contexts && |s'.contexts[p].turns| == 4
  {
    var p := Threads.PrincipalOf(tenant.slug, THREAD, w.wording);
    var before := TalkLeads(tenant, p, text, Memory.TURN_LIMIT, w);
    AskedLeads(before, p, text, Memory.TURN_LIMIT, w);
    ops := before + [Asked(p, text)];
    AnswerLoses(LeaseSafety.AfterRun(EMPTY_STORE, ops, w), p, text, w);
  }

  lemma AnswerLoses(s: Store, p: PrincipalId, text: string, w: World)
    requires OfThreeBytes(text) && |text| >= 147 && w.wording == Memory.GATEWAY_WORDING
    requires Waiting(s, p, text, Memory.TURN_LIMIT)
    ensures Legal(s, Answered(p))
    ensures !Replication.Published(s, Answered(p), w) && !Bridges(s, Step(s, Answered(p), w))
    ensures p in Step(s, Answered(p), w).store.contexts && |Step(s, Answered(p), w).store.contexts[p].turns| == 4
  {
    CannotFold(Memory.Archived(s.contexts[p], Memory.PRESERVED_TURNS - 1), text);
    Memory.RecordTurnKeepsSuffix(s, p, "", None, [], 0, Some(THREAD), w.wording);
    Replication.StepBridgesExactly(s, Answered(p), w);
  }
}
