/** How archived turns are folded into a summary, and when the folding fails. */
module Summaries {
  import opened Prelude
  import opened Models
  import opened Utf8
  import Text

  const COMPACTION_SUMMARY := "compaction_summary"

  predicate IsSummary(t: Turn) {
    t.syntheticKind == Some(COMPACTION_SUMMARY)
  }

  /** The first lines of a text, their terminators made plain line feeds. */
  function FirstLines(value: string, maxLines: nat): string {
    var lines := Text.Lines(value);
    Text.Join(if |lines| > maxLines then lines[..maxLines] else lines, "\n")
  }

  /** Lines are counted as lines, but length is counted in bytes: a cut inside a character cannot be made. */
  function TruncateMultiline(value: string, maxLines: nat, maxBytes: nat): Option<string> {
    Truncated(FirstLines(value, maxLines), maxBytes)
  }

  function TurnLines(t: Turn): seq<string> {
    if IsSummary(t) then (if t.responseSummary.Some? then [t.responseSummary.value] else [])
    else
      ["g" + Text.Decimal(t.generation) + " user: " + t.requestSummary]
      + (if t.responseSummary.None? then []
         else ["g" + Text.Decimal(t.generation) + " assistant: " + t.responseSummary.value])
  }

  function AllTurnLines(turns: seq<Turn>): seq<string> {
    if turns == [] then [] else TurnLines(turns[0]) + AllTurnLines(turns[1..])
  }

  function TurnsText(turns: seq<Turn>, heading: string): string {
    Text.Join([heading] + AllTurnLines(turns), "\n")
  }

  function Summarize(turns: seq<Turn>, heading: string): Option<string> {
    TruncateMultiline(TurnsText(turns, heading), 16, 480)
  }

  predicate HasText(existing: Option<string>) {
    existing.Some? && !Text.IsBlank(existing.value)
  }

  function MergeSummary(existing: Option<string>, next: string): Option<string> {
    if HasText(existing) then TruncateMultiline(Text.Trim(existing.value) + "\n" + next, 28, 960)
    else TruncateMultiline(next, 16, 480)
  }

  /** The summary of a conversation whose oldest turns are archived behind what was summarised before. */
  function Fold(existing: Option<string>, turns: seq<Turn>, heading: string): Option<string> {
    var next := Summarize(turns, heading);
    if next.None? then None else MergeSummary(existing, next.value)
  }

  /**
   * The archived turns can be folded: their text is short enough or its byte 480 lies between two
   * characters, and so is, or does byte 960 of, the text put behind an earlier summary.
   */
  ghost predicate Foldable(existing: Option<string>, turns: seq<Turn>, heading: string) {
    && Cuts(FirstLines(TurnsText(turns, heading), 16), 480)
    && (HasText(existing) ==>
          var next := Truncated(FirstLines(TurnsText(turns, heading), 16), 480);
          && next.Some?
          && Cuts(FirstLines(Text.Trim(existing.value) + "\n" + next.value, 28), 960))
  }

  // ---- A text already cut can be cut again ----------------------------------------------------------------

  lemma {:induction false} FirstLinesStep(s: string, n: nat)
    requires s != "" && n > 0
    ensures var e := Text.LineEnd(s);
      FirstLines(s, n) ==
        if e == |s| then s
        else
          var line, rest := Text.WithoutCarriageReturn(s[..e]), s[e + 1..];
          if n == 1 || rest == "" then line else line + "\n" + FirstLines(rest, n - 1)
  {
    var e := Text.LineEnd(s);
    if e < |s| {
      var line, rest := Text.WithoutCarriageReturn(s[..e]), s[e + 1..];
      var lines, others := Text.Lines(s), Text.Lines(rest);
      assert lines == [line] + others;
      var first := if |lines| > n then lines[..n] else lines;
      var more := if |others| > n - 1 then others[..n - 1] else others;
      assert first == [line] + more;
      assert first[1..] == more;
    }
  }

  lemma NoLines(s: string, n: nat)
    requires s == "" || n == 0
    ensures FirstLines(s, n) == ""
  {
  }

  lemma JoinedSize(line: string, rest: string)
    ensures Size(line + "\n" + rest) == Size(line) + 1 + Size(rest)
  {
    SizeConcat(line + "\n", rest);
    SizeConcat(line, "\n");
    AsciiSize("\n");
  }

  /** How a text parts at a line feed. */
  lemma PartsAt(s: string, e: nat)
    requires e < |s| && s[e] == '\n'
    ensures Size(s) == Size(s[..e]) + 1 + Size(s[e + 1..])
    ensures Size(Text.WithoutCarriageReturn(s[..e])) <= Size(s[..e])
  {
    JoinedSize(s[..e], s[e + 1..]);
    Parts(s, e);
    WithoutCarriageReturnShrinks(s[..e]);
  }

  lemma Parts(s: string, e: nat)
    requires e < |s| && s[e] == '\n'
    ensures s == s[..e] + "\n" + s[e + 1..]
  {
  }

  lemma WithoutCarriageReturnShrinks(line: string)
    ensures Size(Text.WithoutCarriageReturn(line)) <= Size(line)
  {
    if line != "" {
      PrefixSize(line, |line| - 1);
    }
  }

  lemma {:induction false} FirstLinesShrink(s: string, n: nat)
    ensures Size(FirstLines(s, n)) <= Size(s)
    decreases n
  {
    if s == "" || n == 0 {
      NoLines(s, n);
    } else {
      FirstLinesStep(s, n);
      var e := Text.LineEnd(s);
      if e < |s| {
        PartsAt(s, e);
        FirstLinesShrink(s[e + 1..], n - 1);
        JoinedSize(Text.WithoutCarriageReturn(s[..e]), FirstLines(s[e + 1..], n - 1));
      }
    }
  }

  /** The text is small, or still ends in the dots behind something small. */
  ghost predicate StillCut(text: string, size: nat) {
    Size(text) <= size || exists p: string :: Size(p) <= size && text == p + DOTS
  }

  lemma {:induction false} DotsStay(x: string, n: nat)
    ensures StillCut(FirstLines(x + DOTS, n), Size(x))
    decreases n
  {
    var s := x + DOTS;
    if n == 0 {
      NoLines(s, n);
    } else {
      FirstLinesStep(s, n);
      var e := Text.LineEnd(s);
      if e < |s| {
        assert e < |x| && s[..e] == x[..e] && s[e + 1..] == x[e + 1..] + DOTS;
        PartsAt(x, e);
        DotsStay(x[e + 1..], n - 1);
        LineBefore(Text.WithoutCarriageReturn(x[..e]), FirstLines(s[e + 1..], n - 1), Size(x[e + 1..]), Size(x));
      }
    }
  }

  lemma LineBefore(line: string, rest: string, inner: nat, outer: nat)
    requires StillCut(rest, inner) && Size(line) + 1 + inner <= outer
    ensures StillCut(line + "\n" + rest, outer)
  {
    if Size(rest) <= inner {
      JoinedSize(line, rest);
    } else {
      var p :| Size(p) <= inner && rest == p + DOTS;
      JoinedSize(line, p);
      DotsBehind(line, p);
    }
  }

  lemma DotsBehind(line: string, p: string)
    ensures line + "\n" + (p + DOTS) == (line + "\n" + p) + DOTS
  {
  }

  lemma StillCuts(text: string, size: nat)
    requires StillCut(text, size)
    ensures Cuts(text, size)
  {
    if Size(text) > size {
      var p :| Size(p) <= size && text == p + DOTS;
      SizeConcat(p, DOTS);
      AsciiSize(DOTS);
      var j := size - Size(p);
      assert text[..|p| + j] == p + DOTS[..j];
      SizeConcat(p, DOTS[..j]);
      AsciiSize(DOTS[..j]);
    }
  }

  /** What one cut left behind can always be cut again at the same length. */
  lemma CutsAgain(text: string, max: nat, n: nat)
    requires Truncated(text, max).Some?
    ensures Cuts(FirstLines(Truncated(text, max).value, n), max)
  {
    var next := Truncated(text, max).value;
    TruncatedExactly(text, max);
    if Size(text) <= max {
      FirstLinesShrink(next, n);
    } else {
      var k :| 0 <= k <= |text| && Size(text[..k]) == max && next == text[..k] + DOTS;
      DotsStay(text[..k], n);
      StillCuts(FirstLines(next, n), max);
    }
  }

  // ---- When folding succeeds ----------------------------------------------------------------------------

  /** Folding succeeds exactly when no cut falls inside a character, told from the turns and the old summary. */
  lemma FoldsExactly(existing: Option<string>, turns: seq<Turn>, heading: string)
    ensures Fold(existing, turns, heading).Some? <==> Foldable(existing, turns, heading)
  {
    var text := FirstLines(TurnsText(turns, heading), 16);
    TruncatedExactly(text, 480);
    if Truncated(text, 480).Some? {
      var next := Truncated(text, 480).value;
      if HasText(existing) {
        TruncatedExactly(FirstLines(Text.Trim(existing.value) + "\n" + next, 28), 960);
      } else {
        CutsAgain(text, 480, 16);
        TruncatedExactly(FirstLines(next, 16), 480);
      }
    }
  }

  /** However many turns are folded, and however often, the summary stays below 964 bytes. */
  lemma SummaryIsBounded(existing: Option<string>, turns: seq<Turn>, heading: string)
    ensures Fold(existing, turns, heading).Some? ==> Size(Fold(existing, turns, heading).value) <= 963
  {
    var next := Summarize(turns, heading);
    if next.Some? {
      if HasText(existing) {
        TruncatedExactly(FirstLines(Text.Trim(existing.value) + "\n" + next.value, 28), 960);
      } else {
        TruncatedExactly(FirstLines(next.value, 16), 480);
      }
    }
  }
}
