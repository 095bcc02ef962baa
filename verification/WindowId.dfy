/** The window identifier a client sends, `<thread>:<generation>`, and its canonical spelling. */
module WindowId {
  import opened Prelude
  import Text
  import Threads

  const U32_END: nat := 0x1_0000_0000

  datatype Parsed = Parsed(thread: string, generation: nat, canonical: string)

  datatype Malformed = NoColon | EmptyThread | BadGeneration

  datatype Result = Ok(parsed: Parsed) | Err(error: Malformed)

  /** The position of the last colon, or the length of the text. */
  function LastColon(s: string): (i: nat)
    ensures i <= |s|
  {
    if s == "" then 0
    else if s[|s| - 1] == ':' then |s| - 1
    else
      var i := LastColon(s[..|s| - 1]);
      if i == |s| - 1 then |s| else i
  }

  predicate IsDigit(c: char) {
    '0' <= c <= '9'
  }

  /** The value of a row of digits; none if anything else is among them. */
  function Digits(s: string): Option<nat> {
    if s == "" then Some(0)
    else
      var front, last := Digits(s[..|s| - 1]), s[|s| - 1];
      if front.None? || !IsDigit(last) then None else Some(front.value * 10 + (last as int - '0' as int))
  }

  /** An unsigned 32-bit number: digits, with one plus sign allowed before them. */
  function ParseU32(s: string): Option<nat> {
    var digits := if s != "" && s[0] == '+' then s[1..] else s;
    var value := Digits(digits);
    if digits == "" || value.None? || value.value >= U32_END then None else value
  }

  function Spelled(thread: string, generation: nat): string {
    thread + ":" + Text.Decimal(generation)
  }

  function Parse(value: string): Result {
    var trimmed := Text.Trim(value);
    var colon := LastColon(trimmed);
    if colon == |trimmed| then Err(NoColon)
    else
      var thread := Threads.Normalize(trimmed[..colon]);
      if thread == "" then Err(EmptyThread)
      else
        match ParseU32(trimmed[colon + 1..])
        case None => Err(BadGeneration)
        case Some(generation) => Ok(Parsed(thread, generation, Spelled(thread, generation)))
  }

  lemma {:induction false} DecimalIsRead(n: nat)
    ensures Text.Decimal(n) != "" && Digits(Text.Decimal(n)) == Some(n)
    ensures forall i :: 0 <= i < |Text.Decimal(n)| ==> IsDigit(Text.Decimal(n)[i])
  {
    var d := Text.Decimal(n);
    if n < 10 {
      assert d[..0] == "" && Digits("") == Some(0);
    } else {
      DecimalIsRead(n / 10);
      assert d[..|d| - 1] == Text.Decimal(n / 10);
    }
  }

  lemma {:induction false} ColonIsLast(thread: string, digits: string)
    requires forall i :: 0 <= i < |digits| ==> IsDigit(digits[i])
    ensures LastColon(thread + ":" + digits) == |thread|
  {
    if digits == "" {
      assert thread + ":" + digits == thread + ":";
    } else {
      var front, last := digits[..|digits| - 1], digits[|digits| - 1];
      ColonIsLast(thread, front);
      assert (thread + ":" + digits)[..|thread| + |digits|] == thread + ":" + front;
      assert (thread + ":" + digits)[|thread| + |digits|] == last;
    }
  }

  lemma NormalizedStart(id: string)
    ensures var n := Threads.Normalize(id); n != "" ==> !Text.IsWhitespace(n[0])
  {
    Text.TrimFixed(id);
  }

  lemma DigitsAreVisible(c: char)
    requires IsDigit(c)
    ensures !Text.IsWhitespace(c) && c != '+'
  {
  }

  lemma SpelledParses(thread: string, generation: nat)
    requires thread != "" && !Text.IsWhitespace(thread[0]) && Threads.Normalize(thread) == thread
    requires generation < U32_END
    ensures Parse(Spelled(thread, generation)) == Ok(Parsed(thread, generation, Spelled(thread, generation)))
  {
    var digits, s := Text.Decimal(generation), Spelled(thread, generation);
    DecimalIsRead(generation);
    DigitsAreVisible(digits[0]);
    DigitsAreVisible(digits[|digits| - 1]);
    SpellingSplits(thread, digits);
    assert ParseU32(digits) == Some(generation);
  }

  /** Trimming leaves the spelling alone, and the last colon parts it. */
  lemma SpellingSplits(thread: string, digits: string)
    requires thread != "" && !Text.IsWhitespace(thread[0]) && digits != ""
    requires !Text.IsWhitespace(digits[|digits| - 1]) && forall i :: 0 <= i < |digits| ==> IsDigit(digits[i])
    ensures var s := thread + ":" + digits;
      && Text.Trim(s) == s && LastColon(s) == |thread|
      && s[..|thread|] == thread && s[|thread| + 1..] == digits
  {
    var s := thread + ":" + digits;
    ColonIsLast(thread, digits);
    assert s[0] == thread[0] && s[|s| - 1] == digits[|digits| - 1];
    Text.TrimFixed(s);
  }

  /** The canonical spelling names the same window, and is its own canonical spelling. */
  lemma CanonicalSpellingIsStable(value: string)
    requires Parse(value).Ok?
    ensures Parse(Parse(value).parsed.canonical) == Parse(value)
  {
    var p := Parse(value).parsed;
    var trimmed := Text.Trim(value);
    NormalizedStart(trimmed[..LastColon(trimmed)]);
    Threads.NormalizeTwice(trimmed[..LastColon(trimmed)]);
    SpelledParses(p.thread, p.generation);
  }
}
