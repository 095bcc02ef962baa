/** Bytes read as text chunk by chunk, with a replacement for whatever is not UTF-8. */
module Lossy {
  import opened Prelude
  import opened Utf8
  import opened SseFraming

  newtype Byte = b: int | 0 <= b < 256

  const REPLACEMENT: char := '\U{FFFD}'

  predicate IsContinuation(b: Byte) {
    0x80 <= b < 0xC0
  }

  /** The byte at a position, or one that continues nothing behind the end. */
  function At(bytes: seq<Byte>, i: nat): Byte {
    if i < |bytes| then bytes[i] else 0
  }

  /** How many bytes a character takes that begins with this one; none begins with some. */
  function LeadWidth(b: Byte): (n: nat)
    ensures n <= 4
  {
    if b < 0x80 then 1
    else if 0xC2 <= b < 0xE0 then 2
    else if 0xE0 <= b < 0xF0 then 3
    else if 0xF0 <= b < 0xF5 then 4
    else 0
  }

  /** The second byte is one of those that may follow the first. */
  predicate Follows(first: Byte, second: Byte) {
    && IsContinuation(second)
    && (first == 0xE0 ==> second >= 0xA0) && (first == 0xED ==> second < 0xA0)
    && (first == 0xF0 ==> second >= 0x90) && (first == 0xF4 ==> second < 0x90)
  }

  /** How many of the first bytes fit together, up to a whole character. */
  function FittingLength(bytes: seq<Byte>): (n: nat)
    requires bytes != []
    ensures 1 <= n <= |bytes| && n <= 4
  {
    var w := LeadWidth(bytes[0]);
    if w < 2 || !Follows(bytes[0], At(bytes, 1)) then 1
    else if w < 3 || !IsContinuation(At(bytes, 2)) then 2
    else if w < 4 || !IsContinuation(At(bytes, 3)) then 3
    else 4
  }

  function Bits(b: Byte): int {
    b as int - 0x80
  }

  /** The character spelled by bytes that fit together and are as many as the first one calls for. */
  function Spelled(bytes: seq<Byte>): char
    requires bytes != [] && |bytes| == FittingLength(bytes) == LeadWidth(bytes[0])
  {
    var first := bytes[0] as int;
    match |bytes|
    case 1 => first as char
    case 2 => ((first - 0xC0) * 0x40 + Bits(bytes[1])) as char
    case 3 => ((first - 0xE0) * 0x1000 + Bits(bytes[1]) * 0x40 + Bits(bytes[2])) as char
    case _ => ((first - 0xF0) * 0x4_0000 + Bits(bytes[1]) * 0x1000 + Bits(bytes[2]) * 0x40 + Bits(bytes[3])) as char
  }

  /** What bytes that fit together are read as: their character, or a replacement when some are missing. */
  function Read(bytes: seq<Byte>): char
    requires bytes != [] && |bytes| == FittingLength(bytes)
  {
    if |bytes| == LeadWidth(bytes[0]) then Spelled(bytes) else REPLACEMENT
  }

  function Head(bytes: seq<Byte>): (c: char)
    requires bytes != []
  {
    var n := FittingLength(bytes);
    FittingStays(bytes[..n], bytes[n..]);
    assert bytes[..n] + bytes[n..] == bytes;
    Read(bytes[..n])
  }

  function Decode(bytes: seq<Byte>): string
    decreases |bytes|
  {
    if bytes == [] then "" else [Head(bytes)] + Decode(bytes[FittingLength(bytes)..])
  }

  /** The first part is as long as the bytes that fit together, or breaks them off. */
  lemma FittingStays(a: seq<Byte>, b: seq<Byte>)
    requires a != []
    ensures FittingLength(a) == if FittingLength(a + b) <= |a| then FittingLength(a + b) else |a|
  {
    assert (a + b)[0] == a[0];
    assert |a| > 1 ==> At(a + b, 1) == At(a, 1);
    assert |a| > 2 ==> At(a + b, 2) == At(a, 2);
    assert |a| > 3 ==> At(a + b, 3) == At(a, 3);
  }

  // ---- A cut through the bytes ------------------------------------------------------------------------------

  /** Decoding comes to a stop between the two parts. */
  ghost predicate Clean(a: seq<Byte>, b: seq<Byte>)
    decreases |a|
  {
    a == [] || (FittingLength(a + b) <= |a| && Clean(a[FittingLength(a + b)..], b))
  }

  /** How many replacements a text shows. */
  function Replacements(s: string): nat {
    if s == "" then 0 else (if s[0] == REPLACEMENT then 1 else 0) + Replacements(s[1..])
  }

  lemma {:induction false} ReplacementsConcat(a: string, b: string)
    ensures Replacements(a + b) == Replacements(a) + Replacements(b)
  {
    if a == "" {
      assert a + b == b;
    } else {
      assert (a + b)[1..] == a[1..] + b;
      ReplacementsConcat(a[1..], b);
    }
  }

  /** What lies within the first part is decoded the same without the second. */
  lemma HeadStays(a: seq<Byte>, b: seq<Byte>)
    requires a != [] && FittingLength(a + b) <= |a|
    ensures FittingLength(a) == FittingLength(a + b) && Head(a) == Head(a + b)
  {
    FittingStays(a, b);
    var n := FittingLength(a);
    assert (a + b)[..n] == a[..n];
  }

  lemma FittingFallsShort(bytes: seq<Byte>, n: nat)
    requires bytes != [] && 1 <= n < FittingLength(bytes)
    ensures n < LeadWidth(bytes[0])
  {
  }

  lemma IncompleteIsReplaced(a: seq<Byte>)
    requires a != [] && FittingLength(a) == |a| < LeadWidth(a[0])
    ensures Decode(a) == [REPLACEMENT]
  {
    assert a[..|a|] == a && a[|a|..] == [];
    assert Head(a) == Read(a);
  }

  /** What is broken off is replaced as one. */
  lemma HeadIsCut(a: seq<Byte>, b: seq<Byte>)
    requires a != [] && FittingLength(a + b) > |a|
    ensures Decode(a) == [REPLACEMENT]
  {
    FittingStays(a, b);
    FittingFallsShort(a + b, |a|);
    assert (a + b)[0] == a[0];
    IncompleteIsReplaced(a);
  }

  lemma FittingContinues(bytes: seq<Byte>, i: nat)
    requires bytes != [] && 1 <= i < FittingLength(bytes)
    ensures IsContinuation(bytes[i])
  {
  }

  lemma RestContinues(a: seq<Byte>, b: seq<Byte>)
    requires a != [] && FittingLength(a + b) > |a|
    ensures forall i :: 0 <= i < FittingLength(a + b) - |a| ==> IsContinuation(b[i])
  {
    forall i | 0 <= i < FittingLength(a + b) - |a| ensures IsContinuation(b[i]) {
      FittingContinues(a + b, |a| + i);
      assert (a + b)[|a| + i] == b[i];
    }
  }

  lemma ContinuationIsReplaced(b: seq<Byte>)
    requires b != [] && IsContinuation(b[0])
    ensures Decode(b) == [REPLACEMENT] + Decode(b[1..])
  {
    assert LeadWidth(b[0]) == 0 && FittingLength(b) == 1;
  }

  /** The rest of what was broken off is replaced byte by byte. */
  lemma {:induction false} ContinuationsAreReplaced(b: seq<Byte>, k: nat)
    requires k <= |b| && forall i :: 0 <= i < k ==> IsContinuation(b[i])
    ensures Replacements(Decode(b)) == k + Replacements(Decode(b[k..]))
    decreases k
  {
    if k == 0 {
      assert b[0..] == b;
    } else {
      ContinuationIsReplaced(b);
      ReplacementsConcat([REPLACEMENT], Decode(b[1..]));
      ContinuationsAreReplaced(b[1..], k - 1);
      assert b[1..][k - 1..] == b[k..];
    }
  }

  /** Decoding part by part comes to the same text, or to one with more replacements. */
  ghost predicate ShowsUnlessClean(a: seq<Byte>, b: seq<Byte>) {
    if Clean(a, b) then Decode(a + b) == Decode(a) + Decode(b)
    else Replacements(Decode(a + b)) < Replacements(Decode(a)) + Replacements(Decode(b))
  }

  lemma CutAcross(a: seq<Byte>, b: seq<Byte>)
    requires a != [] && FittingLength(a + b) > |a|
    ensures ShowsUnlessClean(a, b)
  {
    var n := FittingLength(a + b);
    HeadIsCut(a, b);
    RestContinues(a, b);
    ContinuationsAreReplaced(b, n - |a|);
    assert (a + b)[n..] == b[n - |a|..];
    ReplacementsConcat([Head(a + b)], Decode((a + b)[n..]));
  }

  lemma CutBehind(a: seq<Byte>, b: seq<Byte>)
    requires a != [] && FittingLength(a + b) <= |a|
    requires ShowsUnlessClean(a[FittingLength(a + b)..], b)
    ensures ShowsUnlessClean(a, b)
  {
    var n := FittingLength(a + b);
    HeadStays(a, b);
    assert (a + b)[n..] == a[n..] + b;
    var head := [Head(a)];
    ReplacementsConcat(head, Decode(a[n..]));
    ReplacementsConcat(head, Decode(a[n..] + b));
    Associates(head, Decode(a[n..]), Decode(b));
  }

  lemma {:induction false} CutShowsExactly(a: seq<Byte>, b: seq<Byte>)
    ensures ShowsUnlessClean(a, b)
    decreases |a|
  {
    if a == [] {
      assert a + b == b && "" + Decode(b) == Decode(b);
    } else if FittingLength(a + b) <= |a| {
      CutShowsExactly(a[FittingLength(a + b)..], b);
      CutBehind(a, b);
    } else {
      CutAcross(a, b);
    }
  }

  // ---- Chunks of bytes --------------------------------------------------------------------------------------

  function Joined(chunks: seq<seq<Byte>>): seq<Byte> {
    if chunks == [] then [] else chunks[0] + Joined(chunks[1..])
  }

  /** Each chunk decoded by itself, as the relay does. */
  function DecodeEach(chunks: seq<seq<Byte>>): (texts: seq<string>)
    ensures |texts| == |chunks|
  {
    if chunks == [] then [] else [Decode(chunks[0])] + DecodeEach(chunks[1..])
  }

  /** No chunk ends within a character. */
  ghost predicate KeepsCharacters(chunks: seq<seq<Byte>>) {
    chunks == [] || (Clean(chunks[0], Joined(chunks[1..])) && KeepsCharacters(chunks[1..]))
  }

  lemma {:induction false} ChunkedDecoding(chunks: seq<seq<Byte>>)
    ensures var apart := Flatten(DecodeEach(chunks)); var whole := Decode(Joined(chunks));
      if KeepsCharacters(chunks) then apart == whole else Replacements(whole) < Replacements(apart)
  {
    if chunks != [] {
      var first, rest := chunks[0], chunks[1..];
      ChunkedDecoding(rest);
      CutShowsExactly(first, Joined(rest));
      ReplacementsConcat(Decode(first), Decode(Joined(rest)));
      ReplacementsConcat(Decode(first), Flatten(DecodeEach(rest)));
      assert DecodeEach(chunks)[1..] == DecodeEach(rest);
    }
  }

  lemma {:induction false} NormalizingKeepsReplacements(s: string)
    ensures Replacements(Normalize(s)) == Replacements(s)
    decreases |s|
  {
    if |s| >= 2 && s[0] == '\r' && s[1] == '\n' {
      NormalizingKeepsReplacements(s[2..]);
      ReplacementsConcat("\n", Normalize(s[2..]));
      assert s[1..][1..] == s[2..];
    } else if s != "" {
      NormalizingKeepsReplacements(s[1..]);
      ReplacementsConcat([s[0]], Normalize(s[1..]));
    }
  }

  lemma {:induction false} NormalizingEachKeepsReplacements(texts: seq<string>)
    ensures Replacements(NormalizeEach(texts)) == Replacements(Flatten(texts))
  {
    if texts != [] {
      NormalizingEachKeepsReplacements(texts[1..]);
      NormalizingKeepsReplacements(texts[0]);
      ReplacementsConcat(texts[0], Flatten(texts[1..]));
      ReplacementsConcat(Normalize(texts[0]), NormalizeEach(texts[1..]));
    }
  }

  /** Every chunking of the bytes yields the records of the whole exactly when it splits no character and no CRLF. */
  lemma ByteChunkingIsInvisibleExactly(chunks: seq<seq<Byte>>)
    ensures Frame(NormalizeEach(DecodeEach(chunks))) == Frame(Normalize(Decode(Joined(chunks))))
      <==> KeepsCharacters(chunks) && Splits(DecodeEach(chunks)) == 0
  {
    var texts := DecodeEach(chunks);
    var whole := Decode(Joined(chunks));
    ChunkedDecoding(chunks);
    if KeepsCharacters(chunks) {
      ChunkingIsInvisibleExactly(texts);
    } else {
      NormalizingEachKeepsReplacements(texts);
      NormalizingKeepsReplacements(whole);
      FramingLosesNothing(NormalizeEach(texts));
      FramingLosesNothing(Normalize(whole));
    }
  }

  // ---- Characters and their bytes ---------------------------------------------------------------------------

  function Continued(n: int): Byte
    requires n >= 0
  {
    (0x80 + n % 0x40) as Byte
  }

  /** The bytes of one character. */
  function Bytes(c: char): (bytes: seq<Byte>)
    ensures |bytes| == Width(c)
  {
    var n := c as int;
    match Width(c)
    case 1 => [n as Byte]
    case 2 => [(0xC0 + n / 0x40) as Byte, Continued(n)]
    case 3 => [(0xE0 + n / 0x1000) as Byte, Continued(n / 0x40), Continued(n)]
    case _ => [(0xF0 + n / 0x4_0000) as Byte, Continued(n / 0x1000), Continued(n / 0x40), Continued(n)]
  }

  function Encode(s: string): seq<Byte> {
    if s == "" then [] else Bytes(s[0]) + Encode(s[1..])
  }

  lemma BytesFit(c: char)
    ensures FittingLength(Bytes(c)) == Width(c) == LeadWidth(Bytes(c)[0])
  {
  }

  lemma BytesSpell(c: char)
    requires FittingLength(Bytes(c)) == Width(c) == LeadWidth(Bytes(c)[0])
    ensures Spelled(Bytes(c)) == c
  {
    var n := c as int;
    var bytes := Bytes(c);
    match Width(c)
    case 1 =>
    case 2 => assert Bits(bytes[1]) == n % 0x40;
    case 3 => assert Bits(bytes[2]) == n % 0x40 && Bits(bytes[1]) == n / 0x40 % 0x40;
      assert n / 0x1000 == n / 0x40 / 0x40;
    case _ => assert Bits(bytes[3]) == n % 0x40 && Bits(bytes[2]) == n / 0x40 % 0x40;
      assert Bits(bytes[1]) == n / 0x1000 % 0x40 && n / 0x1000 == n / 0x40 / 0x40;
      assert n / 0x4_0000 == n / 0x1000 / 0x40;
  }

  /** Whole characters are read back, and take the bytes that their size says. */
  lemma {:induction false} EncodedIsDecoded(s: string)
    ensures Decode(Encode(s)) == s && |Encode(s)| == Size(s)
  {
    if s != "" {
      var first, rest := Bytes(s[0]), Encode(s[1..]);
      BytesFit(s[0]);
      BytesSpell(s[0]);
      FittingStays(first, rest);
      EncodedIsDecoded(s[1..]);
      assert (first + rest)[..|first|] == first && (first + rest)[|first|..] == rest;
    }
  }
}
