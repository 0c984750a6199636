/**
 * The overlapping chunker (src/memory/chunker.ts). Sentence splitting is given; what matters here
 * is how sentences are grouped under a token budget and what is carried from chunk to chunk.
 */
module Chunker {
  import opened Prelude

  const TARGET_TOKENS := 220
  const OVERLAP_TOKENS := 40

  /** One token per four characters, rounded up. */
  function EstimateTokens(text: string): nat {
    (|text| + 3) / 4
  }

  /** k tokens stand for more than 4(k - 1) and at most 4k characters. */
  lemma TokensAreQuarters(text: string, k: nat)
    ensures EstimateTokens(text) == k <==> 4 * (k - 1) < |text| <= 4 * k
  {
  }

  // ----- Trimming -----

  predicate IsSpace(c: char) {
    || c == ' ' || '\t' <= c <= '\r' || c == '\U{A0}' || c == '\U{1680}' || '\U{2000}' <= c <= '\U{200A}'
    || c == '\U{2028}' || c == '\U{2029}' || c == '\U{202F}' || c == '\U{205F}' || c == '\U{3000}' || c == '\U{FEFF}'
  }

  function TrimStart(s: string): string {
    if s != "" && IsSpace(s[0]) then TrimStart(s[1..]) else s
  }

  function TrimEnd(s: string): string {
    if s != "" && IsSpace(s[|s| - 1]) then TrimEnd(s[..|s| - 1]) else s
  }

  function Trim(s: string): string {
    TrimEnd(TrimStart(s))
  }

  /** Starts and ends with something visible. */
  predicate Tight(s: string) {
    s != "" && !IsSpace(s[0]) && !IsSpace(s[|s| - 1])
  }

  lemma {:induction false} TrimBefore(o: string, s: string)
    requires Tight(s)
    ensures TrimStart(o + s) == TrimStart(o) + s
  {
    if o == "" {
      assert o + s == s && TrimStart(o) + s == s;
    } else if IsSpace(o[0]) {
      assert (o + s)[1..] == o[1..] + s;
      TrimBefore(o[1..], s);
    }
  }

  /** Trimming text that ends in a tight piece only strips leading space of what precedes it. */
  lemma TrimKeepsEnd(o: string, s: string)
    requires Tight(s)
    ensures Trim(o + s) == TrimStart(o) + s
  {
    hide TrimStart, IsSpace;
    TrimBefore(o, s);
    var t := TrimStart(o) + s;
    assert t[|t| - 1] == s[|s| - 1];
  }

  /** Left-trimming leaves a suffix. */
  lemma {:induction false} TrimStartIsSuffix(s: string)
    ensures |TrimStart(s)| <= |s| && TrimStart(s) == s[|s| - |TrimStart(s)|..]
  {
    if s != "" && IsSpace(s[0]) {
      TrimStartIsSuffix(s[1..]);
    }
  }

  /**
   * White space is what JavaScript trims: tab to carriage return, space, and the wide ones; no
   * letter, digit or punctuation.
   */
  lemma SpaceIs(c: char)
    ensures c in " \t\n\r" ==> IsSpace(c)
    ensures '!' <= c <= '~' ==> !IsSpace(c)
  {
  }

  lemma {:induction false} TrimEndIsPrefix(s: string)
    ensures TrimEnd(s) <= s && forall i :: |TrimEnd(s)| <= i < |s| ==> IsSpace(s[i])
    ensures TrimEnd(s) != "" ==> !IsSpace(TrimEnd(s)[|TrimEnd(s)| - 1])
  {
    hide IsSpace;
    if s != "" && IsSpace(s[|s| - 1]) {
      TrimEndIsPrefix(s[..|s| - 1]);
    }
  }

  lemma {:induction false} TrimStartDropsSpace(s: string)
    ensures |TrimStart(s)| <= |s| && TrimStart(s) == s[|s| - |TrimStart(s)|..]
    ensures forall i :: 0 <= i < |s| - |TrimStart(s)| ==> IsSpace(s[i])
    ensures TrimStart(s) != "" ==> !IsSpace(TrimStart(s)[0])
  {
    hide IsSpace;
    if s != "" && IsSpace(s[0]) {
      TrimStartDropsSpace(s[1..]);
      var n := |s| - |TrimStart(s)|;
      forall i | 0 <= i < n ensures IsSpace(s[i]) {
        assert i > 0 ==> s[i] == s[1..][i - 1];
      }
    }
  }

  /** Trimming takes white space off both ends, nothing else, and all of it. */
  lemma TrimIs(s: string) returns (i: nat, j: nat)
    ensures i <= j <= |s| && Trim(s) == s[i..j]
    ensures forall k :: 0 <= k < i || j <= k < |s| ==> IsSpace(s[k])
    ensures Trim(s) == "" || Tight(Trim(s))
  {
    hide TrimStart, TrimEnd;
    TrimStartDropsSpace(s);
    TrimEndIsPrefix(TrimStart(s));
    i := |s| - |TrimStart(s)|;
    j := i + |Trim(s)|;
  }

  // ----- Sentences and groups -----

  ghost predicate Sentences(ss: seq<string>) {
    forall i :: 0 <= i < |ss| ==> Tight(ss[i])
  }

  /** Sentences with single spaces between them. */
  function Spaced(ss: seq<string>): string {
    if ss == [] then ""
    else if |ss| == 1 then ss[0]
    else Spaced(ss[..|ss| - 1]) + " " + ss[|ss| - 1]
  }

  function TokensIn(ss: seq<string>): nat {
    if ss == [] then 0 else TokensIn(ss[..|ss| - 1]) + EstimateTokens(ss[|ss| - 1])
  }

  lemma SpacedSnoc(ss: seq<string>, s: string)
    ensures Spaced(ss + [s]) == if ss == [] then s else Spaced(ss) + " " + s
    ensures TokensIn(ss + [s]) == TokensIn(ss) + EstimateTokens(s)
  {
    assert (ss + [s])[..|ss|] == ss;
  }

  lemma {:induction false} SpacedIsTight(ss: seq<string>)
    requires Sentences(ss) && ss != []
    ensures Tight(Spaced(ss))
  {
    if |ss| > 1 {
      SpacedIsTight(ss[..|ss| - 1]);
    }
  }

  lemma {:induction false} SpacedSize(ss: seq<string>)
    requires ss != []
    ensures |Spaced(ss)| <= 4 * TokensIn(ss) + |ss| - 1
  {
    var front, last := ss[..|ss| - 1], ss[|ss| - 1];
    assert ss == front + [last];
    SpacedSnoc(front, last);
    if front != [] {
      SpacedSize(front);
    }
  }

  lemma {:induction false} TokensOfPrefix(ss: seq<string>, n: nat)
    requires n <= |ss|
    ensures TokensIn(ss[..n]) <= TokensIn(ss)
  {
    if n < |ss| {
      TokensOfPrefix(ss[..|ss| - 1], n);
      assert ss[..|ss| - 1][..n] == ss[..n];
    } else {
      assert ss[..n] == ss;
    }
  }

  /** What a chunk is made of: text carried over from the chunk before, and the sentences of its own. */
  datatype Part = Part(overlap: string, own: seq<string>)

  function Tokens(p: Part): nat {
    EstimateTokens(p.overlap) + TokensIn(p.own)
  }

  /** What a part hands to the next: its own text, or the end of it when the part was large. */
  function Carry(p: Part): string {
    if Tokens(p) > OVERLAP_TOKENS then LastN(Spaced(p.own), OVERLAP_TOKENS * 4) else Spaced(p.own)
  }

  function Chunk(p: Part): string {
    Trim(p.overlap + Spaced(p.own))
  }

  function Chunks(ps: seq<Part>): (r: seq<string>)
    ensures |r| == |ps| && forall i :: 0 <= i < |ps| ==> r[i] == Chunk(ps[i])
  {
    seq(|ps|, i requires 0 <= i < |ps| => Chunk(ps[i]))
  }

  /** A part takes its first sentence whatever its size, and more only while the target holds. */
  predicate Fits(p: Part) {
    p.own != [] && (|p.own| >= 2 ==> Tokens(p) <= TARGET_TOKENS)
  }

  /**
   * The parts use up the sentences in order; a part closes only when the next sentence would
   * exceed the target, and then hands over what it carries.
   */
  ghost predicate IsPlan(overlap: string, ss: seq<string>, ps: seq<Part>)
    decreases |ps|
  {
    && ps != [] && ps[0].overlap == overlap && Fits(ps[0])
    && |ps[0].own| <= |ss| && ps[0].own == ss[..|ps[0].own|]
    && if |ps| == 1 then ps[0].own == ss
       else
         && |ps[0].own| < |ss| && Tokens(ps[0]) + EstimateTokens(ss[|ps[0].own|]) > TARGET_TOKENS
         && IsPlan(Carry(ps[0]), ss[|ps[0].own|..], ps[1..])
  }

  lemma {:induction false} LastPartGrows(overlap: string, ss: seq<string>, ps: seq<Part>, s: string)
    requires IsPlan(overlap, ss, ps) && Tokens(ps[|ps| - 1]) + EstimateTokens(s) <= TARGET_TOKENS
    ensures IsPlan(overlap, ss + [s], ps[|ps| - 1 := ps[|ps| - 1].(own := ps[|ps| - 1].own + [s])])
    decreases |ps|
  {
    hide Spaced, Carry, TokensIn, EstimateTokens;
    var n := |ps[0].own|;
    var last := ps[|ps| - 1];
    var grown := ps[|ps| - 1 := last.(own := last.own + [s])];
    if |ps| == 1 {
      SpacedSnoc(ss, s);
      assert (ss + [s])[..|ss| + 1] == ss + [s];
    } else {
      var rest := ps[1..];
      LastPartGrows(Carry(ps[0]), ss[n..], rest, s);
      SliceSnoc(ss, s, n);
      assert grown[1..] == rest[|rest| - 1 := last.(own := last.own + [s])];
    }
  }

  lemma SliceSnoc(ss: seq<string>, s: string, n: nat)
    requires n <= |ss|
    ensures (ss + [s])[n..] == ss[n..] + [s] && (ss + [s])[..n] == ss[..n]
  {
  }

  lemma {:induction false} NewPartStarts(overlap: string, ss: seq<string>, ps: seq<Part>, s: string)
    requires IsPlan(overlap, ss, ps) && Tokens(ps[|ps| - 1]) + EstimateTokens(s) > TARGET_TOKENS
    ensures IsPlan(overlap, ss + [s], ps + [Part(Carry(ps[|ps| - 1]), [s])])
    decreases |ps|
  {
    hide Spaced, Carry, TokensIn, EstimateTokens;
    var n := |ps[0].own|;
    var next := Part(Carry(ps[|ps| - 1]), [s]);
    SliceSnoc(ss, s, n);
    if |ps| == 1 {
      assert (ps + [next])[1..] == [next];
      assert (ss + [s])[n..] == [s];
    } else {
      NewPartStarts(Carry(ps[0]), ss[n..], ps[1..], s);
      assert (ps + [next])[1..] == ps[1..] + [next];
    }
  }

  /** The rule leaves no freedom: the sentences determine the parts. */
  lemma {:induction false} PlanIsUnique(overlap: string, ss: seq<string>, ps: seq<Part>, qs: seq<Part>)
    requires IsPlan(overlap, ss, ps) && IsPlan(overlap, ss, qs)
    ensures ps == qs
    decreases |ps|
  {
    FirstPartNoLonger(overlap, ss, ps, qs);
    FirstPartNoLonger(overlap, ss, qs, ps);
    PlanCut(overlap, ss, ps);
    PlanCut(overlap, ss, qs);
    var n := |ps[0].own|;
    assert ps[0] == qs[0];
    if |ps| > 1 && |qs| > 1 {
      PlanIsUnique(Carry(ps[0]), ss[n..], ps[1..], qs[1..]);
      assert ps == [ps[0]] + ps[1..] && qs == [qs[0]] + qs[1..];
    }
  }

  lemma FirstPartNoLonger(overlap: string, ss: seq<string>, ps: seq<Part>, qs: seq<Part>)
    requires IsPlan(overlap, ss, ps) && IsPlan(overlap, ss, qs)
    ensures |ps[0].own| <= |qs[0].own|
  {
    hide Spaced, Carry, TokensIn, EstimateTokens;
    var n := |qs[0].own|;
    PlanCut(overlap, ss, ps);
    PlanCut(overlap, ss, qs);
    if n < |ps[0].own| {
      TokensOfPrefix(ps[0].own, n + 1);
      PrefixSnoc(ss, |ps[0].own|, n);
      SpacedSnoc(ss[..n], ss[n]);
    }
  }

  /** Where the first part of a plan ends. */
  lemma PlanCut(overlap: string, ss: seq<string>, ps: seq<Part>)
    requires IsPlan(overlap, ss, ps)
    ensures ps[0].overlap == overlap && Fits(ps[0])
    ensures |ps[0].own| <= |ss| && ps[0].own == ss[..|ps[0].own|]
    ensures |ps[0].own| < |ss| ==>
              EstimateTokens(overlap) + TokensIn(ps[0].own) + EstimateTokens(ss[|ps[0].own|]) > TARGET_TOKENS
  {
  }

  lemma PrefixSnoc(ss: seq<string>, m: nat, n: nat)
    requires n < m <= |ss|
    ensures ss[..m][..n + 1] == ss[..n] + [ss[n]]
  {
  }

  // ----- What the chunks promise -----

  /** The chunks' own sentences, one part after the other. */
  function Owned(ps: seq<Part>): seq<string> {
    if ps == [] then [] else ps[0].own + Owned(ps[1..])
  }

  function OwnTexts(ps: seq<Part>): (r: seq<string>)
    ensures |r| == |ps| && forall i :: 0 <= i < |ps| ==> r[i] == Spaced(ps[i].own)
  {
    seq(|ps|, i requires 0 <= i < |ps| => Spaced(ps[i].own))
  }

  /** Nothing is lost or repeated: the own sentences of the parts, in order, are the sentences. */
  lemma {:induction false} PlanUsesAll(overlap: string, ss: seq<string>, ps: seq<Part>)
    requires IsPlan(overlap, ss, ps)
    ensures Owned(ps) == ss
    decreases |ps|
  {
    var n := |ps[0].own|;
    assert ss == ss[..n] + ss[n..];
    if |ps| == 1 {
      assert Owned(ps[1..]) == [];
    } else {
      PlanUsesAll(Carry(ps[0]), ss[n..], ps[1..]);
    }
  }

  lemma {:induction false} SpacedAppend(a: seq<string>, b: seq<string>)
    requires a != [] && b != []
    ensures Spaced(a + b) == Spaced(a) + " " + Spaced(b)
    decreases |b|
  {
    hide Spaced;
    var front, last := b[..|b| - 1], b[|b| - 1];
    assert b == front + [last];
    ConcatAssociates(a, front, [last]);
    SpacedSnoc(a + front, last);
    SpacedSnoc(front, last);
    if front != [] {
      SpacedAppend(a, front);
      Glue(Spaced(a), Spaced(front), last);
    } else {
      assert a + front == a;
    }
  }

  lemma Glue(a: string, b: string, c: string)
    ensures a + " " + b + " " + c == a + " " + (b + " " + c)
  {
  }

  /** Conservation of text: the own texts joined by spaces are the sentences joined by spaces. */
  lemma {:induction false} OwnTextsSpellSentences(overlap: string, ss: seq<string>, ps: seq<Part>)
    requires IsPlan(overlap, ss, ps)
    ensures Spaced(OwnTexts(ps)) == Spaced(ss)
    decreases |ps|
  {
    var n := |ps[0].own|;
    assert ss == ss[..n] + ss[n..];
    if |ps| > 1 {
      OwnTextsSpellSentences(Carry(ps[0]), ss[n..], ps[1..]);
      assert OwnTexts(ps) == [Spaced(ps[0].own)] + OwnTexts(ps[1..]);
      SpacedAppend([Spaced(ps[0].own)], OwnTexts(ps[1..]));
      SpacedAppend(ss[..n], ss[n..]);
    }
  }

  lemma {:induction false} PlanParts(overlap: string, ss: seq<string>, ps: seq<Part>, i: nat)
    requires IsPlan(overlap, ss, ps) && Sentences(ss) && i < |ps|
    ensures Fits(ps[i]) && Sentences(ps[i].own)
    ensures ps[i].overlap == if i == 0 then overlap else Carry(ps[i - 1])
    decreases |ps|
  {
    var n := |ps[0].own|;
    if i > 0 {
      PlanParts(Carry(ps[0]), ss[n..], ps[1..], i - 1);
    }
  }

  /**
   * Each chunk is its own text behind a left-trimmed end of the previous chunk's own text, and
   * chunks of several sentences are bounded.
   */
  lemma ChunkShape(ss: seq<string>, ps: seq<Part>, i: nat)
    requires IsPlan("", ss, ps) && Sentences(ss) && i < |ps|
    ensures Chunks(ps)[i] == TrimStart(ps[i].overlap) + Spaced(ps[i].own)
    ensures i == 0 ==> ps[i].overlap == ""
    ensures i > 0 ==> |ps[i].overlap| <= |Spaced(ps[i - 1].own)|
                      && ps[i].overlap == LastN(Spaced(ps[i - 1].own), |ps[i].overlap|)
    ensures |ps[i].own| >= 2 ==> |Chunks(ps)[i]| <= 879 + |ps[i].own|
  {
    hide IsPlan, Carry, TokensIn, Spaced, TrimStart, LastN, Tight, Trim;
    PlanParts("", ss, ps, i);
    SpacedIsTight(ps[i].own);
    TrimKeepsEnd(ps[i].overlap, Spaced(ps[i].own));
    TrimStartIsSuffix(ps[i].overlap);
    SpacedSize(ps[i].own);
    if i > 0 {
      CarryIsEnd(ps[i - 1]);
    }
  }

  lemma CarryIsEnd(p: Part)
    ensures |Carry(p)| <= |Spaced(p.own)| && Carry(p) == LastN(Spaced(p.own), |Carry(p)|)
  {
  }

  /** The target is not a cap: a long sentence makes a chunk over it, however the text is grouped. */
  lemma LongSentenceExceedsTarget(ss: seq<string>, ps: seq<Part>, i: nat, j: nat)
    requires IsPlan("", ss, ps) && Sentences(ss) && i < |ps| && j < |ps[i].own|
    requires |ps[i].own[j]| > 4 * TARGET_TOKENS
    ensures EstimateTokens(Chunks(ps)[i]) > TARGET_TOKENS && |ps[i].own| == 1
  {
    hide IsPlan, Chunks, Carry, TokensIn, Spaced, TrimStart, LastN, Sentences;
    ChunkShape(ss, ps, i);
    PlanParts("", ss, ps, i);
    SentenceCounts(ps[i].own, j);
    SpacedSingle(ps[i].own);
  }

  lemma SpacedSingle(ss: seq<string>)
    ensures |ss| == 1 ==> Spaced(ss) == ss[0]
  {
  }

  lemma {:induction false} SentenceCounts(ss: seq<string>, j: nat)
    requires j < |ss|
    ensures TokensIn(ss) >= EstimateTokens(ss[j])
  {
    if j < |ss| - 1 {
      SentenceCounts(ss[..|ss| - 1], j);
    }
  }

  // ----- When the overlap is kept -----

  /**
   * A part hands over the documented overlap exactly when its own text is that long; what it was
   * handed itself does not count.
   */
  lemma OverlapKeptIff(p: Part)
    ensures EstimateTokens(Carry(p)) >= 40 <==> EstimateTokens(Spaced(p.own)) >= 40
    ensures Tokens(p) > 40 ==> Carry(p) == LastN(Spaced(p.own), 160)
    ensures Tokens(p) <= 40 ==> Carry(p) == Spaced(p.own)
    ensures EstimateTokens(Spaced(p.own)) < OVERLAP_TOKENS ==> Carry(p) == Spaced(p.own)
  {
  }

  /** A short sentence between two that fill the target is all that is carried to the second. */
  lemma ShortSentenceCarriesLittle(n: nat, s: string) returns (ss: seq<string>, ps: seq<Part>)
    requires n >= 4 * TARGET_TOKENS && Tight(s) && EstimateTokens(s) < OVERLAP_TOKENS
    ensures IsPlan("", ss, ps) && Sentences(ss) && |ps| == 3 && ps[2].overlap == s
  {
    var long := SentenceOf(n);
    OneSentence(long);
    OneSentence(s);
    hide IsPlan, Spaced, TokensIn, SentenceOf;
    var first := Part("", [long]);
    var second := Part(Carry(first), [s]);
    var third := Part(s, [long]);
    OverlapKeptIff(second);
    LastPlan(third);
    PlanCons(second, [long], [third]);
    PlanCons(first, [s] + [long], [second] + [third]);
    ss, ps := [long] + ([s] + [long]), [first] + ([second] + [third]);
  }

  lemma PlanCons(p: Part, ss: seq<string>, ps: seq<Part>)
    requires Fits(p) && ss != [] && Tokens(p) + EstimateTokens(ss[0]) > TARGET_TOKENS && IsPlan(Carry(p), ss, ps)
    ensures IsPlan(p.overlap, p.own + ss, [p] + ps)
  {
    hide Tokens, Carry, EstimateTokens;
    var all, n := p.own + ss, |p.own|;
    assert all[..n] == p.own && all[n..] == ss && all[n] == ss[0];
    assert ([p] + ps)[1..] == ps;
  }

  lemma OneSentence(s: string)
    ensures Spaced([s]) == s && TokensIn([s]) == EstimateTokens(s)
  {
    SpacedSnoc([], s);
    assert [] + [s] == [s] && TokensIn([]) == 0;
  }

  lemma LastPlan(p: Part)
    requires Fits(p)
    ensures IsPlan(p.overlap, p.own, [p])
  {
    assert p.own[..|p.own|] == p.own;
  }

  // ----- When the target holds -----

  /** A chunk is over the target exactly when its own text and what is left of the overlap are too long together. */
  lemma OverTargetIff(ss: seq<string>, ps: seq<Part>, i: nat)
    requires IsPlan("", ss, ps) && Sentences(ss) && i < |ps|
    ensures EstimateTokens(Chunks(ps)[i]) > TARGET_TOKENS
       <==> |TrimStart(ps[i].overlap)| + |Spaced(ps[i].own)| > 880
    ensures |ps[i].own| == 1 ==>
              (EstimateTokens(Chunks(ps)[i]) > TARGET_TOKENS
               <==> |TrimStart(ps[i].overlap)| + |ps[i].own[0]| > 880)
  {
    hide IsPlan, Chunks, Carry, TokensIn, Spaced, TrimStart, LastN, Sentences;
    ChunkShape(ss, ps, i);
    SpacedSingle(ps[i].own);
  }

  lemma {:induction false} TokensCountSentences(ss: seq<string>)
    requires Sentences(ss)
    ensures |ss| <= TokensIn(ss)
  {
    if ss != [] {
      TokensCountSentences(ss[..|ss| - 1]);
    }
  }

  /** A part hands over at most 199 characters: a short part, whole, with its spaces. */
  lemma CarryBounded(p: Part)
    requires Sentences(p.own) && p.own != []
    ensures |Carry(p)| <= 199
  {
    hide Spaced, TokensIn;
    SpacedSize(p.own);
    TokensCountSentences(p.own);
  }

  /** What every chunk's length is bounded by: 1099 characters, or its one sentence and 199 more. */
  lemma EveryChunkBounded(ss: seq<string>, ps: seq<Part>, i: nat)
    requires IsPlan("", ss, ps) && Sentences(ss) && i < |ps|
    ensures |ps[i].own| == 1 ==> |Chunks(ps)[i]| <= |ps[i].own[0]| + 199
    ensures |ps[i].own| >= 2 ==> |Chunks(ps)[i]| <= 1099
  {
    hide IsPlan, Chunks, Carry, TokensIn, Spaced, TrimStart, LastN;
    ChunkShape(ss, ps, i);
    PlanParts("", ss, ps, i);
    TrimStartIsSuffix(ps[i].overlap);
    TokensCountSentences(ps[i].own);
    SpacedSingle(ps[i].own);
    if i > 0 {
      PlanParts("", ss, ps, i - 1);
      CarryBounded(ps[i - 1]);
    }
  }

  /**
   * Sentence lengths that are safe in any company: at most 720 characters, and no multiple of
   * four unless above 440. A multiple of four leaves the token estimate no slack for the space
   * that joins it to the next sentence.
   */
  predicate SafeLength(n: nat) {
    n <= 720 && (n % 4 == 0 ==> n > 440)
  }

  ghost predicate AllSafe(ss: seq<string>) {
    forall i :: 0 <= i < |ss| ==> SafeLength(|ss[i]|)
  }

  /**
   * Safe sentences within the target take no more characters than their tokens stand for, and fewer
   * within half of it.
   */
  lemma {:induction false} SafeSize(ss: seq<string>)
    requires AllSafe(ss) && ss != [] && TokensIn(ss) <= TARGET_TOKENS
    ensures |Spaced(ss)| <= 4 * TokensIn(ss)
    ensures TokensIn(ss) <= TARGET_TOKENS / 2 ==> |Spaced(ss)| < 4 * TokensIn(ss)
  {
    hide Spaced, TokensIn;
    var front, last := ss[..|ss| - 1], ss[|ss| - 1];
    assert SafeLength(|last|);
    assert ss == front + [last];
    SpacedSnoc(front, last);
    NoSentences();
    if front != [] {
      assert AllSafe(front);
      SafeSize(front);
    }
  }

  lemma NoSentences()
    ensures TokensIn([]) == 0
  {
  }

  lemma SafeCarry(p: Part)
    requires AllSafe(p.own) && p.own != []
    ensures |Carry(p)| <= 4 * OVERLAP_TOKENS
  {
    hide Spaced, TokensIn;
    if Tokens(p) <= OVERLAP_TOKENS {
      SafeSize(p.own);
    }
  }

  /** No chunk of a text with safe sentences is over the target. */
  lemma SafeTextKeepsTarget(ss: seq<string>, ps: seq<Part>, i: nat)
    requires IsPlan("", ss, ps) && Sentences(ss) && AllSafe(ss) && i < |ps|
    ensures EstimateTokens(Chunks(ps)[i]) <= TARGET_TOKENS
  {
    hide IsPlan, Chunks, Carry, TokensIn, Spaced, TrimStart, LastN, Sentences;
    OverTargetIff(ss, ps, i);
    PlanParts("", ss, ps, i);
    SafeParts("", ss, ps, i);
    TrimStartIsSuffix(ps[i].overlap);
    SpacedSingle(ps[i].own);
    if |ps[i].own| >= 2 {
      SafeSize(ps[i].own);
    } else {
      assert SafeLength(|ps[i].own[0]|);
      if i > 0 {
        PlanParts("", ss, ps, i - 1);
        SafeParts("", ss, ps, i - 1);
        SafeCarry(ps[i - 1]);
      }
    }
  }

  lemma {:induction false} SafeParts(overlap: string, ss: seq<string>, ps: seq<Part>, i: nat)
    requires IsPlan(overlap, ss, ps) && AllSafe(ss) && i < |ps|
    ensures AllSafe(ps[i].own)
    decreases |ps|
  {
    if i > 0 {
      SafeParts(Carry(ps[0]), ss[|ps[0].own|..], ps[1..], i - 1);
    }
  }

  /** Sentences are safe or have length n. */
  ghost predicate SafeOr(ss: seq<string>, n: nat) {
    forall i :: 0 <= i < |ss| ==> SafeLength(|ss[i]|) || |ss[i]| == n
  }

  ghost predicate OverTarget(ss: seq<string>, ps: seq<Part>, i: nat) {
    IsPlan("", ss, ps) && Sentences(ss) && i < |ps| && EstimateTokens(Chunks(ps)[i]) > TARGET_TOKENS
  }

  /** No length can be added to the safe ones: with any other, some text has a chunk over the target. */
  lemma SafeLengthsAreAll(n: nat)
    requires n >= 1
    ensures SafeLength(n) <==> !exists ss, ps, i :: SafeOr(ss, n) && OverTarget(ss, ps, i)
  {
    if SafeLength(n) {
      if ss, ps, i :| SafeOr(ss, n) && OverTarget(ss, ps, i) {
        SafeTextKeepsTarget(ss, ps, i);
      }
    } else if n > 4 * (TARGET_TOKENS - OVERLAP_TOKENS) {
      var ss, ps := LongTwice(n);
      assert SafeOr(ss, n);
    } else {
      var ss, ps := NoSlackTwice(n);
      assert SafeOr(ss, n);
    }
  }

  /** A sentence of n characters: a capital, small letters, a full stop, and no space. */
  function SentenceOf(n: nat): (s: string)
    ensures |s| == n && (n > 0 ==> Tight(s))
    ensures forall i :: 0 <= i < n ==> !IsSpace(s[i])
  {
    seq(n, i => if i == 0 then 'A' else if i == n - 1 then '.' else 'a')
  }

  /** The second of two sentences of more than 720 characters is over the target with the 160 carried to it. */
  lemma LongTwice(n: nat) returns (ss: seq<string>, ps: seq<Part>)
    requires n > 4 * (TARGET_TOKENS - OVERLAP_TOKENS)
    ensures OverTarget(ss, ps, 1) && forall i :: 0 <= i < |ss| ==> |ss[i]| == n
  {
    var s := SentenceOf(n);
    var first := Part("", [s]);
    var second := Part(Carry(first), [s]);
    ss, ps := [s, s], [first, second];
    SpacedSnoc([], s);
    assert [] + [s] == [s] && TokensIn([]) == 0;
    assert ps[1..] == [second] && ss[1..] == [s] && ss[..1] == [s] && [s][..1] == [s];
    assert second.overlap == LastN(s, 4 * OVERLAP_TOKENS) && !IsSpace(second.overlap[0]);
    OverTargetIff(ss, ps, 1);
  }

  /** One part that just fills the target in tokens and is one character too long for it. */
  lemma FullPart(ss: seq<string>)
    requires Sentences(ss) && ss != [] && TokensIn(ss) == TARGET_TOKENS && |Spaced(ss)| == 4 * TARGET_TOKENS + 1
    ensures OverTarget(ss, [Part("", ss)], 0)
  {
    hide Spaced, TokensIn, Chunks;
    assert ss[..|ss|] == ss;
    assert EstimateTokens("") == 0;
    OverTargetIff(ss, [Part("", ss)], 0);
  }

  lemma SentenceJoinsOn(ss: seq<string>, n: nat)
    requires Sentences(ss) && n > 0
    ensures Sentences(ss + [SentenceOf(n)])
    ensures TokensIn(ss + [SentenceOf(n)]) == TokensIn(ss) + (n + 3) / 4
    ensures |Spaced(ss + [SentenceOf(n)])| == if ss == [] then n else |Spaced(ss)| + 1 + n
  {
    SpacedSnoc(ss, SentenceOf(n));
  }

  /** Two sentences of n characters, n a multiple of four up to 440, filled up to the target with safe ones. */
  lemma NoSlackTwice(n: nat) returns (ss: seq<string>, ps: seq<Part>)
    requires 1 <= n <= 2 * TARGET_TOKENS && n % 4 == 0
    ensures OverTarget(ss, ps, 0) && SafeOr(ss, n)
  {
    hide Spaced, TokensIn, OverTarget, SentenceOf, SafeOr, Sized;
    var j, most := n / 4, TARGET_TOKENS - OVERLAP_TOKENS;
    ss := [SentenceOf(n)];
    SizedOne(n, j);
    SizedJoin(ss, n, j, n, j, n);
    ss := ss + [SentenceOf(n)];
    var tokens := 2 * j;
    if TARGET_TOKENS - tokens > most {
      SizedJoin(ss, n, tokens, 4 * tokens + 1, most, 4 * most - 1);
      ss := ss + [SentenceOf(4 * most - 1)];
      tokens := tokens + most;
    }
    if tokens < TARGET_TOKENS {
      var left := TARGET_TOKENS - tokens;
      SizedJoin(ss, n, tokens, 4 * tokens + 1, left, 4 * left - 1);
      ss := ss + [SentenceOf(4 * left - 1)];
    }
    SizedFills(ss, n);
    FullPart(ss);
    ps := [Part("", ss)];
  }

  /** Sentences that are safe or of length n, with so many tokens and characters. */
  ghost predicate Sized(ss: seq<string>, n: nat, tokens: nat, size: nat) {
    Sentences(ss) && ss != [] && SafeOr(ss, n) && TokensIn(ss) == tokens && |Spaced(ss)| == size
  }

  lemma SizedOne(n: nat, j: nat)
    requires n == 4 * j && j >= 1
    ensures Sized([SentenceOf(n)], n, j, n)
  {
    OneSentence(SentenceOf(n));
  }

  lemma SizedJoin(ss: seq<string>, n: nat, tokens: nat, size: nat, j: nat, m: nat)
    requires Sized(ss, n, tokens, size) && (m == n == 4 * j || (m == 4 * j - 1 && SafeLength(m))) && j >= 1
    ensures Sized(ss + [SentenceOf(m)], n, tokens + j, size + 1 + m)
  {
    hide SentenceOf, Spaced, TokensIn, Sentences;
    SentenceJoinsOn(ss, m);
  }

  lemma SizedFills(ss: seq<string>, n: nat)
    requires Sized(ss, n, TARGET_TOKENS, 4 * TARGET_TOKENS + 1)
    ensures Sentences(ss) && ss != [] && SafeOr(ss, n)
    ensures TokensIn(ss) == TARGET_TOKENS && |Spaced(ss)| == 4 * TARGET_TOKENS + 1
  {
  }

  // ----- The operation -----

  /** Short text stays whole; longer text is cut as the one plan for its sentences says. */
  method ChunkText(text: string, split: string -> seq<string>) returns (chunks: seq<string>)
    requires Sentences(split(Trim(text)))
    ensures var trimmed := Trim(text);
            if trimmed == "" then chunks == []
            else if EstimateTokens(trimmed) <= TARGET_TOKENS || |split(trimmed)| <= 1 then chunks == [trimmed]
            else exists plan :: IsPlan("", split(trimmed), plan) && chunks == Chunks(plan)
  {
    hide Spaced, Tokens, Chunking, Carry, Chunk, TokensIn, IsPlan, Trim, Chunks, EstimateTokens;
    var trimmed := Trim(text);
    if |trimmed| == 0 {
      return [];
    }
    if EstimateTokens(trimmed) <= TARGET_TOKENS {
      return [trimmed];
    }
    var sentences := split(trimmed);
    if |sentences| <= 1 {
      return [trimmed];
    }
    chunks := [];
    var current, currentTokens, overlapBuffer := "", 0, "";
    ghost var plan: seq<Part>, own: seq<string> := [], [];
    ChunkingStarts();
    for i := 0 to |sentences|
      invariant Chunking(sentences[..i], plan, own, overlapBuffer)
      invariant current == Spaced(own) && currentTokens == Tokens(Part(overlapBuffer, own))
      invariant chunks == Chunks(plan)
    {
      var sentence := sentences[i];
      var sentenceTokens := EstimateTokens(sentence);
      assert sentences[..i + 1] == sentences[..i] + [sentence];
      assert Tight(sentence);
      OpenText(sentences[..i], plan, own, overlapBuffer);
      SentenceJoins(sentences[..i], plan, own, overlapBuffer, sentence);
      if currentTokens + sentenceTokens > TARGET_TOKENS && |current| > 0 {
        PartCloses(plan, overlapBuffer, own);
        chunks := chunks + [Trim(overlapBuffer + current)];
        plan := plan + [Part(overlapBuffer, own)];
        overlapBuffer := if currentTokens > OVERLAP_TOKENS then LastN(current, OVERLAP_TOKENS * 4) else current;
        current, own := "", [];
        currentTokens := EstimateTokens(overlapBuffer);
        NothingYet(overlapBuffer);
        assert own + [sentence] == [sentence];
      }
      OwnGrows(overlapBuffer, own, sentence);
      current := current + (if |current| > 0 then " " else "") + sentence;
      currentTokens := currentTokens + sentenceTokens;
      own := own + [sentence];
    }
    assert sentences[..|sentences|] == sentences;
    OpenText(sentences, plan, own, overlapBuffer);
    if |current| > 0 {
      PartCloses(plan, overlapBuffer, own);
      chunks := chunks + [Trim(overlapBuffer + current)];
      plan := plan + [Part(overlapBuffer, own)];
    }
  }

  /** Halfway: the closed parts, and the open one that holds at least the last sentence read. */
  ghost predicate Chunking(ss: seq<string>, plan: seq<Part>, own: seq<string>, overlap: string) {
    if ss == [] then plan == [] && own == [] && overlap == ""
    else own != [] && Sentences(own) && IsPlan("", ss, plan + [Part(overlap, own)])
  }

  lemma ChunkingStarts()
    ensures Chunking([], [], [], "") && Chunks([]) == []
    ensures Spaced([]) == "" && Tokens(Part("", [])) == 0
  {
  }

  lemma OpenText(ss: seq<string>, plan: seq<Part>, own: seq<string>, overlap: string)
    requires Chunking(ss, plan, own, overlap)
    ensures Spaced(own) == "" <==> ss == []
    ensures own == [] <==> ss == []
    ensures ss != [] ==> IsPlan("", ss, plan + [Part(overlap, own)])
  {
    if ss != [] {
      SpacedIsTight(own);
    }
  }

  /** The next sentence either opens a new part or joins the open one, as the budget decides. */
  lemma SentenceJoins(ss: seq<string>, plan: seq<Part>, own: seq<string>, overlap: string, s: string)
    requires Chunking(ss, plan, own, overlap) && Tight(s)
    ensures var p := Part(overlap, own);
            if Tokens(p) + EstimateTokens(s) > TARGET_TOKENS && ss != [] then
              Chunking(ss + [s], plan + [p], [s], Carry(p))
            else
              Chunking(ss + [s], plan, own + [s], overlap)
  {
    hide Spaced, Tokens, Carry;
    var p := Part(overlap, own);
    if ss == [] {
      assert own + [s] == [s] && ss + [s] == [s] && plan + [Part("", [s])] == [Part("", [s])];
      assert [s][..1] == [s];
    } else if Tokens(p) + EstimateTokens(s) > TARGET_TOKENS {
      NewPartStarts("", ss, plan + [p], s);
    } else {
      LastPartGrows("", ss, plan + [p], s);
      GrowLast(plan, p, s);
    }
  }

  lemma PartCloses(plan: seq<Part>, overlap: string, own: seq<string>)
    ensures Chunks(plan + [Part(overlap, own)]) == Chunks(plan) + [Trim(overlap + Spaced(own))]
    ensures Carry(Part(overlap, own)) == (if Tokens(Part(overlap, own)) > OVERLAP_TOKENS
                                          then LastN(Spaced(own), OVERLAP_TOKENS * 4) else Spaced(own))
  {
  }

  lemma NothingYet(overlap: string)
    ensures Spaced([]) == "" && Tokens(Part(overlap, [])) == EstimateTokens(overlap)
  {
  }

  lemma OwnGrows(overlap: string, own: seq<string>, s: string)
    ensures Spaced(own + [s]) == if own == [] then s else Spaced(own) + " " + s
    ensures Tokens(Part(overlap, own + [s])) == Tokens(Part(overlap, own)) + EstimateTokens(s)
  {
    SpacedSnoc(own, s);
  }

  lemma GrowLast(plan: seq<Part>, p: Part, s: string)
    ensures (plan + [p])[|plan| := p.(own := p.own + [s])] == plan + [Part(p.overlap, p.own + [s])]
  {
  }
}
