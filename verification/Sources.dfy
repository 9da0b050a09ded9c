/** Extracting the resource blocks of a configuration file: a scan by index that never
    parses, so what it returns and what it can miss both need stating. */
module Sources {
  const KEYWORD := "resource \""

  predicate IsBoundary(c: char) {
    c == '\n' || c == '\r' || c == ' ' || c == '\t'
  }

  predicate OccursAt(src: string, pattern: string, k: int) {
    0 <= k <= |src| - |pattern| && src[k..k + |pattern|] == pattern
  }

  /** The keyword, at the start of the file or after white space. */
  predicate Candidate(src: string, k: int) {
    OccursAt(src, KEYWORD, k) && (k == 0 || IsBoundary(src[k - 1]))
  }

  /** The ten characters `resource "`, and which four characters count as white space. */
  lemma CandidateMeaning(src: string, k: int)
    ensures Candidate(src, k) <==>
      && 0 <= k && k + 10 <= |src| && src[k..k + 10] == "resource \""
      && (k > 0 ==> src[k - 1] in {'\n', '\r', '\t', ' '})
  {
    assert |KEYWORD| == 10;
  }

  // ---- Matching braces ----------------------------------------------------------------

  function Balance(s: string): int {
    if s == "" then 0
    else
      var n := |s| - 1;
      Balance(s[..n]) + (if s[n] == '{' then 1 else if s[n] == '}' then -1 else 0)
  }

  lemma {:induction false} BalanceCounts(s: string)
    ensures Balance(s) == multiset(s)['{'] as int - multiset(s)['}'] as int
  {
    if s != "" {
      var n := |s| - 1;
      BalanceCounts(s[..n]);
      assert s == s[..n] + [s[n]];
    }
  }

  /** How deep position j is, counted from the brace at `open` and including both. */
  function DepthAt(src: string, open: int, j: int): int
    requires 0 <= open <= j < |src|
  {
    Balance(src[open..j + 1])
  }

  /** A brace and the one that closes it: the depth returns to zero there first. */
  ghost predicate Matching(src: string, open: int, end: int) {
    && 0 <= open < end < |src|
    && src[open] == '{' && src[end] == '}'
    && DepthAt(src, open, end) == 0
    && forall j :: open <= j < end ==> DepthAt(src, open, j) > 0
  }

  /** The position at which a scan from j, at a given depth, closes; the length if never. */
  function CloseFrom(src: string, j: nat, depth: nat): nat
    requires depth >= 1
    decreases |src| - j
  {
    if j >= |src| then |src|
    else if src[j] == '{' then CloseFrom(src, j + 1, depth + 1)
    else if src[j] != '}' then CloseFrom(src, j + 1, depth)
    else if depth == 1 then j
    else CloseFrom(src, j + 1, depth - 1)
  }

  lemma DepthStep(src: string, open: nat, j: nat)
    requires open < j < |src|
    ensures DepthAt(src, open, j)
         == DepthAt(src, open, j - 1) + (if src[j] == '{' then 1 else if src[j] == '}' then -1 else 0)
  {
    assert src[open..j + 1][..j - open] == src[open..j];
  }

  lemma {:induction false} CloseFromMatches(src: string, open: nat, j: nat, depth: nat)
    requires open < j <= |src| && src[open] == '{' && depth >= 1
    requires DepthAt(src, open, j - 1) == depth
    requires forall k :: open <= k < j ==> DepthAt(src, open, k) > 0
    ensures j <= CloseFrom(src, j, depth) <= |src|
    ensures CloseFrom(src, j, depth) < |src| ==> Matching(src, open, CloseFrom(src, j, depth))
    ensures CloseFrom(src, j, depth) == |src| ==> forall end :: !Matching(src, open, end)
    decreases |src| - j
  {
    hide DepthAt;
    if j < |src| {
      DepthStep(src, open, j);
      var next := DepthAt(src, open, j);
      if next > 0 {
        CloseFromMatches(src, open, j + 1, next);
      }
    }
  }

  function CloseOf(src: string, open: nat): nat {
    CloseFrom(src, open + 1, 1)
  }

  lemma CloseOfMatches(src: string, open: nat)
    requires open < |src| && src[open] == '{'
    ensures open < CloseOf(src, open) <= |src|
    ensures CloseOf(src, open) < |src| ==> Matching(src, open, CloseOf(src, open))
    ensures CloseOf(src, open) == |src| ==> forall end :: !Matching(src, open, end)
  {
    assert src[open..open + 1] == "{" && "{"[..0] == "";
    assert DepthAt(src, open, open) == 1;
    CloseFromMatches(src, open, open + 1, 1);
  }

  // ---- The blocks of a file -----------------------------------------------------------

  function NextCandidate(src: string, from: nat): (k: nat)
    ensures from <= |src| ==> from <= k <= |src|
    ensures k < |src| ==> Candidate(src, k)
    ensures forall c :: from <= c < k ==> !Candidate(src, c)
    decreases |src| - from
  {
    if from >= |src| then |src|
    else if Candidate(src, from) then from
    else NextCandidate(src, from + 1)
  }

  function NextBrace(src: string, from: nat): (k: nat)
    ensures from <= |src| ==> from <= k <= |src|
    ensures k < |src| ==> src[k] == '{'
    ensures forall c :: from <= c < k && c < |src| ==> src[c] != '{'
    decreases |src| - from
  {
    if from >= |src| then |src|
    else if src[from] == '{' then from
    else NextBrace(src, from + 1)
  }

  /** Where a block starts, the brace that opens its body and the one that closes it. */
  datatype Span = Span(start: nat, open: nat, end: nat)

  /** The first brace after a candidate exists and is closed. */
  predicate Closed(src: string, start: nat) {
    var open := NextBrace(src, start);
    open < |src| && CloseOf(src, open) < |src|
  }

  function Blocks(src: string, from: nat): seq<Span>
    decreases |src| - from
  {
    var start := NextCandidate(src, from);
    if from >= |src| || start >= |src| || !Closed(src, start) then []
    else
      var open := NextBrace(src, start);
      CloseOfMatches(src, open);
      var end := CloseOf(src, open);
      [Span(start, open, end)] + Blocks(src, end + 1)
  }

  predicate InBounds(src: string, spans: seq<Span>) {
    forall i :: 0 <= i < |spans| ==> spans[i].open < spans[i].end <= |src|
  }

  function Bodies(src: string, spans: seq<Span>): seq<string>
    requires InBounds(src, spans)
  {
    seq(|spans|, i requires 0 <= i < |spans| => src[spans[i].open + 1..spans[i].end])
  }

  lemma BodiesSnoc(src: string, spans: seq<Span>, s: Span)
    requires InBounds(src, spans) && s.open < s.end <= |src|
    ensures InBounds(src, spans + [s])
    ensures Bodies(src, spans + [s]) == Bodies(src, spans) + [src[s.open + 1..s.end]]
  {
  }

  ghost predicate IsBlock(src: string, s: Span) {
    && Candidate(src, s.start)
    && s.start <= s.open && (forall k :: s.start <= k < s.open && k < |src| ==> src[k] != '{')
    && Matching(src, s.open, s.end)
  }

  /** One step of the list: the next candidate's block, then the blocks behind it. */
  lemma OneBlock(src: string, i: nat, start: nat, open: nat, end: nat)
    requires i < |src| && NextCandidate(src, i) == start && start < |src|
    requires NextBrace(src, start) == open && open < |src| && CloseOf(src, open) == end && end < |src|
    ensures i <= start <= open < end && IsBlock(src, Span(start, open, end))
    ensures Blocks(src, i) == [Span(start, open, end)] + Blocks(src, end + 1)
  {
    hide Candidate, NextCandidate, NextBrace, CloseOf, Matching;
    CloseOfMatches(src, open);
  }

  lemma NoBlock(src: string, i: nat)
    requires i >= |src| || NextCandidate(src, i) >= |src| || !Closed(src, NextCandidate(src, i))
    ensures Blocks(src, i) == []
  {
  }

  /** In order and disjoint; each block runs from a candidate's first brace to its match. */
  lemma {:induction false} BlocksMeaning(src: string, from: nat)
    ensures forall s :: s in Blocks(src, from) ==>
      IsBlock(src, s) && from <= s.start && s.start <= s.open < s.end < |src|
    ensures forall a, b :: 0 <= a < b < |Blocks(src, from)| ==> Blocks(src, from)[a].end < Blocks(src, from)[b].start
    decreases |src| - from
  {
    hide IsBlock, Blocks, Closed;
    var start := NextCandidate(src, from);
    if from < |src| && start < |src| && Closed(src, start) {
      ClosedBounds(src, start);
      var open := NextBrace(src, start);
      var end := CloseOf(src, open);
      OneBlock(src, from, start, open, end);
      BlocksMeaning(src, end + 1);
      var first := Span(start, open, end);
      var rest := Blocks(src, end + 1);
      assert forall k :: 0 <= k < |rest| ==> rest[k] in rest;
    } else {
      NoBlock(src, from);
    }
  }

  ghost predicate Inside(spans: seq<Span>, c: int) {
    exists s :: s in spans && s.start <= c <= s.end
  }

  /** A candidate that is not nested: no closed top-level candidate before it reaches it.
      This is a property of the text, told from left to right. */
  ghost predicate TopLevel(src: string, u: nat)
    decreases u
  {
    && Candidate(src, u)
    && forall w: nat :: w < u && TopLevel(src, w) ==> !(Closed(src, w) && u <= EndOf(src, w))
  }

  /** Where the first brace after a position closes. */
  function EndOf(src: string, start: nat): nat {
    CloseOf(src, NextBrace(src, start))
  }

  /** A position the scan resumes at: every top-level candidate before it is done with. */
  ghost predicate Resumes(src: string, from: nat) {
    forall w: nat :: w < from && TopLevel(src, w) ==> Closed(src, w) && EndOf(src, w) < from
  }

  lemma StartIsTopLevel(src: string, from: nat, start: nat)
    requires Resumes(src, from) && from <= start && Candidate(src, start)
    requires forall c :: from <= c < start ==> !Candidate(src, c)
    ensures TopLevel(src, start)
  {
    hide Candidate, Closed, EndOf;
  }

  lemma ResumesBehind(src: string, from: nat, start: nat)
    requires Resumes(src, from) && from <= start && TopLevel(src, start)
    requires forall c :: from <= c < start ==> !Candidate(src, c)
    requires Closed(src, start) && start <= EndOf(src, start)
    ensures Resumes(src, EndOf(src, start) + 1)
    ensures forall u: nat :: start < u <= EndOf(src, start) ==> !TopLevel(src, u)
  {
    hide Candidate, Closed, EndOf;
  }

  /** What the scan returns from a position it resumes at: a candidate lies in a block if and
      only if every top-level candidate up to it is closed. */
  lemma {:induction false} InsideIffFrom(src: string, from: nat, c: nat)
    requires Resumes(src, from) && Candidate(src, c) && from <= c
    ensures Inside(Blocks(src, from), c) <==> forall u: nat :: from <= u <= c && TopLevel(src, u) ==> Closed(src, u)
    decreases |src| - from
  {
    hide Candidate, Closed, Blocks, TopLevel, Resumes;
    CandidateInBounds(src, c);
    var start := NextCandidate(src, from);
    assert start <= c;
    StartIsTopLevel(src, from, start);
    if Closed(src, start) {
      ClosedBounds(src, start);
      var end := EndOf(src, start);
      OneBlock(src, from, start, NextBrace(src, start), end);
      var first := Span(start, NextBrace(src, start), end);
      assert first in Blocks(src, from);
      ResumesBehind(src, from, start);
      forall u: nat | from <= u <= end && TopLevel(src, u) ensures u == start { TopLevelIsCandidate(src, u); }
      if c > end {
        InsideIffFrom(src, end + 1, c);
        assert Inside(Blocks(src, from), c) <==> Inside(Blocks(src, end + 1), c);
      }
    } else {
      NoBlock(src, from);
    }
  }

  lemma TopLevelIsCandidate(src: string, u: nat)
    requires TopLevel(src, u)
    ensures Candidate(src, u)
  {
  }

  /** Exactly the candidates behind an unclosed top-level one, and it, are missed. */
  lemma InsideIff(src: string, c: nat)
    requires Candidate(src, c)
    ensures Inside(Blocks(src, 0), c) <==> forall u: nat :: u <= c && TopLevel(src, u) ==> Closed(src, u)
  {
    hide Candidate, Closed, Blocks, TopLevel;
    InsideIffFrom(src, 0, c);
  }

  lemma CandidateInBounds(src: string, c: int)
    requires Candidate(src, c)
    ensures 0 <= c < |src|
  {
  }

  lemma ClosedBounds(src: string, start: nat)
    requires Closed(src, start)
    ensures NextBrace(src, start) < |src| && CloseOf(src, NextBrace(src, start)) < |src|
  {
  }

  /** If every candidate is closed, every candidate starts a block or lies inside one. */
  lemma EveryCandidateIsInside(src: string)
    requires forall u :: 0 <= u < |src| && Candidate(src, u) ==> Closed(src, u)
    ensures forall c :: Candidate(src, c) ==> Inside(Blocks(src, 0), c)
  {
    hide Closed, Blocks, Candidate, TopLevel;
    forall c | Candidate(src, c) ensures Inside(Blocks(src, 0), c) {
      CandidateInBounds(src, c);
      InsideIff(src, c);
      forall u: nat | u <= c && TopLevel(src, u) ensures Closed(src, u) {
        TopLevelIsCandidate(src, u);
        CandidateInBounds(src, u);
      }
    }
  }

  /** A closed block behind an unclosed one, and missed with it. */
  lemma ClosedBlockIsMissed(src: string)
    requires src == "resource \"{ resource \"{}"
    ensures Candidate(src, 12) && Closed(src, 12)
    ensures Blocks(src, 0) == [] && !Inside(Blocks(src, 0), 12)
  {
    assert src[0..10] == KEYWORD && src[12..22] == KEYWORD && |src| == 24;
    assert Candidate(src, 0) && NextCandidate(src, 0) == 0;
    BracesOfMissed(src);
  }

  lemma BracesOfMissed(src: string)
    requires src == "resource \"{ resource \"{}"
    ensures NextBrace(src, 0) == 10 && CloseOf(src, 10) == |src|
    ensures NextBrace(src, 12) == 22 && CloseOf(src, 22) == 23
  {
    assert CloseFrom(src, 23, 2) == CloseFrom(src, 24, 1) == |src|;
    PlainText(src, 11, 22, 1);
    FirstBrace(src, 0, 10);
    FirstBrace(src, 12, 22);
  }

  /** Text without braces changes no depth. */
  lemma {:induction false} PlainText(src: string, i: nat, j: nat, depth: nat)
    requires i <= j <= |src| && depth >= 1 && forall k :: i <= k < j ==> src[k] != '{' && src[k] != '}'
    ensures CloseFrom(src, i, depth) == CloseFrom(src, j, depth)
    decreases j - i
  {
    if i < j { PlainText(src, i + 1, j, depth); }
  }

  lemma FirstBrace(src: string, from: nat, k: nat)
    requires from <= k < |src| && src[k] == '{' && forall c :: from <= c < k ==> src[c] != '{'
    ensures NextBrace(src, from) == k
  {
  }

  // ---- The scan -----------------------------------------------------------------------

  /** The first occurrence of a pattern at or after a position, or -1. */
  method IndexFrom(src: string, pattern: string, from: nat) returns (k: int)
    requires from <= |src|
    ensures k < 0 ==> forall c :: from <= c ==> !OccursAt(src, pattern, c)
    ensures k >= 0 ==> from <= k && OccursAt(src, pattern, k)
    ensures k >= 0 ==> forall c :: from <= c < k ==> !OccursAt(src, pattern, c)
  {
    k := from;
    while k + |pattern| <= |src|
      invariant from <= k
      invariant forall c :: from <= c < k ==> !OccursAt(src, pattern, c)
    {
      if src[k..k + |pattern|] == pattern {
        return;
      }
      k := k + 1;
    }
    k := -1;
  }

  lemma KeywordLetters(src: string, k: int)
    ensures OccursAt(src, KEYWORD, k) ==> k + 1 < |src| && src[k] == 'r' && src[k + 1] == 'e'
  {
    if OccursAt(src, KEYWORD, k) {
      assert src[k] == src[k..k + |KEYWORD|][0] && src[k + 1] == src[k..k + |KEYWORD|][1];
    }
  }

  lemma NextCandidateFound(src: string, from: nat, k: nat)
    requires from <= k < |src| && Candidate(src, k)
    requires forall c :: from <= c < k ==> !Candidate(src, c)
    ensures NextCandidate(src, from) == k
  {
  }

  lemma NoCandidateLeft(src: string, from: nat)
    requires from <= |src| && forall c :: from <= c ==> !Candidate(src, c)
    ensures NextCandidate(src, from) == |src|
  {
  }

  lemma NextBraceFound(src: string, from: nat, k: int)
    requires 0 <= k ==> from <= k && OccursAt(src, "{", k) && forall c :: from <= c < k ==> !OccursAt(src, "{", c)
    requires k < 0 ==> forall c :: from <= c ==> !OccursAt(src, "{", c)
    requires from <= |src|
    ensures NextBrace(src, from) == if k >= 0 then k else |src|
  {
    hide OccursAt;
    BraceAt(src, NextBrace(src, from));
    BraceAt(src, k);
  }

  lemma BraceAt(src: string, k: int)
    ensures OccursAt(src, "{", k) <==> 0 <= k < |src| && src[k] == '{'
  {
    if 0 <= k < |src| {
      assert src[k..k + 1] == [src[k]];
    }
  }

  lemma SameNextSameBlocks(src: string, a: nat, b: nat)
    requires a <= |src| && b <= |src| && NextCandidate(src, a) == NextCandidate(src, b)
    ensures Blocks(src, a) == Blocks(src, b)
  {
    hide Candidate, Closed;
  }

  /** Skipping past a keyword that is no candidate skips no candidate. */
  lemma SkipKeyword(src: string, from: nat, start: nat)
    requires from <= start < |src| && OccursAt(src, KEYWORD, start) && !Candidate(src, start)
    requires forall c :: from <= c < start ==> !OccursAt(src, KEYWORD, c)
    ensures start + 2 <= |src| && NextCandidate(src, from) == NextCandidate(src, start + 2)
    ensures Blocks(src, from) == Blocks(src, start + 2)
  {
    hide Blocks, NextCandidate, IsBoundary;
    KeywordLetters(src, start);
    KeywordLetters(src, start + 1);
    var k := NextCandidate(src, start + 2);
    if k < |src| {
      NextCandidateFound(src, from, k);
    } else {
      NoCandidateLeft(src, from);
    }
    SameNextSameBlocks(src, from, start + 2);
  }

  /** The position after `open` at which the depth returns to zero, or -1. */
  method FindEnd(src: string, open: nat) returns (end: int)
    requires open < |src| && src[open] == '{'
    ensures end == if CloseOf(src, open) < |src| then CloseOf(src, open) else -1
  {
    CloseOfMatches(src, open);
    var depth := 1;
    end := -1;
    var j := open + 1;
    while j < |src|
      invariant open < j <= |src| && depth >= 1 && end == -1
      invariant CloseFrom(src, j, depth) == CloseOf(src, open)
    {
      if src[j] == '{' {
        depth := depth + 1;
      } else if src[j] == '}' {
        depth := depth - 1;
        if depth == 0 {
          end := j;
        }
      }
      if end >= 0 {
        break;
      }
      j := j + 1;
    }
  }

  method ResourceBlockBodies(src: string) returns (bodies: seq<string>)
    ensures InBounds(src, Blocks(src, 0)) && bodies == Bodies(src, Blocks(src, 0))
  {
    hide InBounds, Bodies, Closed, CloseOf, Candidate, Blocks, NextCandidate, NextBrace, OccursAt, IsBlock;
    NoBodies(src);
    bodies := [];
    ghost var spans: seq<Span> := [];
    var i := 0;
    while i < |src|
      invariant 0 <= i <= |src|
      invariant spans + Blocks(src, i) == Blocks(src, 0)
      invariant InBounds(src, spans) && bodies == Bodies(src, spans)
      decreases |src| - i
    {
      var start := IndexFrom(src, KEYWORD, i);
      if start < 0 {
        NoKeywordNoBlock(src, i);
        break;
      }
      if start > 0 && !IsBoundary(src[start - 1]) {
        NoBoundary(src, start);
        SkipKeyword(src, i, start);
        i := start + 1;
        i := i + 1;
        continue;
      }
      var open := IndexFrom(src, "{", start);
      BoundaryCandidate(src, i, start);
      NextBraceFound(src, start, open);
      if open < 0 {
        NotClosed(src, i, start);
        break;
      }
      BraceAt(src, open);
      var end := FindEnd(src, open);
      if end < 0 {
        NotClosed(src, i, start);
        break;
      }
      OneBlock(src, i, start, open, end);
      ghost var span := Span(start, open, end);
      BodiesSnoc(src, spans, span);
      assert spans + ([span] + Blocks(src, end + 1)) == (spans + [span]) + Blocks(src, end + 1);
      bodies := bodies + [src[open + 1..end]];
      spans := spans + [span];
      i := end;
      i := i + 1;
    }
    if i >= |src| { NoBlock(src, i); }
    assert spans + [] == spans;
  }

  lemma NoBodies(src: string)
    ensures InBounds(src, []) && Bodies(src, []) == []
  {
  }

  lemma NoKeywordNoBlock(src: string, i: nat)
    requires i <= |src| && forall c :: i <= c ==> !OccursAt(src, KEYWORD, c)
    ensures Blocks(src, i) == []
  {
    NoCandidateLeft(src, i);
    NoBlock(src, i);
  }

  lemma NoBoundary(src: string, start: nat)
    requires 0 < start < |src| && !IsBoundary(src[start - 1])
    ensures !Candidate(src, start)
  {
  }

  lemma BoundaryCandidate(src: string, i: nat, start: nat)
    requires i <= start < |src| && OccursAt(src, KEYWORD, start) && (start == 0 || IsBoundary(src[start - 1]))
    requires forall c :: i <= c < start ==> !OccursAt(src, KEYWORD, c)
    ensures NextCandidate(src, i) == start
  {
    NextCandidateFound(src, i, start);
  }

  lemma NotClosed(src: string, i: nat, start: nat)
    requires i < |src| && NextCandidate(src, i) == start
    requires NextBrace(src, start) < |src| ==> CloseOf(src, NextBrace(src, start)) >= |src|
    ensures Blocks(src, i) == []
  {
  }
}
