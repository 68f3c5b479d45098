/** Extraction of `verus!` blocks in proofs/check-source.py, and why scanning the
    extracted blocks alone sees the same code as scanning the whole file. */
module VerusBlocks {
  import opened Outcomes
  import opened Lexer

  /** `str.isalpha`, `\w` and `\s` on one character.  `\s` matches neither `!` nor
      `{`, so the greedy runs below need no backtracking. */
  datatype Classes = Classes(alpha: char -> bool, word: char -> bool, space: char -> bool)

  type Range = r: (nat, nat) | r.0 <= r.1 witness (0, 0)

  // ---- the regular expression \bverus\s*!\s*\{

  function SpaceEnd(m: string, c: Classes, p: nat): (e: nat)
    requires p <= |m|
    ensures p <= e <= |m|
    decreases |m| - p
  {
    if p < |m| && c.space(m[p]) then SpaceEnd(m, c, p + 1) else p
  }

  /** The opening brace of a match that starts at `i`. */
  function MatchAt(m: string, c: Classes, i: nat): (r: Option<nat>)
    ensures r.Some? ==> i + 5 < r.value < |m| && m[i] == 'v' && m[r.value] == '{'
  {
    if i + 5 <= |m| && m[i..i + 5] == "verus" && (i == 0 || !c.word(m[i - 1])) then
      var bang := SpaceEnd(m, c, i + 5);
      if bang < |m| && m[bang] == '!' then
        var open := SpaceEnd(m, c, bang + 1);
        if open < |m| && m[open] == '{' then assert m[i..i + 5][0] == m[i]; Some(open) else None
      else None
    else None
  }

  /** `re.finditer` from `p`: leftmost, not overlapping; (start, opening brace). */
  function Matches(m: string, c: Classes, p: nat): seq<Range>
    decreases |m| - p
  {
    if p >= |m| then []
    else
      match MatchAt(m, c, p)
      case Some(open) => [(p, open)] + Matches(m, c, open + 1)
      case None => Matches(m, c, p + 1)
  }

  predicate IsMatch(m: string, r: Range) {
    r.0 < r.1 < |m| && m[r.0] == 'v' && m[r.1] == '{'
  }

  lemma {:induction false} MatchesAreMatches(m: string, c: Classes, p: nat)
    ensures forall i :: 0 <= i < |Matches(m, c, p)| ==> IsMatch(m, Matches(m, c, p)[i])
    decreases |m| - p
  {
    if p < |m| {
      match MatchAt(m, c, p)
      case Some(open) => MatchesAreMatches(m, c, open + 1);
      case None => MatchesAreMatches(m, c, p + 1);
    }
  }

  /** What `\s` cannot match in this expression. */
  predicate Plain(c: Classes) {
    !c.space('!') && !c.space('{') && !c.space('v')
  }

  predicate AllSpace(m: string, c: Classes, lo: nat, hi: nat)
    requires hi <= |m|
  {
    forall k :: lo <= k < hi ==> c.space(m[k])
  }

  /** The expression matches at `i`, with its brace at `open`. */
  predicate Occurs(m: string, c: Classes, i: nat, open: nat) {
    && i + 5 <= |m| && m[i..i + 5] == "verus" && (i == 0 || !c.word(m[i - 1])) && open < |m| && m[open] == '{'
    && exists bang :: i + 5 <= bang < open && m[bang] == '!' && AllSpace(m, c, i + 5, bang) && AllSpace(m, c, bang + 1, open)
  }

  lemma {:induction false} SpaceRun(m: string, c: Classes, p: nat)
    requires p <= |m|
    ensures AllSpace(m, c, p, SpaceEnd(m, c, p)) && (SpaceEnd(m, c, p) < |m| ==> !c.space(m[SpaceEnd(m, c, p)]))
    decreases |m| - p
  {
    if p < |m| && c.space(m[p]) { SpaceRun(m, c, p + 1); }
  }

  lemma MatchAtIsOccurrence(m: string, c: Classes, i: nat, open: nat)
    requires Plain(c)
    ensures MatchAt(m, c, i) == Some(open) <==> Occurs(m, c, i, open)
  {
    if i + 5 <= |m| {
      var bang := SpaceEnd(m, c, i + 5);
      SpaceRun(m, c, i + 5);
      if bang < |m| { SpaceRun(m, c, bang + 1); }
      if Occurs(m, c, i, open) {
        var b :| i + 5 <= b < open && m[b] == '!' && AllSpace(m, c, i + 5, b) && AllSpace(m, c, b + 1, open);
        assert b == bang;
      }
    }
  }

  /** No second match starts inside a match. */
  lemma MatchesDoNotOverlap(m: string, c: Classes, i: nat, open: nat, j: nat)
    requires Plain(c) && Occurs(m, c, i, open) && i < j <= open
    ensures j >= |m| || m[j] != 'v'
  {
    var verus := m[i..i + 5];
    assert forall k :: 0 <= k < 5 ==> verus[k] == m[i + k];
    if j < i + 5 { assert verus[j - i] == m[j]; }
  }

  lemma {:induction false} MatchesFrom(m: string, c: Classes, p: nat, i: nat, open: nat)
    requires Plain(c) && i <= open
    ensures (i, open) in Matches(m, c, p) <==> p <= i && Occurs(m, c, i, open)
    ensures forall a, b :: 0 <= a < b < |Matches(m, c, p)| ==> Matches(m, c, p)[a].1 < Matches(m, c, p)[b].0
    ensures forall a :: 0 <= a < |Matches(m, c, p)| ==> p <= Matches(m, c, p)[a].0
    decreases |m| - p
  {
    hide Occurs, MatchAt;
    assert i >= |m| ==> !Occurs(m, c, i, open) by { OccursInside(m, c, i, open); }
    if p < |m| {
      MatchAtIsOccurrence(m, c, p, open);
      match MatchAt(m, c, p)
      case None =>
        MatchesFrom(m, c, p + 1, i, open);
      case Some(brace) =>
        MatchAtIsOccurrence(m, c, p, brace);
        OccursInside(m, c, p, brace);
        MatchesFrom(m, c, brace + 1, i, open);
        if p < i <= brace {
          MatchesDoNotOverlap(m, c, p, brace, i);
          OccursInside(m, c, i, open);
        }
    }
  }

  lemma OccursInside(m: string, c: Classes, i: nat, open: nat)
    ensures Occurs(m, c, i, open) ==> i + 5 < open < |m| && m[i] == 'v'
  {
    if Occurs(m, c, i, open) {
      assert m[i..i + 5][0] == m[i];
    }
  }

  /** The extractor starts from every match of the expression, in order. */
  lemma MatchesAreOccurrences(m: string, c: Classes)
    requires Plain(c)
    ensures forall i: nat, open: nat | i <= open :: (i, open) in Matches(m, c, 0) <==> Occurs(m, c, i, open)
    ensures forall a, b :: 0 <= a < b < |Matches(m, c, 0)| ==> Matches(m, c, 0)[a].1 < Matches(m, c, 0)[b].0
  {
    forall i: nat, open: nat | i <= open ensures (i, open) in Matches(m, c, 0) <==> Occurs(m, c, i, open) {
      MatchesFrom(m, c, 0, i, open);
    }
    MatchesFrom(m, c, 0, 0, 0);
  }

  // ---- brace matching

  /** Opening minus closing braces in `m[lo..hi]`. */
  function Balance(m: string, lo: nat, hi: nat): int
    requires lo <= hi <= |m|
  {
    if lo == hi then 0
    else Balance(m, lo, hi - 1) + if m[hi - 1] == '{' then 1 else if m[hi - 1] == '}' then -1 else 0
  }

  /** `m[open..end + 1]` is the shortest balanced range from `open`. */
  ghost predicate Closes(m: string, open: nat, end: nat) {
    && open < end < |m| && m[end] == '}'
    && Balance(m, open, end + 1) == 0
    && forall i :: open < i <= end ==> Balance(m, open, i) > 0
  }

  function CloseFrom(m: string, i: nat, depth: int): Option<nat>
    decreases |m| - i
  {
    if i >= |m| then None
    else if m[i] == '{' then CloseFrom(m, i + 1, depth + 1)
    else if m[i] == '}' then if depth == 1 then Some(i) else CloseFrom(m, i + 1, depth - 1)
    else CloseFrom(m, i + 1, depth)
  }

  lemma {:induction false} CloseFromCloses(m: string, open: nat, i: nat)
    requires open < i <= |m| && forall k :: open < k <= i ==> Balance(m, open, k) > 0
    ensures var r := CloseFrom(m, i, Balance(m, open, i));
            && (r.Some? ==> Closes(m, open, r.value))
            && (r.None? ==> forall k :: open < k <= |m| ==> Balance(m, open, k) > 0)
    decreases |m| - i
  {
    if i < |m| && !(m[i] == '}' && Balance(m, open, i) == 1) {
      assert Balance(m, open, i + 1) > 0;
      CloseFromCloses(m, open, i + 1);
    }
  }

  /** The closing brace ends the shortest balanced range, and none is found only
      when no range from the opening brace is balanced. */
  lemma CloseIsShortest(m: string, open: nat)
    requires open < |m| && m[open] == '{'
    ensures var r := CloseFrom(m, open, 0);
            && (r.Some? ==> Closes(m, open, r.value))
            && (r.None? ==> forall k :: open < k <= |m| ==> Balance(m, open, k) != 0)
  {
    assert Balance(m, open, open) == 0;
    assert Balance(m, open, open + 1) == 1;
    CloseFromCloses(m, open, open + 1);
  }

  method FindClose(m: string, opening: nat) returns (r: Option<nat>)
    requires opening < |m| && m[opening] == '{'
    ensures r == CloseFrom(m, opening, 0)
    ensures r.Some? ==> Closes(m, opening, r.value)
    ensures r.None? ==> forall k :: opening < k <= |m| ==> Balance(m, opening, k) != 0
  {
    CloseIsShortest(m, opening);
    var depth := 0;
    for cursor := opening to |m|
      invariant CloseFrom(m, cursor, depth) == CloseFrom(m, opening, 0)
    {
      if m[cursor] == '{' {
        depth := depth + 1;
      } else if m[cursor] == '}' {
        depth := depth - 1;
        if depth == 0 {
          return Some(cursor);
        }
      }
    }
    r := None;
  }

  // ---- verus_blocks

  /** The extracted ranges, end exclusive, or a failure when a block is open. */
  function RangesOf(m: string, matches: seq<Range>): Result<seq<Range>, ScanError>
    requires forall i :: 0 <= i < |matches| ==> IsMatch(m, matches[i])
  {
    if matches == [] then Ok([])
    else
      var front := RangesOf(m, matches[..|matches| - 1]);
      if front.Err? then front
      else
        var last := matches[|matches| - 1];
        assert IsMatch(m, last);
        CloseIsShortest(m, last.1);
        var close := CloseFrom(m, last.1, 0);
        if close.None? then Err(UnterminatedVerusBlock) else Ok(front.value + [(last.0, close.value + 1)])
  }

  predicate Fitting(s: string, ranges: seq<Range>) {
    forall i :: 0 <= i < |ranges| ==> ranges[i].1 <= |s|
  }

  function Slices(s: string, ranges: seq<Range>): (blocks: seq<string>)
    requires Fitting(s, ranges)
    ensures |blocks| == |ranges| && forall i :: 0 <= i < |ranges| ==> blocks[i] == s[ranges[i].0..ranges[i].1]
  {
    seq(|ranges|, i requires 0 <= i < |ranges| => s[ranges[i].0..ranges[i].1])
  }

  /** `"\n".join`. */
  function Join(parts: seq<string>): string {
    if parts == [] then [] else if |parts| == 1 then parts[0] else parts[0] + "\n" + Join(parts[1..])
  }

  lemma {:induction false} JoinSeparates(parts: seq<string>, last: string)
    ensures Join(parts + [last]) == if parts == [] then last else Join(parts) + "\n" + last
  {
    if parts == [] {
      assert parts + [last] == [last];
    } else {
      JoinSeparates(parts[1..], last);
      assert (parts + [last])[1..] == parts[1..] + [last];
      if |parts| > 1 {
        assert parts[0] + "\n" + (Join(parts[1..]) + "\n" + last) == (parts[0] + "\n" + Join(parts[1..])) + "\n" + last;
      }
    }
  }

  lemma {:induction false} RangesFit(m: string, matches: seq<Range>)
    requires forall i :: 0 <= i < |matches| ==> IsMatch(m, matches[i])
    ensures RangesOf(m, matches).Ok? ==> AreBlocks(m, matches, RangesOf(m, matches).value)
  {
    if matches != [] {
      var n := |matches| - 1;
      RangesFit(m, matches[..n]);
      assert IsMatch(m, matches[n]);
      CloseIsShortest(m, matches[n].1);
    }
  }

  /** Each range runs from its match to the end of the shortest balanced range
      from the match's opening brace. */
  ghost predicate AreBlocks(m: string, matches: seq<Range>, ranges: seq<Range>) {
    && |ranges| == |matches|
    && Fitting(m, ranges)
    && forall i :: 0 <= i < |matches| ==>
         && ranges[i].0 == matches[i].0 < ranges[i].1
         && Closes(m, matches[i].1, ranges[i].1 - 1)
  }

  /** What `verus_blocks` returns. */
  function BlocksText(s: string, c: Classes): Result<string, ScanError> {
    var mask := MaskText(s, c.alpha);
    if mask.Err? then Err(mask.error)
    else
      MatchesAreMatches(mask.value, c, 0);
      var ranges := RangesOf(mask.value, Matches(mask.value, c, 0));
      if ranges.Err? then Err(ranges.error)
      else if ranges.value == [] then Err(NoVerusBlock)
      else RangesFit(mask.value, Matches(mask.value, c, 0)); Ok(Join(Slices(s, ranges.value)))
  }

  lemma {:induction false} OpenBlockStays(m: string, matches: seq<Range>, k: nat)
    requires forall i :: 0 <= i < |matches| ==> IsMatch(m, matches[i])
    requires k <= |matches| && RangesOf(m, matches[..k]).Err?
    ensures RangesOf(m, matches) == RangesOf(m, matches[..k])
    decreases |matches|
  {
    if k < |matches| {
      assert matches[..|matches| - 1][..k] == matches[..k];
      OpenBlockStays(m, matches[..|matches| - 1], k);
    } else {
      assert matches[..k] == matches;
    }
  }

  method CutBlocks(s: string, m: string, matches: seq<Range>) returns (r: Result<seq<string>, ScanError>)
    requires |m| == |s| && forall i :: 0 <= i < |matches| ==> IsMatch(m, matches[i])
    ensures RangesOf(m, matches).Err? ==> r == Err(RangesOf(m, matches).error)
    ensures RangesOf(m, matches).Ok? ==>
              Fitting(s, RangesOf(m, matches).value) && r == Ok(Slices(s, RangesOf(m, matches).value))
  {
    var blocks := [];
    ghost var ranges: seq<Range> := [];
    for i := 0 to |matches|
      invariant RangesOf(m, matches[..i]) == Ok(ranges) && Fitting(s, ranges)
      invariant blocks == Slices(s, ranges)
    {
      assert matches[..i + 1][..i] == matches[..i];
      assert IsMatch(m, matches[i]);
      var (start, opening) := matches[i];
      var close := FindClose(m, opening);
      if close.None? {
        OpenBlockStays(m, matches, i + 1);
        return Err(UnterminatedVerusBlock);
      }
      ranges := ranges + [(start, close.value + 1)];
      blocks := blocks + [s[start..close.value + 1]];
    }
    assert matches[..|matches|] == matches;
    r := Ok(blocks);
  }

  method ExtractBlocks(s: string, c: Classes) returns (r: Result<string, ScanError>)
    ensures r == BlocksText(s, c)
  {
    var mask := LexicalMask(s, c.alpha);
    if mask.Err? {
      return Err(mask.error);
    }
    var matches := Matches(mask.value, c, 0);
    MatchesAreMatches(mask.value, c, 0);
    var blocks := CutBlocks(s, mask.value, matches);
    if blocks.Err? {
      return Err(blocks.error);
    }
    if blocks.value == [] {
      return Err(NoVerusBlock);
    }
    r := Ok(Join(blocks.value));
  }
}
