/** Scanning the extracted `verus!` blocks of proofs/check-source.py is local: it
    keeps the code characters that a scan of the whole file keeps there. */
module ScanLocality {
  import opened Outcomes
  import opened Lexer
  import opened VerusBlocks

  // ---- a window of one text occurs, shifted by d, in another

  predicate Same(s: string, lo: nat, hi: nat, t: string, d: int) {
    && lo <= hi <= |s| && 0 <= lo + d && hi + d <= |t|
    && forall i :: lo <= i < hi ==> s[i] == t[i + d]
  }

  lemma {:induction false} FindSame(s: string, c: char, p: nat, hi: nat, t: string, d: int)
    requires Same(s, p, hi, t, d)
    requires FindChar(s, c, p).Some? && FindChar(s, c, p).value < hi
    ensures FindChar(t, c, p + d) == Some(FindChar(s, c, p).value + d)
    decreases hi - p
  {
    assert s[p] == t[p + d];
    if s[p] != c { FindSame(s, c, p + 1, hi, t, d); }
  }

  lemma {:induction false} HashEndSame(s: string, p: nat, hi: nat, t: string, d: int)
    requires Same(s, p, hi, t, d) && HashEnd(s, p) < hi
    ensures HashEnd(t, p + d) == HashEnd(s, p) + d
    decreases hi - p
  {
    assert s[p] == t[p + d];
    if s[p] == '#' { HashEndSame(s, p + 1, hi, t, d); }
  }

  lemma TerminatesSame(s: string, e: nat, hashes: nat, hi: nat, t: string, d: int)
    requires Same(s, e, hi, t, d) && e + hashes < hi
    ensures Terminates(s, e, hashes) <==> Terminates(t, e + d, hashes)
  {
    assert s[e] == t[e + d];
    if Terminates(s, e, hashes) {
      forall i | e + d < i <= e + d + hashes ensures t[i] == '#' { assert s[i - d] == t[i - d + d]; }
    }
    if Terminates(t, e + d, hashes) {
      forall i | e < i <= e + hashes ensures s[i] == '#' { assert s[i] == t[i + d]; }
    }
  }

  lemma {:induction false} TerminatorSame(s: string, hashes: nat, p: nat, hi: nat, t: string, d: int)
    requires Same(s, p, hi, t, d)
    requires FindTerminator(s, hashes, p).Some? && FindTerminator(s, hashes, p).value + hashes < hi
    ensures FindTerminator(t, hashes, p + d) == Some(FindTerminator(s, hashes, p).value + d)
    decreases hi - p
  {
    TerminatesSame(s, p, hashes, hi, t, d);
    if !Terminates(s, p, hashes) { TerminatorSame(s, hashes, p + 1, hi, t, d); }
  }

  lemma {:induction false} QuotedSame(s: string, p: nat, quote: char, hi: nat, t: string, d: int)
    requires Same(s, p, hi, t, d)
    requires QuotedEnd(s, p, quote).Ok? && QuotedEnd(s, p, quote).value <= hi
    ensures QuotedEnd(t, p + d, quote) == Ok(QuotedEnd(s, p, quote).value + d)
    decreases hi - p
  {
    QuotedEndAdvances(s, p, quote);
    assert s[p] == t[p + d];
    if s[p] == '\\' {
      QuotedEndAdvances(s, p + 2, quote);
      QuotedSame(s, p + 2, quote, hi, t, d);
    } else if s[p] != quote {
      QuotedSame(s, p + 1, quote, hi, t, d);
    }
  }

  lemma {:induction false} CommentSame(s: string, p: nat, depth: nat, hi: nat, t: string, d: int)
    requires Same(s, p, hi, t, d)
    requires CommentEnd(s, p, depth).Ok? && CommentEnd(s, p, depth).value <= hi
    ensures CommentEnd(t, p + d, depth) == Ok(CommentEnd(s, p, depth).value + d)
    decreases hi - p, depth
  {
    if depth != 0 {
      CommentStepInside(s, p, depth);
      assert s[p] == t[p + d];
      if p + 1 < hi { assert s[p + 1] == t[p + 1 + d]; }
      if Pair(s, p, '/', '*') { CommentSame(s, p + 2, depth + 1, hi, t, d); }
      else if Pair(s, p, '*', '/') { CommentSame(s, p + 2, depth - 1, hi, t, d); }
      else { CommentSame(s, p + 1, depth, hi, t, d); }
    }
  }

  /** An open comment that closes does so at least two characters further on. */
  lemma {:induction false} CommentStepInside(s: string, p: nat, depth: nat)
    requires 0 < depth && CommentEnd(s, p, depth).Ok?
    ensures p + 2 <= CommentEnd(s, p, depth).value <= |s|
    decreases |s| - p
  {
    if Pair(s, p, '/', '*') {
      CommentStepInside(s, p + 2, depth + 1);
    } else if Pair(s, p, '*', '/') {
      if 1 < depth { CommentStepInside(s, p + 2, depth - 1); }
    } else {
      CommentStepInside(s, p + 1, depth);
    }
  }

  // ---- one step, and a run of steps, inside a window that ends in a kept brace

  function ShiftStep(step: Step, d: int): Step
    requires step.Skip? ==> 0 <= step.end + d
  {
    if step.Skip? then Skip(step.end + d) else step
  }

  /** The brace at `q` is reached without being jumped over. */
  predicate Inside(s: string, p: nat, q: nat, t: string, d: int) {
    p < q < |s| && s[q] == '}' && Same(s, p, q + 1, t, d)
  }

  lemma PairSame(s: string, p: nat, q: nat, t: string, d: int, a: char, b: char)
    requires Inside(s, p, q, t, d)
    ensures Pair(s, p, a, b) <==> Pair(t, p + d, a, b)
  {
    assert s[p] == t[p + d] && s[p + 1] == t[p + 1 + d];
  }

  lemma RawSame(s: string, p: nat, q: nat, t: string, d: int)
    requires Inside(s, p, q, t, d) && RawStringEnd(s, p).Ok?
    requires RawStringEnd(s, p).value.Some? ==> RawStringEnd(s, p).value.value <= q
    ensures RawStringEnd(s, p).value.None? ==> RawStringEnd(t, p + d) == Ok(None)
    ensures RawStringEnd(s, p).value.Some? ==> RawStringEnd(t, p + d) == Ok(Some(RawStringEnd(s, p).value.value + d))
  {
    PairSame(s, p, q, t, d, 'b', 'r');
    assert s[p] == t[p + d];
    var prefix := RawPrefix(s, p);
    if prefix.Some? {
      HashesStopAt(s, prefix.value, q);
      HashEndSame(s, prefix.value, q + 1, t, d);
      var open := HashEnd(s, prefix.value);
      assert s[open] == t[open + d];
      if s[open] == '"' {
        TerminatorSame(s, open - prefix.value, open + 1, q + 1, t, d);
      }
    }
  }

  lemma {:induction false} HashesStopAt(s: string, p: nat, q: nat)
    requires p <= q < |s| && s[q] != '#'
    ensures HashEnd(s, p) <= q
    decreases q - p
  {
    if s[p] == '#' { HashesStopAt(s, p + 1, q); }
  }

  lemma StepSame(s: string, alpha: char -> bool, p: nat, q: nat, t: string, d: int)
    requires Inside(s, p, q, t, d) && !StepAt(s, alpha, p).Fail?
    requires StepAt(s, alpha, p).Skip? ==> StepAt(s, alpha, p).end <= q
    ensures StepAt(s, alpha, p).Skip? ==> p < StepAt(s, alpha, p).end
    ensures StepAt(t, alpha, p + d) == ShiftStep(StepAt(s, alpha, p), d)
  {
    StepAdvances(s, alpha, p);
    assert s[p] == t[p + d] && s[p + 1] == t[p + 1 + d];
    PairSame(s, p, q, t, d, '/', '/');
    PairSame(s, p, q, t, d, '/', '*');
    if Pair(s, p, '/', '/') {
      if FindChar(s, '\n', p + 2).Some? { FindSame(s, '\n', p + 2, q + 1, t, d); }
    } else if Pair(s, p, '/', '*') {
      CommentSame(s, p + 2, 1, q, t, d);
    } else {
      LiteralSame(s, alpha, p, q, t, d);
    }
  }

  lemma LiteralSame(s: string, alpha: char -> bool, p: nat, q: nat, t: string, d: int)
    requires Inside(s, p, q, t, d) && !StepAt(s, alpha, p).Fail?
    requires !Pair(s, p, '/', '/') && !Pair(s, p, '/', '*')
    requires StepAt(s, alpha, p).Skip? ==> p < StepAt(s, alpha, p).end <= q
    ensures StepAt(t, alpha, p + d) == ShiftStep(StepAt(s, alpha, p), d)
  {
    assert s[p] == t[p + d] && s[p + 1] == t[p + 1 + d];
    PairSame(s, p, q, t, d, '/', '/');
    PairSame(s, p, q, t, d, '/', '*');
    RawSame(s, p, q, t, d);
    if RawStringEnd(s, p).value.None? {
      PairSame(s, p, q, t, d, 'b', '"');
      PairSame(s, p, q, t, d, 'b', '\'');
      if Pair(s, p, 'b', '"') {
        QuotedSame(s, p + 2, '"', q, t, d);
      } else if s[p] == '"' {
        QuotedSame(s, p + 1, '"', q, t, d);
      } else if Pair(s, p, 'b', '\'') {
        QuotedSame(s, p + 2, '\'', q, t, d);
      } else if s[p] == '\'' && !(alpha(s[p + 1]) || s[p + 1] == '_') {
        QuotedSame(s, p + 1, '\'', q, t, d);
      }
    }
  }

  /** The positions kept from `p` up to `b`, when the scan from `p` stops at `b`. */
  function Through(s: string, alpha: char -> bool, p: nat, b: nat): Option<seq<nat>>
    requires p <= b <= |s|
    decreases b - p
  {
    if p == b then Some([])
    else
      StepAdvances(s, alpha, p);
      var step := StepAt(s, alpha, p);
      if step.Fail? then None
      else if step.Skip? then if step.end <= b then Through(s, alpha, step.end, b) else None
      else
        var rest := Through(s, alpha, p + 1, b);
        if rest.None? then None else Some([p] + rest.value)
  }

  function Shift(positions: seq<nat>, d: int): seq<nat>
    requires forall i :: 0 <= i < |positions| ==> 0 <= positions[i] + d
  {
    seq(|positions|, i requires 0 <= i < |positions| => positions[i] + d)
  }

  lemma {:induction false} ThroughWithin(s: string, alpha: char -> bool, p: nat, b: nat)
    requires p <= b <= |s|
    ensures Through(s, alpha, p, b).Some? ==> Within(Through(s, alpha, p, b).value, p, b)
    decreases b - p
  {
    if p < b {
      StepAdvances(s, alpha, p);
      var step := StepAt(s, alpha, p);
      if step.Skip? && step.end <= b { ThroughWithin(s, alpha, step.end, b); }
      if step.Keep? { ThroughWithin(s, alpha, p + 1, b); }
    }
  }

  lemma {:induction false} ThroughSame(s: string, alpha: char -> bool, p: nat, q: nat, t: string, d: int)
    requires p <= q < |s| && s[q] == '}' && Same(s, p, q + 1, t, d)
    requires Through(s, alpha, p, q).Some?
    ensures Within(Through(s, alpha, p, q).value, p, q)
    ensures Through(t, alpha, p + d, q + d) == Some(Shift(Through(s, alpha, p, q).value, d))
    decreases q - p
  {
    hide StepAt;
    ThroughWithin(s, alpha, p, q);
    if p == q {
      assert Shift([], d) == [];
    } else {
      StepAdvances(s, alpha, p);
      StepSame(s, alpha, p, q, t, d);
      var step := StepAt(s, alpha, p);
      if step.Skip? {
        ThroughSame(s, alpha, step.end, q, t, d);
      } else {
        ThroughSame(s, alpha, p + 1, q, t, d);
        var rest := Through(s, alpha, p + 1, q).value;
        assert Shift([p] + rest, d) == [p + d] + Shift(rest, d);
      }
    }
  }

  /** A stop on the way splits the whole scan. */
  lemma {:induction false} SegmentsSplit(s: string, alpha: char -> bool, p: nat, b: nat)
    requires p <= b <= |s| && Through(s, alpha, p, b).Some?
    ensures Segments(s, alpha, p) == Prepend(Through(s, alpha, p, b).value, Segments(s, alpha, b))
    decreases b - p
  {
    if p == b {
      if Segments(s, alpha, b).Ok? { assert [] + Segments(s, alpha, b).value == Segments(s, alpha, b).value; }
    } else {
      var step := StepAt(s, alpha, p);
      SegmentsStep(s, alpha, p, step);
      if step.Skip? {
        SegmentsSplit(s, alpha, step.end, b);
      } else {
        SegmentsSplit(s, alpha, p + 1, b);
        PrependTwice([p], Through(s, alpha, p + 1, b).value, Segments(s, alpha, b));
      }
    }
  }

  /** The scan stops at every position that it keeps. */
  lemma {:induction false} KeptIsStop(s: string, alpha: char -> bool, p: nat, q: nat)
    requires p <= q < |s| && Segments(s, alpha, p).Ok? && q in Segments(s, alpha, p).value
    ensures Through(s, alpha, p, q).Some?
    ensures Segments(s, alpha, q).Ok? && q in Segments(s, alpha, q).value
    decreases q - p
  {
    if p < q {
      var step := StepAt(s, alpha, p);
      SegmentsStep(s, alpha, p, step);
      var next := if step.Skip? then step.end else p + 1;
      SegmentsWithin(s, alpha, next);
      KeptIsStop(s, alpha, next, q);
    }
  }

  // ---- whole blocks

  lemma BraceIsKept(s: string, alpha: char -> bool, q: nat)
    requires q < |s| && s[q] == '}'
    ensures StepAt(s, alpha, q) == Keep
    ensures Through(s, alpha, q, q + 1) == Some([q])
  {
    assert Through(s, alpha, q + 1, q + 1) == Some([]);
    assert [q] + [] == [q];
  }

  lemma NewlineIsKept(s: string, alpha: char -> bool, q: nat)
    requires q < |s| && s[q] == '\n'
    ensures Segments(s, alpha, q) == Prepend([q], Segments(s, alpha, q + 1))
  {
    SegmentsStep(s, alpha, q, Keep);
  }

  lemma {:induction false} ThroughJoin(s: string, alpha: char -> bool, p: nat, q: nat, b: nat)
    requires p <= q <= b <= |s|
    requires Through(s, alpha, p, q).Some? && Through(s, alpha, q, b).Some?
    ensures Through(s, alpha, p, b) == Some(Through(s, alpha, p, q).value + Through(s, alpha, q, b).value)
    decreases q - p
  {
    if p == q {
      assert [] + Through(s, alpha, q, b).value == Through(s, alpha, q, b).value;
    } else {
      StepAdvances(s, alpha, p);
      var step := StepAt(s, alpha, p);
      if step.Skip? {
        ThroughJoin(s, alpha, step.end, q, b);
      } else {
        ThroughJoin(s, alpha, p + 1, q, b);
        var x, y := Through(s, alpha, p + 1, q).value, Through(s, alpha, q, b).value;
        assert [p] + (x + y) == ([p] + x) + y;
      }
    }
  }

  /** A range that starts where the scan stops and ends in a kept brace. */
  predicate IsBlock(s: string, alpha: char -> bool, r: Range) {
    && r.0 < r.1 <= |s| && s[r.1 - 1] == '}'
    && Through(s, alpha, r.0, r.1 - 1).Some?
  }

  /** The characters of the block that the whole-file scan keeps. */
  function KeptIn(s: string, alpha: char -> bool, r: Range): string
    requires IsBlock(s, alpha, r)
  {
    ThroughWithin(s, alpha, r.0, r.1 - 1);
    CharsAt(s, Through(s, alpha, r.0, r.1 - 1).value) + "}"
  }

  lemma {:induction false} CharsAtShift(s: string, positions: seq<nat>, lo: nat, hi: nat, t: string, d: int)
    requires Within(positions, lo, hi) && Same(s, lo, hi, t, d)
    ensures Within(Shift(positions, d), 0, |t|) && CharsAt(t, Shift(positions, d)) == CharsAt(s, positions)
  {
    if positions != [] {
      CharsAtShift(s, positions[1..], lo, hi, t, d);
      assert Shift(positions, d)[1..] == Shift(positions[1..], d);
      assert s[positions[0]] == t[positions[0] + d];
    }
  }

  lemma {:induction false} CharsAtAppend(s: string, x: seq<nat>, y: seq<nat>)
    requires Within(x, 0, |s|) && Within(y, 0, |s|)
    ensures CharsAt(s, x + y) == CharsAt(s, x) + CharsAt(s, y)
  {
    if x == [] {
      assert x + y == y && CharsAt(s, x) == [] && [] + CharsAt(s, y) == CharsAt(s, y);
    } else {
      var all, head := x + y, [s[x[0]]];
      CharsAtAppend(s, x[1..], y);
      assert all[0] == x[0] && all[1..] == x[1..] + y;
      assert CharsAt(s, all) == head + CharsAt(s, all[1..]) && CharsAt(s, x) == head + CharsAt(s, x[1..]);
      assert head + (CharsAt(s, x[1..]) + CharsAt(s, y)) == (head + CharsAt(s, x[1..])) + CharsAt(s, y);
    }
  }

  lemma WindowIsSame(s: string, r: Range, t: string, o: nat)
    requires r.1 <= |s| && o + (r.1 - r.0) <= |t| && s[r.0..r.1] == t[o..o + (r.1 - r.0)]
    ensures Same(s, r.0, r.1, t, o - r.0)
  {
    forall i | r.0 <= i < r.1 ensures s[i] == t[i + (o - r.0)] {
      assert s[r.0..r.1][i - r.0] == t[o..o + (r.1 - r.0)][i - r.0];
    }
  }

  /** A run of the scan followed by a brace. */
  lemma ThroughBrace(t: string, alpha: char -> bool, o: nat, q: nat, kept: seq<nat>)
    requires o <= q < |t| && t[q] == '}' && Through(t, alpha, o, q) == Some(kept)
    ensures Within(kept, o, q)
    ensures Through(t, alpha, o, q + 1) == Some(kept + [q])
    ensures CharsAt(t, kept + [q]) == CharsAt(t, kept) + "}"
  {
    ThroughWithin(t, alpha, o, q);
    BraceIsKept(t, alpha, q);
    ThroughJoin(t, alpha, o, q, q + 1);
    CharsAtSnoc(t, kept, q);
  }

  /** A block found again in any text is scanned there as in its file, up to and
      including its brace. */
  lemma BlockScansAlone(s: string, alpha: char -> bool, r: Range, t: string, o: nat) returns (kept: seq<nat>)
    requires IsBlock(s, alpha, r)
    requires o + (r.1 - r.0) <= |t| && s[r.0..r.1] == t[o..o + (r.1 - r.0)]
    ensures Through(t, alpha, o, o + (r.1 - r.0)) == Some(kept)
    ensures Within(kept, o, o + (r.1 - r.0)) && CharsAt(t, kept) == KeptIn(s, alpha, r)
  {
    hide StepAt;
    var d, q := o - r.0, r.1 - 1;
    var inner := Through(s, alpha, r.0, q).value;
    WindowIsSame(s, r, t, o);
    assert s[q] == t[q + d];
    ThroughSame(s, alpha, r.0, q, t, d);
    CharsAtShift(s, inner, r.0, q, t, d);
    ThroughBrace(t, alpha, o, q + d, Shift(inner, d));
    kept := Shift(inner, d) + [q + d];
  }

  function AllKept(s: string, alpha: char -> bool, ranges: seq<Range>): seq<string>
    requires forall i :: 0 <= i < |ranges| ==> IsBlock(s, alpha, ranges[i])
  {
    seq(|ranges|, i requires 0 <= i < |ranges| => KeptIn(s, alpha, ranges[i]))
  }

  /** Scanning a block, a newline, and then some text whose scan is known. */
  lemma ScanAcrossNewline(t: string, alpha: char -> bool, o: nat, b: nat, kept: seq<nat>, later: seq<nat>)
    requires o <= b < |t| && t[b] == '\n'
    requires Through(t, alpha, o, b) == Some(kept) && Within(kept, o, b)
    requires Segments(t, alpha, b + 1) == Ok(later) && Within(later, 0, |t|)
    ensures Segments(t, alpha, o) == Ok(kept + [b] + later) && Within(kept + [b] + later, 0, |t|)
    ensures CharsAt(t, kept + [b] + later) == CharsAt(t, kept) + "\n" + CharsAt(t, later)
  {
    SegmentsSplit(t, alpha, o, b);
    NewlineIsKept(t, alpha, b);
    PrependTwice(kept, [b], Segments(t, alpha, b + 1));
    CharsAtSnoc(t, kept, b);
    CharsAtAppend(t, kept + [b], later);
  }

  lemma ScanToEnd(t: string, alpha: char -> bool, o: nat, kept: seq<nat>)
    requires o <= |t| && Through(t, alpha, o, |t|) == Some(kept)
    ensures Segments(t, alpha, o) == Ok(kept)
  {
    SegmentsSplit(t, alpha, o, |t|);
    assert kept + [] == kept;
  }

  lemma JoinSplit(block: string, rest: string, t: string, o: nat)
    requires o <= |t| && t[o..] == block + "\n" + rest
    ensures var b := o + |block|;
            b < |t| && t[o..b] == block && t[b] == '\n' && t[b + 1..] == rest
  {
    var b, u := o + |block|, t[o..];
    assert |u| == |block| + 1 + |rest|;
    assert t[o..b] == u[..|block|] == block;
    assert t[b] == u[|block|] == '\n';
    assert t[b + 1..] == u[|block| + 1..] == rest;
  }

  lemma {:induction false} JoinedBlocksScan(s: string, alpha: char -> bool, ranges: seq<Range>, t: string, o: nat)
    requires ranges != [] && forall i :: 0 <= i < |ranges| ==> IsBlock(s, alpha, ranges[i])
    requires Fitting(s, ranges) && o <= |t| && t[o..] == Join(Slices(s, ranges))
    ensures Segments(t, alpha, o).Ok? && Within(Segments(t, alpha, o).value, 0, |t|)
    ensures CharsAt(t, Segments(t, alpha, o).value) == Join(AllKept(s, alpha, ranges))
    decreases |ranges|
  {
    hide Segments, Through, CharsAt;
    var r := ranges[0];
    var b := o + (r.1 - r.0);
    assert IsBlock(s, alpha, r) && Slices(s, ranges)[0] == s[r.0..r.1];
    if |ranges| == 1 {
      assert t[o..b] == t[o..] == s[r.0..r.1];
      var kept := BlockScansAlone(s, alpha, r, t, o);
      ScanToEnd(t, alpha, o, kept);
    } else {
      var rest := ranges[1..];
      assert Slices(s, ranges)[1..] == Slices(s, rest);
      JoinSplit(s[r.0..r.1], Join(Slices(s, rest)), t, o);
      JoinedBlocksScan(s, alpha, rest, t, b + 1);
      var kept := BlockScansAlone(s, alpha, r, t, o);
      ScanAcrossNewline(t, alpha, o, b, kept, Segments(t, alpha, b + 1).value);
      assert AllKept(s, alpha, ranges)[1..] == AllKept(s, alpha, rest);
    }
  }

  // ---- the theorem

  /** The kept positions that fall into a range. */
  function Restrict(positions: seq<nat>, r: Range): seq<nat> {
    if positions == [] then []
    else if r.0 <= positions[0] < r.1 then [positions[0]] + Restrict(positions[1..], r)
    else Restrict(positions[1..], r)
  }

  lemma {:induction false} RestrictOutside(x: seq<nat>, r: Range)
    requires forall i :: 0 <= i < |x| ==> x[i] < r.0 || r.1 <= x[i]
    ensures Restrict(x, r) == []
  {
    if x != [] { RestrictOutside(x[1..], r); }
  }

  /** A range between a kept position and a kept brace cuts the whole scan in three. */
  lemma ScanInThree(s: string, alpha: char -> bool, r: Range) returns (before: seq<nat>, inner: seq<nat>, after: seq<nat>)
    requires Segments(s, alpha, 0).Ok? && r.0 < r.1 <= |s| && s[r.1 - 1] == '}'
    requires r.0 in Segments(s, alpha, 0).value && r.1 - 1 in Segments(s, alpha, 0).value
    ensures Through(s, alpha, r.0, r.1 - 1) == Some(inner) && Within(inner, r.0, r.1 - 1)
    ensures Within(before, 0, r.0) && Within(after, r.1, |s|)
    ensures Segments(s, alpha, 0).value == before + ((inner + [r.1 - 1]) + after)
  {
    hide StepAt;
    KeptIsStop(s, alpha, 0, r.0);
    SegmentsSplit(s, alpha, 0, r.0);
    before := Through(s, alpha, 0, r.0).value;
    ThroughWithin(s, alpha, 0, r.0);
    LaterIsLater(before, Segments(s, alpha, r.0).value, r.0, r.1 - 1);
    inner, after := ScanInTwo(s, alpha, r);
  }

  lemma LaterIsLater(before: seq<nat>, after: seq<nat>, p: nat, q: nat)
    requires Within(before, 0, p) && p <= q && q in before + after
    ensures q in after
  {
  }

  lemma ScanInTwo(s: string, alpha: char -> bool, r: Range) returns (inner: seq<nat>, after: seq<nat>)
    requires r.0 < r.1 <= |s| && s[r.1 - 1] == '}'
    requires Segments(s, alpha, r.0).Ok? && r.1 - 1 in Segments(s, alpha, r.0).value
    ensures Through(s, alpha, r.0, r.1 - 1) == Some(inner) && Within(inner, r.0, r.1 - 1)
    ensures Within(after, r.1, |s|)
    ensures Segments(s, alpha, r.0).value == (inner + [r.1 - 1]) + after
  {
    hide StepAt;
    KeptIsStop(s, alpha, r.0, r.1 - 1);
    inner := Through(s, alpha, r.0, r.1 - 1).value;
    ThroughBrace(s, alpha, r.0, r.1 - 1, inner);
    SegmentsSplit(s, alpha, r.0, r.1);
    SegmentsWithin(s, alpha, r.1);
    after := Segments(s, alpha, r.1).value;
  }

  /** Such a range is a block, and what it keeps is what the whole-file scan keeps
      in that range. */
  lemma KeptInIsRestriction(s: string, alpha: char -> bool, r: Range)
    requires Segments(s, alpha, 0).Ok? && r.0 < r.1 <= |s| && s[r.1 - 1] == '}'
    requires r.0 in Segments(s, alpha, 0).value && r.1 - 1 in Segments(s, alpha, 0).value
    ensures IsBlock(s, alpha, r)
    ensures Within(Restrict(Segments(s, alpha, 0).value, r), 0, |s|)
    ensures KeptIn(s, alpha, r) == CharsAt(s, Restrict(Segments(s, alpha, 0).value, r))
  {
    hide Segments, Through;
    var before, inner, after := ScanInThree(s, alpha, r);
    RestrictThree(before, inner + [r.1 - 1], after, r);
    CharsAtSnoc(s, inner, r.1 - 1);
  }

  lemma {:induction false} RestrictThree(before: seq<nat>, inside: seq<nat>, after: seq<nat>, r: Range)
    requires Within(inside, r.0, r.1)
    requires forall i :: 0 <= i < |before| ==> before[i] < r.0
    requires forall i :: 0 <= i < |after| ==> r.1 <= after[i]
    ensures Restrict(before + (inside + after), r) == inside
    decreases |before|
  {
    if before == [] {
      assert before + (inside + after) == inside + after;
      RestrictTwo(inside, after, r);
    } else {
      RestrictThree(before[1..], inside, after, r);
      assert (before + (inside + after))[1..] == before[1..] + (inside + after);
    }
  }

  lemma {:induction false} RestrictTwo(inside: seq<nat>, after: seq<nat>, r: Range)
    requires Within(inside, r.0, r.1)
    requires forall i :: 0 <= i < |after| ==> r.1 <= after[i]
    ensures Restrict(inside + after, r) == inside
  {
    if inside == [] {
      assert inside + after == after;
      RestrictOutside(after, r);
    } else {
      RestrictTwo(inside[1..], after, r);
      assert (inside + after)[1..] == inside[1..] + after;
    }
  }

  lemma VisibleIsKept(s: string, positions: seq<nat>, i: nat)
    requires i < |s| && Visible(Masked(s, positions)[i])
    ensures i in positions && s[i] == Masked(s, positions)[i]
  {
  }

  /** The code characters that a scan of the whole file keeps in each range. */
  function CodeInRanges(s: string, alpha: char -> bool, ranges: seq<Range>): seq<string>
    requires Segments(s, alpha, 0).Ok?
  {
    seq(|ranges|, i requires 0 <= i < |ranges| =>
      RestrictWithin(s, alpha, ranges[i]); CharsAt(s, Restrict(Segments(s, alpha, 0).value, ranges[i])))
  }

  lemma RestrictWithin(s: string, alpha: char -> bool, r: Range)
    requires Segments(s, alpha, 0).Ok?
    ensures Within(Restrict(Segments(s, alpha, 0).value, r), 0, |s|)
  {
    SegmentsWithin(s, alpha, 0);
    RestrictKeepsWithin(Segments(s, alpha, 0).value, r, |s|);
  }

  lemma {:induction false} RestrictKeepsWithin(x: seq<nat>, r: Range, n: nat)
    requires Within(x, 0, n)
    ensures Within(Restrict(x, r), 0, n)
  {
    if x != [] { RestrictKeepsWithin(x[1..], r, n); }
  }

  /** Locality.  When block extraction succeeds, each block is the shortest
      brace-balanced range of the mask from a match's opening brace, `code_only`
      on the joined blocks succeeds, and its result is the newline-join of the
      code characters that the whole-file scan keeps in those ranges. */
  lemma BlockScanIsLocal(s: string, c: Classes)
    requires BlocksText(s, c).Ok?
    ensures Segments(s, c.alpha, 0).Ok?
    ensures var mask := MaskText(s, c.alpha).value;
            var matches := Matches(mask, c, 0);
            && (forall i :: 0 <= i < |matches| ==> IsMatch(mask, matches[i]))
            && RangesOf(mask, matches).Ok?
            && var ranges := RangesOf(mask, matches).value;
            && AreBlocks(mask, matches, ranges)
            && Fitting(s, ranges) && BlocksText(s, c) == Ok(Join(Slices(s, ranges)))
            && CodeText(BlocksText(s, c).value, c.alpha) == Ok(Join(CodeInRanges(s, c.alpha, ranges)))
  {
    var mask := MaskText(s, c.alpha).value;
    var matches := Matches(mask, c, 0);
    MatchesAreMatches(mask, c, 0);
    RangesFit(mask, matches);
    var ranges := RangesOf(mask, matches).value;
    RangesScan(s, c.alpha, mask, matches, ranges);
    var text := Join(Slices(s, ranges));
    assert text[0..] == text;
    JoinedBlocksScan(s, c.alpha, ranges, text, 0);
    assert AllKept(s, c.alpha, ranges) == CodeInRanges(s, c.alpha, ranges);
  }

  lemma RangesScan(s: string, alpha: char -> bool, mask: string, matches: seq<Range>, ranges: seq<Range>)
    requires MaskText(s, alpha) == Ok(mask)
    requires AreBlocks(mask, matches, ranges) && forall i :: 0 <= i < |matches| ==> IsMatch(mask, matches[i])
    ensures forall i :: 0 <= i < |ranges| ==>
              && IsBlock(s, alpha, ranges[i])
              && Within(Restrict(Segments(s, alpha, 0).value, ranges[i]), 0, |s|)
              && KeptIn(s, alpha, ranges[i]) == CharsAt(s, Restrict(Segments(s, alpha, 0).value, ranges[i]))
  {
    forall i | 0 <= i < |ranges|
      ensures IsBlock(s, alpha, ranges[i])
      ensures Within(Restrict(Segments(s, alpha, 0).value, ranges[i]), 0, |s|)
      ensures KeptIn(s, alpha, ranges[i]) == CharsAt(s, Restrict(Segments(s, alpha, 0).value, ranges[i]))
    {
      hide *;
      RangeScans(s, alpha, mask, matches, ranges, i);
    }
  }

  lemma RangeScans(s: string, alpha: char -> bool, mask: string, matches: seq<Range>, ranges: seq<Range>, i: nat)
    requires MaskText(s, alpha) == Ok(mask)
    requires AreBlocks(mask, matches, ranges) && i < |ranges| && IsMatch(mask, matches[i])
    ensures IsBlock(s, alpha, ranges[i])
    ensures Within(Restrict(Segments(s, alpha, 0).value, ranges[i]), 0, |s|)
    ensures KeptIn(s, alpha, ranges[i]) == CharsAt(s, Restrict(Segments(s, alpha, 0).value, ranges[i]))
  {
    hide Segments, Through, Restrict, CharsAt, Balance;
    var positions, r := Segments(s, alpha, 0).value, ranges[i];
    VisibleIsKept(s, positions, r.0);
    VisibleIsKept(s, positions, r.1 - 1);
    KeptInIsRestriction(s, alpha, r);
  }
}
