/** The two lexical scanners of proofs/check-source.py.  `Segments` says which
    positions of a source are code; both scanners are proved against it. */
module Lexer {
  import opened Outcomes

  datatype ScanError =
    | UnterminatedRawString | UnterminatedQuotedLiteral | UnterminatedBlockComment
    | UnterminatedVerusBlock | NoVerusBlock

  /** What one scanner step does at a position: keep one character as code, or
      jump over a comment or literal. */
  datatype Step = Keep | Skip(end: nat) | Fail(error: ScanError)

  predicate Pair(s: string, p: nat, a: char, b: char) {
    p + 1 < |s| && s[p] == a && s[p + 1] == b
  }

  // ---- the pieces of a step

  /** `str.find` for one character. */
  function FindChar(s: string, c: char, p: nat): (r: Option<nat>)
    ensures r.Some? ==> p <= r.value < |s| && s[r.value] == c
    decreases |s| - p
  {
    if p >= |s| then None else if s[p] == c then Some(p) else FindChar(s, c, p + 1)
  }

  /** The first position at or after `p` that does not hold a hash. */
  function HashEnd(s: string, p: nat): (e: nat)
    requires p <= |s|
    ensures p <= e <= |s| && (e < |s| ==> s[e] != '#')
    decreases |s| - p
  {
    if p < |s| && s[p] == '#' then HashEnd(s, p + 1) else p
  }

  /** A quote followed by `hashes` hashes stands at `e`. */
  predicate Terminates(s: string, e: nat, hashes: nat) {
    e + hashes < |s| && s[e] == '"' && forall i :: e < i <= e + hashes ==> s[i] == '#'
  }

  /** `str.find` for a raw-string terminator. */
  function FindTerminator(s: string, hashes: nat, p: nat): (r: Option<nat>)
    ensures r.Some? ==> p <= r.value && r.value + hashes < |s|
    decreases |s| - p
  {
    if p >= |s| then None else if Terminates(s, p, hashes) then Some(p) else FindTerminator(s, hashes, p + 1)
  }

  /** Where the hashes of a raw string that starts at `p` would begin. */
  function RawPrefix(s: string, p: nat): Option<nat> {
    if Pair(s, p, 'b', 'r') then Some(p + 2)
    else if p < |s| && s[p] == 'r' then Some(p + 1)
    else None
  }

  /** `raw_string_end`: nothing when no raw string starts at `p`. */
  function RawStringEnd(s: string, p: nat): Result<Option<nat>, ScanError> {
    var prefix := RawPrefix(s, p);
    if prefix.None? then Ok(None)
    else
      var open := HashEnd(s, prefix.value);
      if open >= |s| || s[open] != '"' then Ok(None)
      else
        var hashes := open - prefix.value;
        match FindTerminator(s, hashes, open + 1)
        case None => Err(UnterminatedRawString)
        case Some(e) => Ok(Some(e + 1 + hashes))
  }

  /** The end of a quoted literal whose body is scanned from `p`. */
  function QuotedEnd(s: string, p: nat, quote: char): Result<nat, ScanError>
    decreases |s| - p
  {
    if p >= |s| then Err(UnterminatedQuotedLiteral)
    else if s[p] == '\\' then QuotedEnd(s, p + 2, quote)
    else if s[p] == quote then Ok(p + 1)
    else QuotedEnd(s, p + 1, quote)
  }

  /** The end of a nested block comment scanned from `p` with `depth` open. */
  function CommentEnd(s: string, p: nat, depth: nat): Result<nat, ScanError>
    decreases |s| - p, depth
  {
    if depth == 0 then Ok(p)
    else if p >= |s| then Err(UnterminatedBlockComment)
    else if Pair(s, p, '/', '*') then CommentEnd(s, p + 2, depth + 1)
    else if Pair(s, p, '*', '/') then CommentEnd(s, p + 2, depth - 1)
    else CommentEnd(s, p + 1, depth)
  }

  function SkipTo(r: Result<nat, ScanError>): Step {
    match r case Ok(e) => Skip(e) case Err(error) => Fail(error)
  }

  /** One step at `p`.  `alpha` is `str.isalpha` on one character. */
  function StepAt(s: string, alpha: char -> bool, p: nat): Step
    requires p < |s|
  {
    if Pair(s, p, '/', '/') then
      match FindChar(s, '\n', p + 2) case None => Skip(|s|) case Some(e) => Skip(e)
    else if Pair(s, p, '/', '*') then SkipTo(CommentEnd(s, p + 2, 1))
    else
      match RawStringEnd(s, p)
      case Err(error) => Fail(error)
      case Ok(Some(e)) => Skip(e)
      case Ok(None) =>
        if Pair(s, p, 'b', '"') then SkipTo(QuotedEnd(s, p + 2, '"'))
        else if s[p] == '"' then SkipTo(QuotedEnd(s, p + 1, '"'))
        else if Pair(s, p, 'b', '\'') then SkipTo(QuotedEnd(s, p + 2, '\''))
        else if s[p] == '\'' && p + 1 < |s| && (alpha(s[p + 1]) || s[p + 1] == '_') then Keep
        else if s[p] == '\'' then SkipTo(QuotedEnd(s, p + 1, '\''))
        else Keep
  }

  lemma {:induction false} QuotedEndAdvances(s: string, p: nat, quote: char)
    ensures QuotedEnd(s, p, quote).Ok? ==> p < QuotedEnd(s, p, quote).value <= |s|
    decreases |s| - p
  {
    if p < |s| {
      if s[p] == '\\' { QuotedEndAdvances(s, p + 2, quote); }
      else if s[p] != quote { QuotedEndAdvances(s, p + 1, quote); }
    }
  }

  lemma {:induction false} CommentEndAdvances(s: string, p: nat, depth: nat)
    requires p <= |s|
    ensures CommentEnd(s, p, depth).Ok? ==> p <= CommentEnd(s, p, depth).value <= |s|
    decreases |s| - p
  {
    if depth != 0 && p < |s| {
      if Pair(s, p, '/', '*') { CommentEndAdvances(s, p + 2, depth + 1); }
      else if Pair(s, p, '*', '/') { CommentEndAdvances(s, p + 2, depth - 1); }
      else { CommentEndAdvances(s, p + 1, depth); }
    }
  }

  /** Every step strictly advances and stays within the source. */
  lemma StepAdvances(s: string, alpha: char -> bool, p: nat)
    requires p < |s|
    ensures StepAt(s, alpha, p).Skip? ==> p < StepAt(s, alpha, p).end <= |s|
  {
    CommentEndAdvances(s, if p + 2 <= |s| then p + 2 else |s|, 1);
    QuotedEndAdvances(s, p + 1, '"');
    QuotedEndAdvances(s, p + 2, '"');
    QuotedEndAdvances(s, p + 1, '\'');
    QuotedEndAdvances(s, p + 2, '\'');
  }

  // ---- the code positions of a source

  /** The positions from `p` on that a scan keeps as code, in order. */
  function Segments(s: string, alpha: char -> bool, p: nat): Result<seq<nat>, ScanError>
    requires p <= |s|
    decreases |s| - p
  {
    if p == |s| then Ok([])
    else
      StepAdvances(s, alpha, p);
      match StepAt(s, alpha, p)
      case Fail(error) => Err(error)
      case Skip(e) => Segments(s, alpha, e)
      case Keep =>
        Prepend([p], Segments(s, alpha, p + 1))
  }

  function Prepend(front: seq<nat>, r: Result<seq<nat>, ScanError>): Result<seq<nat>, ScanError> {
    if r.Err? then r else Ok(front + r.value)
  }

  predicate Within(positions: seq<nat>, lo: nat, hi: nat) {
    forall i :: 0 <= i < |positions| ==> lo <= positions[i] < hi
  }

  function CharsAt(s: string, positions: seq<nat>): string
    requires Within(positions, 0, |s|)
  {
    if positions == [] then [] else [s[positions[0]]] + CharsAt(s, positions[1..])
  }

  /** The source with everything that is not code or a newline blanked. */
  function Masked(s: string, positions: seq<nat>): string {
    seq(|s|, i requires 0 <= i < |s| => if i in positions || s[i] == '\n' then s[i] else ' ')
  }

  lemma {:induction false} SegmentsWithin(s: string, alpha: char -> bool, p: nat)
    requires p <= |s|
    ensures Segments(s, alpha, p).Ok? ==> Within(Segments(s, alpha, p).value, p, |s|)
    decreases |s| - p
  {
    if p < |s| {
      StepAdvances(s, alpha, p);
      match StepAt(s, alpha, p)
      case Fail(_) =>
      case Skip(e) => SegmentsWithin(s, alpha, e);
      case Keep => SegmentsWithin(s, alpha, p + 1);
    }
  }

  /** What `code_only` returns. */
  function CodeText(s: string, alpha: char -> bool): Result<string, ScanError> {
    SegmentsWithin(s, alpha, 0);
    match Segments(s, alpha, 0)
    case Err(error) => Err(error)
    case Ok(positions) => Ok(CharsAt(s, positions))
  }

  /** What `lexical_mask` returns. */
  function MaskText(s: string, alpha: char -> bool): Result<string, ScanError> {
    match Segments(s, alpha, 0)
    case Err(error) => Err(error)
    case Ok(positions) => Ok(Masked(s, positions))
  }

  // ---- raw_string_end and quoted_end

  method ScanRawString(s: string, start: nat) returns (r: Result<Option<nat>, ScanError>)
    ensures r == RawStringEnd(s, start)
  {
    var cursor := start;
    if Pair(s, cursor, 'b', 'r') {
      cursor := cursor + 2;
    } else if cursor < |s| && s[cursor] == 'r' {
      cursor := cursor + 1;
    } else {
      return Ok(None);
    }
    ghost var first := cursor;
    var hashes := 0;
    while cursor < |s| && s[cursor] == '#'
      invariant first <= cursor <= |s| && hashes == cursor - first
      invariant HashEnd(s, cursor) == HashEnd(s, first)
    {
      hashes := hashes + 1;
      cursor := cursor + 1;
    }
    if cursor >= |s| || s[cursor] != '"' {
      return Ok(None);
    }
    var end := FindTerminator(s, hashes, cursor + 1);
    if end.None? {
      return Err(UnterminatedRawString);
    }
    r := Ok(Some(end.value + 1 + hashes));
  }

  method ScanQuoted(s: string, start: nat, quote: char) returns (r: Result<nat, ScanError>)
    ensures r == QuotedEnd(s, start + 1, quote)
  {
    var cursor := start + 1;
    while cursor < |s|
      invariant QuotedEnd(s, cursor, quote) == QuotedEnd(s, start + 1, quote)
      decreases |s| - cursor
    {
      if s[cursor] == '\\' {
        cursor := cursor + 2;
      } else if s[cursor] == quote {
        return Ok(cursor + 1);
      } else {
        cursor := cursor + 1;
      }
    }
    r := Err(UnterminatedQuotedLiteral);
  }

  // ---- code_only

  /** The scan so far, continued by the segments from the cursor, is the whole scan. */
  predicate ScanState(s: string, alpha: char -> bool, cursor: nat, kept: seq<nat>) {
    && cursor <= |s|
    && Within(kept, 0, cursor)
    && Segments(s, alpha, 0) == Prepend(kept, Segments(s, alpha, cursor))
  }

  /** Segments from `p` in terms of the step taken there. */
  lemma SegmentsStep(s: string, alpha: char -> bool, p: nat, step: Step)
    requires p < |s| && step == StepAt(s, alpha, p)
    ensures step.Skip? ==> p < step.end <= |s|
    ensures Segments(s, alpha, p) == if step.Fail? then Err(step.error)
                                     else if step.Skip? then Segments(s, alpha, step.end)
                                     else Prepend([p], Segments(s, alpha, p + 1))
  {
    StepAdvances(s, alpha, p);
  }

  lemma PrependTwice(front: seq<nat>, middle: seq<nat>, r: Result<seq<nat>, ScanError>)
    ensures Prepend(front, Prepend(middle, r)) == Prepend(front + middle, r)
  {
    if r.Ok? { assert front + (middle + r.value) == (front + middle) + r.value; }
  }

  lemma ScanStateStep(s: string, alpha: char -> bool, cursor: nat, kept: seq<nat>, step: Step)
    requires ScanState(s, alpha, cursor, kept) && cursor < |s| && step == StepAt(s, alpha, cursor)
    ensures step.Fail? ==> Segments(s, alpha, 0) == Err(step.error)
    ensures step.Skip? ==> cursor < step.end && ScanState(s, alpha, step.end, kept)
    ensures step.Keep? ==> ScanState(s, alpha, cursor + 1, kept + [cursor])
  {
    SegmentsStep(s, alpha, cursor, step);
    PrependTwice(kept, [cursor], Segments(s, alpha, cursor + 1));
  }

  lemma {:induction false} CharsAtSnoc(s: string, positions: seq<nat>, p: nat)
    requires Within(positions, 0, |s|) && p < |s|
    ensures CharsAt(s, positions + [p]) == CharsAt(s, positions) + [s[p]]
  {
    if positions != [] {
      CharsAtSnoc(s, positions[1..], p);
      assert (positions + [p])[1..] == positions[1..] + [p];
    }
  }

  method CodeOnly(s: string, alpha: char -> bool) returns (r: Result<string, ScanError>)
    ensures r == CodeText(s, alpha)
  {
    var result: string, cursor: nat := [], 0;
    ghost var kept: seq<nat> := [];
    assert ScanState(s, alpha, 0, []) by {
      if Segments(s, alpha, 0).Ok? { assert [] + Segments(s, alpha, 0).value == Segments(s, alpha, 0).value; }
    }
    while cursor < |s|
      invariant ScanState(s, alpha, cursor, kept)
      invariant result == CharsAt(s, kept)
      decreases |s| - cursor
    {
      ScanStateStep(s, alpha, cursor, kept, StepAt(s, alpha, cursor));
      CharsAtSnoc(s, kept, cursor);
      if Pair(s, cursor, '/', '/') {
        var end := FindChar(s, '\n', cursor + 2);
        cursor := if end.None? then |s| else end.value;
      } else if Pair(s, cursor, '/', '*') {
        var depth := 1;
        var inner := cursor + 2;
        while inner < |s| && depth != 0
          invariant 0 <= depth
          invariant CommentEnd(s, inner, depth) == CommentEnd(s, cursor + 2, 1)
          decreases |s| - inner
        {
          if Pair(s, inner, '/', '*') {
            depth := depth + 1;
            inner := inner + 2;
          } else if Pair(s, inner, '*', '/') {
            depth := depth - 1;
            inner := inner + 2;
          } else {
            inner := inner + 1;
          }
        }
        if depth != 0 {
          return Err(UnterminatedBlockComment);
        }
        cursor := inner;
      } else {
        var raw := ScanRawString(s, cursor);
        if raw.Err? {
          return Err(raw.error);
        }
        var literal: Result<nat, ScanError>;
        if raw.value.Some? {
          cursor := raw.value.value;
        } else if Pair(s, cursor, 'b', '"') {
          literal := ScanQuoted(s, cursor + 1, '"');
          if literal.Err? { return Err(literal.error); }
          cursor := literal.value;
        } else if s[cursor] == '"' {
          literal := ScanQuoted(s, cursor, '"');
          if literal.Err? { return Err(literal.error); }
          cursor := literal.value;
        } else if Pair(s, cursor, 'b', '\'') {
          literal := ScanQuoted(s, cursor + 1, '\'');
          if literal.Err? { return Err(literal.error); }
          cursor := literal.value;
        } else if s[cursor] == '\'' && cursor + 1 < |s| && (alpha(s[cursor + 1]) || s[cursor + 1] == '_') {
          result := result + [s[cursor]];
          kept := kept + [cursor];
          cursor := cursor + 1;
        } else if s[cursor] == '\'' {
          literal := ScanQuoted(s, cursor, '\'');
          if literal.Err? { return Err(literal.error); }
          cursor := literal.value;
        } else {
          result := result + [s[cursor]];
          kept := kept + [cursor];
          cursor := cursor + 1;
        }
      }
    }
    assert kept + [] == kept;
    r := Ok(result);
  }

  // ---- lexical_mask

  /** The mask as far as the cursor: blanked before it, untouched after it. */
  predicate MaskState(s: string, mask: string, cursor: nat, kept: seq<nat>) {
    && |mask| == |s|
    && forall i :: 0 <= i < |s| ==>
         mask[i] == if cursor <= i || i in kept || s[i] == '\n' then s[i] else ' '
  }

  function Blanked(cells: string, start: nat, end: nat): string {
    seq(|cells|, i requires 0 <= i < |cells| => if start <= i < end && cells[i] != '\n' then ' ' else cells[i])
  }

  method Blank(cells: array<char>, start: nat, end: nat)
    requires start <= end <= cells.Length
    modifies cells
    ensures cells[..] == Blanked(old(cells[..]), start, end)
  {
    for index := start to end
      invariant forall i :: 0 <= i < cells.Length ==>
                  cells[i] == if start <= i < index && old(cells[i]) != '\n' then ' ' else old(cells[i])
    {
      if cells[index] != '\n' {
        cells[index] := ' ';
      }
    }
  }

  lemma MaskKeeps(s: string, mask: string, cursor: nat, kept: seq<nat>)
    requires MaskState(s, mask, cursor, kept)
    ensures MaskState(s, mask, cursor + 1, kept + [cursor])
  {
  }

  lemma MaskBlanks(s: string, mask: string, start: nat, end: nat, kept: seq<nat>)
    requires MaskState(s, mask, start, kept) && Within(kept, 0, start) && start <= end
    ensures MaskState(s, Blanked(mask, start, end), end, kept)
  {
    assert forall i :: start <= i ==> i !in kept;
  }

  /** The branches of the mask loop: where the cursor goes, and whether the loop
      continues without blanking. */
  method MaskStep(s: string, alpha: char -> bool, start: nat) returns (step: Step)
    requires start < |s|
    ensures step == StepAt(s, alpha, start)
  {
    var cursor: nat := start;
    if Pair(s, cursor, '/', '/') {
      var end := FindChar(s, '\n', cursor + 2);
      cursor := if end.None? then |s| else end.value;
    } else if Pair(s, cursor, '/', '*') {
      var depth := 1;
      cursor := cursor + 2;
      while cursor < |s| && depth != 0
        invariant 0 <= depth
        invariant CommentEnd(s, cursor, depth) == CommentEnd(s, start + 2, 1)
        decreases |s| - cursor
      {
        if Pair(s, cursor, '/', '*') {
          depth := depth + 1;
          cursor := cursor + 2;
        } else if Pair(s, cursor, '*', '/') {
          depth := depth - 1;
          cursor := cursor + 2;
        } else {
          cursor := cursor + 1;
        }
      }
      if depth != 0 {
        return Fail(UnterminatedBlockComment);
      }
    } else {
      var raw := ScanRawString(s, cursor);
      if raw.Err? {
        return Fail(raw.error);
      }
      var literal: Result<nat, ScanError>;
      if raw.value.Some? {
        literal := Ok(raw.value.value);
      } else if Pair(s, cursor, 'b', '"') {
        literal := ScanQuoted(s, cursor + 1, '"');
      } else if s[cursor] == '"' {
        literal := ScanQuoted(s, cursor, '"');
      } else if Pair(s, cursor, 'b', '\'') {
        literal := ScanQuoted(s, cursor + 1, '\'');
      } else if s[cursor] == '\'' && cursor + 1 < |s| && (alpha(s[cursor + 1]) || s[cursor + 1] == '_') {
        return Keep;
      } else if s[cursor] == '\'' {
        literal := ScanQuoted(s, cursor, '\'');
      } else {
        return Keep;
      }
      if literal.Err? {
        return Fail(literal.error);
      }
      cursor := literal.value;
    }
    step := Skip(cursor);
  }

  method LexicalMask(s: string, alpha: char -> bool) returns (r: Result<string, ScanError>)
    ensures r == MaskText(s, alpha)
  {
    var result := new char[|s|](i requires 0 <= i < |s| => s[i]);
    var cursor: nat := 0;
    ghost var kept: seq<nat> := [];
    assert ScanState(s, alpha, 0, []) by {
      if Segments(s, alpha, 0).Ok? { assert [] + Segments(s, alpha, 0).value == Segments(s, alpha, 0).value; }
    }
    while cursor < |s|
      invariant ScanState(s, alpha, cursor, kept)
      invariant MaskState(s, result[..], cursor, kept)
      decreases |s| - cursor
    {
      var step := MaskStep(s, alpha, cursor);
      ScanStateStep(s, alpha, cursor, kept, step);
      if step.Fail? {
        return Err(step.error);
      }
      if step.Keep? {
        MaskKeeps(s, result[..], cursor, kept);
        kept := kept + [cursor];
        cursor := cursor + 1;
        continue;
      }
      MaskBlanks(s, result[..], cursor, step.end, kept);
      Blank(result, cursor, step.end);
      cursor := step.end;
    }
    assert kept + [] == kept;
    assert result[..] == Masked(s, kept);
    r := Ok(result[..]);
  }

  // ---- the two scanners agree

  predicate Visible(c: char) { c != ' ' && c != '\n' }

  /** The characters other than blanks and newlines. */
  function Ink(s: string): string {
    if s == [] then [] else (if Visible(s[0]) then [s[0]] else []) + Ink(s[1..])
  }

  predicate Increasing(positions: seq<nat>) {
    forall i, j :: 0 <= i < j < |positions| ==> positions[i] < positions[j]
  }

  lemma {:induction false} SegmentsIncrease(s: string, alpha: char -> bool, p: nat)
    requires p <= |s|
    ensures Segments(s, alpha, p).Ok? ==> Increasing(Segments(s, alpha, p).value)
    decreases |s| - p
  {
    if p < |s| {
      StepAdvances(s, alpha, p);
      match StepAt(s, alpha, p)
      case Fail(_) =>
      case Skip(e) => SegmentsIncrease(s, alpha, e);
      case Keep =>
        SegmentsIncrease(s, alpha, p + 1);
        SegmentsWithin(s, alpha, p + 1);
    }
  }

  /** Reading the mask from `p` on shows the characters at the kept positions. */
  lemma {:induction false} MaskInk(s: string, positions: seq<nat>, rest: seq<nat>, p: nat)
    requires p <= |s| && Within(rest, p, |s|) && Increasing(rest)
    requires forall i :: p <= i < |s| ==> (i in positions <==> i in rest)
    ensures Ink(Masked(s, positions)[p..]) == Ink(CharsAt(s, rest))
    decreases |s| - p
  {
    var mask := Masked(s, positions);
    if p == |s| {
      assert rest == [];
      assert mask[p..] == [];
    } else {
      assert mask[p..][0] == mask[p] && mask[p..][1..] == mask[p + 1..];
      if rest != [] && rest[0] == p {
        assert p in rest;
        assert forall i :: i in rest[1..] <==> i in rest && i != p by {
          assert rest == [rest[0]] + rest[1..];
        }
        MaskInk(s, positions, rest[1..], p + 1);
      } else {
        assert p !in rest;
        MaskInk(s, positions, rest, p + 1);
      }
    }
  }

  /** `code_only` and `lexical_mask` fail on the same sources with the same error;
      otherwise the mask keeps the length and every newline of the source, shows a
      source character or a blank everywhere, and shows exactly the visible
      characters that `code_only` returns, in order. */
  lemma ScannersAgree(s: string, alpha: char -> bool)
    ensures CodeText(s, alpha).Err? <==> MaskText(s, alpha).Err?
    ensures CodeText(s, alpha).Err? ==> CodeText(s, alpha).error == MaskText(s, alpha).error
    ensures CodeText(s, alpha).Ok? ==>
              var mask := MaskText(s, alpha).value;
              && |mask| == |s|
              && (forall i :: 0 <= i < |s| ==> mask[i] == s[i] || (mask[i] == ' ' && s[i] != '\n'))
              && Ink(mask) == Ink(CodeText(s, alpha).value)
  {
    if CodeText(s, alpha).Ok? {
      var positions := Segments(s, alpha, 0).value;
      SegmentsWithin(s, alpha, 0);
      SegmentsIncrease(s, alpha, 0);
      MaskInk(s, positions, positions, 0);
      assert Masked(s, positions)[0..] == Masked(s, positions);
    }
  }
}
