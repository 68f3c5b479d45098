/** What the scanners of proofs/check-source.py skip, said without their loops: where a
    literal, a raw string and a nested comment end, and which text opens which. */
module Lexemes {
  import opened Outcomes
  import opened Lexer

  /** `s` reads `text` at `p`. */
  predicate Reads(s: string, p: nat, text: string) {
    p + |text| <= |s| && s[p..p + |text|] == text
  }

  lemma ReadsEach(s: string, p: nat, text: string)
    ensures Reads(s, p, text) <==> p + |text| <= |s| && forall i :: 0 <= i < |text| ==> text[i] == s[p + i]
  {
    if Reads(s, p, text) {
      var window := s[p..p + |text|];
      assert forall i :: 0 <= i < |text| ==> window[i] == s[p + i];
    }
    if p + |text| <= |s| && forall i :: 0 <= i < |text| ==> text[i] == s[p + i] {
      assert s[p..p + |text|] == text;
    }
  }

  lemma ReadsPair(s: string, p: nat, text: string)
    requires |text| == 2
    ensures Reads(s, p, text) <==> Pair(s, p, text[0], text[1])
  {
    if Pair(s, p, text[0], text[1]) { assert s[p..p + 2] == text; }
    if Reads(s, p, text) { assert s[p..p + 2][0] == s[p] && s[p..p + 2][1] == s[p + 1]; }
  }

  lemma ReadsOne(s: string, p: nat, c: char)
    ensures Reads(s, p, [c]) <==> p < |s| && s[p] == c
  {
    if p < |s| { assert s[p..p + 1] == [s[p]]; }
  }

  // ---- quoted literals

  /** How many backslashes stand directly before `k`, not counting any before `p`. */
  function Backslashes(s: string, p: nat, k: nat): nat
    requires p <= k <= |s|
    decreases k
  {
    if p < k && s[k - 1] == '\\' then 1 + Backslashes(s, p, k - 1) else 0
  }

  /** A quote at `k` that is not escaped. */
  predicate Bare(s: string, p: nat, k: nat, quote: char)
    requires p <= k < |s|
  {
    s[k] == quote && Backslashes(s, p, k) % 2 == 0
  }

  /** The literal whose body starts at `p` ends, exclusively, at `e`. */
  predicate FirstBare(s: string, p: nat, e: nat, quote: char) {
    p < e <= |s| && Bare(s, p, e - 1, quote) && forall k :: p <= k < e - 1 ==> !Bare(s, p, k, quote)
  }

  predicate NoBare(s: string, p: nat, quote: char) {
    forall k :: p <= k < |s| ==> !Bare(s, p, k, quote)
  }

  /** After an even run of backslashes the count starts afresh. */
  lemma {:induction false} RunRestarts(s: string, p: nat, q: nat, k: nat)
    requires p <= q <= k <= |s| && Backslashes(s, p, q) % 2 == 0
    ensures Backslashes(s, p, k) % 2 == Backslashes(s, q, k) % 2
    decreases k
  {
    if q < k && s[k - 1] == '\\' { RunRestarts(s, p, q, k - 1); }
  }

  lemma {:induction false} EndsAtFirstBare(s: string, p: nat, q: nat, quote: char)
    requires p <= q && quote != '\\'
    requires q <= |s| ==> Backslashes(s, p, q) % 2 == 0
    requires forall k :: p <= k < q && k < |s| ==> !Bare(s, p, k, quote)
    ensures var r := QuotedEnd(s, q, quote);
            && (r.Ok? ==> FirstBare(s, p, r.value, quote))
            && (r.Err? ==> r.error == UnterminatedQuotedLiteral && NoBare(s, p, quote))
    decreases |s| - q
  {
    if q < |s| {
      if s[q] == '\\' {
        if q + 1 < |s| { assert Backslashes(s, p, q + 1) == 1 + Backslashes(s, p, q); }
        EndsAtFirstBare(s, p, q + 2, quote);
      } else if s[q] != quote {
        EndsAtFirstBare(s, p, q + 1, quote);
      }
    }
  }

  /** A quoted literal ends right after its first unescaped quote, and is unterminated
      exactly when there is none. */
  lemma LiteralEndsAtFirstBareQuote(s: string, p: nat, quote: char)
    requires quote != '\\'
    ensures var r := QuotedEnd(s, p, quote);
            && (forall e: nat :: r == Ok(e) <==> FirstBare(s, p, e, quote))
            && (r.Err? <==> NoBare(s, p, quote))
            && (r.Err? ==> r.error == UnterminatedQuotedLiteral)
  {
    EndsAtFirstBare(s, p, p, quote);
    var r := QuotedEnd(s, p, quote);
    if r.Ok? { assert Bare(s, p, r.value - 1, quote); }
    forall e: nat | FirstBare(s, p, e, quote) ensures r == Ok(e) {
      assert Bare(s, p, e - 1, quote);
    }
  }

  // ---- block comments

  predicate Mark(s: string, k: nat) {
    Pair(s, k, '/', '*') || Pair(s, k, '*', '/')
  }

  /** How many comment marks start at directly consecutive positions before `k`. */
  function Overlap(s: string, p: nat, k: nat): nat
    requires p <= k
    decreases k
  {
    if p < k && Mark(s, k - 1) then 1 + Overlap(s, p, k - 1) else 0
  }

  /** A mark that does not overlap one before it: of `/` `*` `/`, only the first. */
  predicate Stands(s: string, p: nat, k: nat)
    requires p <= k
  {
    Mark(s, k) && Overlap(s, p, k) % 2 == 0
  }

  /** Opening minus closing marks that stand before `k`. */
  function Nesting(s: string, p: nat, k: nat): int
    requires p <= k
    decreases k
  {
    if p == k then 0
    else Nesting(s, p, k - 1)
         + if !Stands(s, p, k - 1) then 0 else if Pair(s, k - 1, '/', '*') then 1 else -1
  }

  /** The comment whose body starts at `p`, already `depth` deep, ends at `e`: the mark
      before `e` is the first at which every opening is closed. */
  predicate ClosesAt(s: string, p: nat, depth: nat, e: nat) {
    p + 2 <= e <= |s| && depth + Nesting(s, p, e - 1) == 0 && forall k :: p <= k < e - 1 ==> depth + Nesting(s, p, k) > 0
  }

  predicate NeverCloses(s: string, p: nat, depth: nat) {
    forall k :: p <= k <= |s| ==> depth + Nesting(s, p, k) > 0
  }

  lemma {:induction false} CommentEndNests(s: string, p: nat, q: nat, depth: nat, start: nat)
    requires p <= q && start > 0 && depth == start + Nesting(s, p, q)
    requires Overlap(s, p, q) % 2 == 0
    requires depth > 0 ==> forall k :: p <= k <= q ==> start + Nesting(s, p, k) > 0
    requires depth == 0 ==> ClosesAt(s, p, start, q)
    ensures var r := CommentEnd(s, q, depth);
            && (r.Ok? ==> ClosesAt(s, p, start, r.value))
            && (r.Err? ==> r.error == UnterminatedBlockComment && NeverCloses(s, p, start))
    decreases |s| - q, depth
  {
    if depth != 0 && q < |s| {
      assert Nesting(s, p, q + 1) == Nesting(s, p, q) + if !Stands(s, p, q) then 0 else if Pair(s, q, '/', '*') then 1 else -1;
      if Mark(s, q) {
        assert Overlap(s, p, q + 1) == 1 + Overlap(s, p, q);
        assert !Stands(s, p, q + 1);
        assert Nesting(s, p, q + 2) == Nesting(s, p, q + 1);
        assert Overlap(s, p, q + 2) % 2 == 0;
        CommentEndNests(s, p, q + 2, if Pair(s, q, '/', '*') then depth + 1 else depth - 1, start);
      } else {
        CommentEndNests(s, p, q + 1, depth, start);
      }
    }
  }

  /** A block comment ends where its nesting first returns to zero, and is unterminated
      exactly when it never does. */
  lemma CommentEndsWhenNestingCloses(s: string, p: nat)
    ensures var r := CommentEnd(s, p, 1);
            && (forall e: nat :: r == Ok(e) <==> ClosesAt(s, p, 1, e))
            && (r.Err? <==> NeverCloses(s, p, 1))
            && (r.Err? ==> r.error == UnterminatedBlockComment)
  {
    CommentEndNests(s, p, p, 1, 1);
    var r := CommentEnd(s, p, 1);
    if r.Ok? { assert 1 + Nesting(s, p, r.value - 1) == 0; }
    forall e: nat | ClosesAt(s, p, 1, e) ensures r == Ok(e) {
      assert 1 + Nesting(s, p, e - 1) == 0;
    }
  }

  // ---- raw strings

  function Hashes(n: nat): string {
    seq(n, i => '#')
  }

  /** A raw string with `n` hashes opens at `p`, with its quote at `open`. */
  predicate RawOpens(s: string, p: nat, open: nat, n: nat) {
    || (Reads(s, p, "br" + Hashes(n) + "\"") && open == p + 2 + n)
    || (Reads(s, p, "r" + Hashes(n) + "\"") && open == p + 1 + n)
  }

  ghost predicate IsRaw(s: string, p: nat) {
    exists open: nat, n: nat :: RawOpens(s, p, open, n)
  }

  /** It ends, exclusively, at `e`: after the first quote followed by `n` hashes. */
  predicate RawCloses(s: string, open: nat, n: nat, e: nat) {
    && open + 2 + n <= e && Reads(s, e - 1 - n, "\"" + Hashes(n))
    && forall k :: open < k < e - 1 - n ==> !Reads(s, k, "\"" + Hashes(n))
  }

  lemma ReadsTerminator(s: string, k: nat, n: nat)
    ensures Reads(s, k, "\"" + Hashes(n)) <==> Terminates(s, k, n)
  {
    var text := "\"" + Hashes(n);
    assert |text| == n + 1 && text[0] == '"' && forall i :: 1 <= i <= n ==> text[i] == '#';
    hide Reads;
    ReadsEach(s, k, text);
    if Reads(s, k, text) {
      forall i | k < i <= k + n ensures s[i] == '#' { assert text[i - k] == s[k + (i - k)]; }
    }
  }

  lemma {:induction false} TerminatorIsFirst(s: string, n: nat, p: nat)
    ensures var r := FindTerminator(s, n, p);
            && (r.Some? ==> p <= r.value && Terminates(s, r.value, n) && forall k :: p <= k < r.value ==> !Terminates(s, k, n))
            && (r.None? ==> forall k: nat :: p <= k ==> !Terminates(s, k, n))
    decreases |s| - p
  {
    if p < |s| && !Terminates(s, p, n) { TerminatorIsFirst(s, n, p + 1); }
  }

  lemma {:induction false} HashRun(s: string, p: nat)
    requires p <= |s|
    ensures forall k :: p <= k < HashEnd(s, p) ==> s[k] == '#'
    decreases |s| - p
  {
    if p < |s| && s[p] == '#' { HashRun(s, p + 1); }
  }

  /** Prefix, hashes and quote in one piece. */
  lemma OpensAfterHashes(s: string, p: nat, prefix: string, n: nat)
    requires Reads(s, p, prefix)
    ensures Reads(s, p, prefix + Hashes(n) + "\"") <==>
            var q := p + |prefix|;
            HashEnd(s, q) == q + n && q + n < |s| && s[q + n] == '"'
  {
    hide Reads;
    var q, text := p + |prefix|, prefix + Hashes(n) + "\"";
    ReadsEach(s, p, prefix);
    ReadsEach(s, p, text);
    HashRun(s, q);
    assert forall i :: 0 <= i < |prefix| ==> text[i] == prefix[i];
    assert forall i :: |prefix| <= i < |prefix| + n ==> text[i] == '#';
    assert text[|prefix| + n] == '"' && |text| == |prefix| + n + 1;
    if Reads(s, p, text) {
      forall k | q <= k < q + n ensures s[k] == '#' { assert text[k - p] == s[p + (k - p)]; }
      assert text[q + n - p] == s[p + (q + n - p)];
      RunEnds(s, q, q + n);
    }
  }

  lemma {:induction false} RunEnds(s: string, q: nat, e: nat)
    requires q <= e < |s| && s[e] != '#' && forall k :: q <= k < e ==> s[k] == '#'
    ensures HashEnd(s, q) == e
    decreases e - q
  {
    if q < e { RunEnds(s, q + 1, e); }
  }

  /** Which prefix opens, and where. */
  lemma RawOpening(s: string, p: nat, open: nat, n: nat)
    ensures RawOpens(s, p, open, n) <==>
            var prefix := RawPrefix(s, p);
            prefix.Some? && prefix.value <= |s| && HashEnd(s, prefix.value) == open && prefix.value + n == open
            && open < |s| && s[open] == '"'
  {
    hide Reads, HashEnd, Hashes;
    ReadsPair(s, p, "br");
    ReadsOne(s, p, 'r');
    ReadsFront(s, p, "br", Hashes(n) + "\"");
    ReadsFront(s, p, "r", Hashes(n) + "\"");
    assert "br" + (Hashes(n) + "\"") == "br" + Hashes(n) + "\"" && "r" + (Hashes(n) + "\"") == "r" + Hashes(n) + "\"";
    if Reads(s, p, "br") {
      OpensAfterHashes(s, p, "br", n);
    } else if Reads(s, p, "r") {
      OpensAfterHashes(s, p, "r", n);
    }
  }

  lemma ReadsFront(s: string, p: nat, front: string, rest: string)
    ensures Reads(s, p, front + rest) ==> Reads(s, p, front)
  {
    if Reads(s, p, front + rest) { assert s[p..p + |front + rest|][..|front|] == s[p..p + |front|]; }
  }

  /** A raw string ends after its first quote with as many hashes as it opened with;
      without one it is unterminated; and nothing else is a raw string. */
  lemma RawStringEndsAtTerminator(s: string, p: nat)
    ensures RawStringEnd(s, p) == Ok(None) <==> !IsRaw(s, p)
    ensures forall open: nat, n: nat, e: nat :: RawOpens(s, p, open, n) ==>
              (RawStringEnd(s, p) == Ok(Some(e)) <==> RawCloses(s, open, n, e))
    ensures RawStringEnd(s, p).Err? ==> RawStringEnd(s, p).error == UnterminatedRawString
  {
    hide Reads;
    forall open: nat, n: nat | RawOpens(s, p, open, n)
      ensures RawStringEnd(s, p) != Ok(None)
      ensures forall e: nat :: RawStringEnd(s, p) == Ok(Some(e)) <==> RawCloses(s, open, n, e)
    {
      RawOpening(s, p, open, n);
      RawClosing(s, p, open, n);
    }
    if RawStringEnd(s, p) != Ok(None) {
      var prefix := RawPrefix(s, p).value;
      RawOpening(s, p, HashEnd(s, prefix), HashEnd(s, prefix) - prefix);
      assert RawOpens(s, p, HashEnd(s, prefix), HashEnd(s, prefix) - prefix);
    }
  }

  lemma RawClosing(s: string, p: nat, open: nat, n: nat)
    requires RawPrefix(s, p).Some? && RawPrefix(s, p).value <= |s| && HashEnd(s, RawPrefix(s, p).value) == open
    requires RawPrefix(s, p).value + n == open && open < |s| && s[open] == '"'
    ensures RawStringEnd(s, p) != Ok(None)
    ensures forall e: nat :: RawStringEnd(s, p) == Ok(Some(e)) <==> RawCloses(s, open, n, e)
  {
    hide Reads, Terminates;
    TerminatorIsFirst(s, n, open + 1);
    forall k: nat ensures Reads(s, k, "\"" + Hashes(n)) <==> Terminates(s, k, n) { ReadsTerminator(s, k, n); }
  }

  // ---- one lexeme

  /** The first newline at or after `p`, or the end of the text. */
  predicate LineEnds(s: string, p: nat, e: nat) {
    && e <= |s| && (e < |s| ==> p <= e && s[e] == '\n') && forall k :: p <= k < e ==> s[k] != '\n'
  }

  /** A quote that starts a lifetime or a label: a name follows it. */
  predicate IsLifetime(s: string, alpha: char -> bool, p: nat) {
    Reads(s, p, "'") && p + 1 < |s| && (alpha(s[p + 1]) || s[p + 1] == '_')
  }

  /** Some comment or literal opens at `p`. */
  ghost predicate Opens(s: string, alpha: char -> bool, p: nat) {
    || Reads(s, p, "//") || Reads(s, p, "/*") || IsRaw(s, p) || Reads(s, p, "b\"") || Reads(s, p, "\"")
    || Reads(s, p, "b'") || (Reads(s, p, "'") && !IsLifetime(s, alpha, p))
  }

  /** The comment or literal that opens at `p` ends, exclusively, at `e`. */
  ghost predicate Skips(s: string, alpha: char -> bool, p: nat, e: nat) {
    if Reads(s, p, "//") then LineEnds(s, p + 2, e)
    else if Reads(s, p, "/*") then ClosesAt(s, p + 2, 1, e)
    else if IsRaw(s, p) then exists open: nat, n: nat :: RawOpens(s, p, open, n) && RawCloses(s, open, n, e)
    else if Reads(s, p, "b\"") then FirstBare(s, p + 2, e, '"')
    else if Reads(s, p, "\"") then FirstBare(s, p + 1, e, '"')
    else if Reads(s, p, "b'") then FirstBare(s, p + 2, e, '\'')
    else Reads(s, p, "'") && !IsLifetime(s, alpha, p) && FirstBare(s, p + 1, e, '\'')
  }

  lemma {:induction false} FindsFirst(s: string, c: char, p: nat)
    ensures var r := FindChar(s, c, p);
            && (r.Some? ==> forall k :: p <= k < r.value ==> s[k] != c)
            && (r.None? ==> forall k :: p <= k < |s| ==> s[k] != c)
    decreases |s| - p
  {
    if p < |s| && s[p] != c { FindsFirst(s, c, p + 1); }
  }

  lemma LineStep(s: string, alpha: char -> bool, p: nat, e: nat)
    requires p < |s| && Pair(s, p, '/', '/')
    ensures StepAt(s, alpha, p) == Skip(e) <==> LineEnds(s, p + 2, e)
    ensures StepAt(s, alpha, p).Skip?
  {
    FindsFirst(s, '\n', p + 2);
  }

  /** One scanner step keeps a character exactly when nothing opens there, and otherwise
      skips exactly to the end of what opens; it fails exactly when that has no end. */
  lemma StepIsLexeme(s: string, alpha: char -> bool, p: nat)
    requires p < |s|
    ensures StepAt(s, alpha, p) == Keep <==> !Opens(s, alpha, p)
    ensures forall e: nat :: StepAt(s, alpha, p) == Skip(e) <==> Skips(s, alpha, p, e)
    ensures StepAt(s, alpha, p).Fail? <==> Opens(s, alpha, p) && forall e: nat :: !Skips(s, alpha, p, e)
  {
    hide Reads, FirstBare, NoBare, ClosesAt, NeverCloses, RawCloses, LineEnds, QuotedEnd, CommentEnd, RawStringEnd, RawOpens;
    ReadsPair(s, p, "//");
    ReadsPair(s, p, "/*");
    ReadsPair(s, p, "b\"");
    ReadsPair(s, p, "b'");
    ReadsOne(s, p, '"');
    ReadsOne(s, p, '\'');
    forall e: nat | Pair(s, p, '/', '/')
      ensures StepAt(s, alpha, p).Skip? && (StepAt(s, alpha, p) == Skip(e) <==> LineEnds(s, p + 2, e))
    {
      LineStep(s, alpha, p, e);
    }
    CommentEndsWhenNestingCloses(s, p + 2);
    RawStringEndsAtTerminator(s, p);
    LiteralEndsAtFirstBareQuote(s, p + 1, '"');
    LiteralEndsAtFirstBareQuote(s, p + 2, '"');
    LiteralEndsAtFirstBareQuote(s, p + 1, '\'');
    LiteralEndsAtFirstBareQuote(s, p + 2, '\'');
    if StepAt(s, alpha, p).Skip? { assert StepAt(s, alpha, p) == Skip(StepAt(s, alpha, p).end); }
  }

  // ---- a whole source

  /** One piece of a source: a code character, or a comment or literal as a whole. */
  ghost predicate Piece(s: string, alpha: char -> bool, p: nat, e: nat) {
    p < |s| && if Opens(s, alpha, p) then Skips(s, alpha, p, e) else e == p + 1
  }

  /** The source from `p` on, cut into pieces. */
  ghost predicate Lexing(s: string, alpha: char -> bool, p: nat, cuts: seq<nat>)
    decreases |cuts|
  {
    if cuts == [] then p == |s| else Piece(s, alpha, p, cuts[0]) && Lexing(s, alpha, cuts[0], cuts[1..])
  }

  /** The positions of the code characters of a cut source. */
  ghost function Code(s: string, alpha: char -> bool, p: nat, cuts: seq<nat>): seq<nat>
    decreases |cuts|
  {
    if cuts == [] then []
    else (if Opens(s, alpha, p) then [] else [p]) + Code(s, alpha, cuts[0], cuts[1..])
  }

  lemma PieceIsStep(s: string, alpha: char -> bool, p: nat, e: nat)
    requires p < |s|
    ensures Piece(s, alpha, p, e) <==> StepAt(s, alpha, p) == (if Opens(s, alpha, p) then Skip(e) else Keep)
                                       && (Opens(s, alpha, p) || e == p + 1)
  {
    hide Opens, Skips, StepAt;
    StepIsLexeme(s, alpha, p);
  }

  lemma {:induction false} LexingIsScan(s: string, alpha: char -> bool, p: nat, cuts: seq<nat>)
    requires p <= |s| && Lexing(s, alpha, p, cuts)
    ensures Segments(s, alpha, p) == Ok(Code(s, alpha, p, cuts))
    decreases |cuts|
  {
    hide Opens, Skips, StepAt;
    if cuts != [] {
      PieceIsStep(s, alpha, p, cuts[0]);
      StepAdvances(s, alpha, p);
      LexingIsScan(s, alpha, cuts[0], cuts[1..]);
      assert [] + Code(s, alpha, cuts[0], cuts[1..]) == Code(s, alpha, cuts[0], cuts[1..]);
    }
  }

  lemma {:induction false} ScanIsLexing(s: string, alpha: char -> bool, p: nat) returns (cuts: seq<nat>)
    requires p <= |s| && Segments(s, alpha, p).Ok?
    ensures Lexing(s, alpha, p, cuts)
    decreases |s| - p
  {
    hide Opens, Skips, StepAt;
    cuts := [];
    if p < |s| {
      var step := StepAt(s, alpha, p);
      StepAdvances(s, alpha, p);
      StepIsLexeme(s, alpha, p);
      var e := if step.Keep? then p + 1 else step.end;
      var rest := ScanIsLexing(s, alpha, e);
      cuts := [e] + rest;
      assert cuts[1..] == rest;
    }
  }

  lemma {:induction false} CharsAtEach(s: string, positions: seq<nat>)
    requires Within(positions, 0, |s|)
    ensures CharsAt(s, positions) == seq(|positions|, k requires 0 <= k < |positions| => s[positions[k]])
  {
    if positions != [] { CharsAtEach(s, positions[1..]); }
  }

  /** A source scans exactly when it can be cut into code characters, comments and
      literals; then `code_only` returns its code characters in order, and
      `lexical_mask` blanks everything else but newlines. */
  lemma ScansAreLexings(s: string, alpha: char -> bool)
    ensures CodeText(s, alpha).Ok? <==> exists cuts :: Lexing(s, alpha, 0, cuts)
    ensures forall cuts :: Lexing(s, alpha, 0, cuts) ==>
              var code := Code(s, alpha, 0, cuts);
              && Within(code, 0, |s|)
              && CodeText(s, alpha) == Ok(seq(|code|, k requires 0 <= k < |code| => s[code[k]]))
              && MaskText(s, alpha)
                 == Ok(seq(|s|, i requires 0 <= i < |s| => if i in code || s[i] == '\n' then s[i] else ' '))
  {
    hide Lexing, Code, Segments;
    SegmentsWithin(s, alpha, 0);
    if Segments(s, alpha, 0).Ok? {
      var cuts := ScanIsLexing(s, alpha, 0);
    }
    forall cuts | Lexing(s, alpha, 0, cuts)
      ensures Segments(s, alpha, 0) == Ok(Code(s, alpha, 0, cuts))
    {
      LexingIsScan(s, alpha, 0, cuts);
    }
    if Segments(s, alpha, 0).Ok? {
      var code := Segments(s, alpha, 0).value;
      CharsAtEach(s, code);
      assert Masked(s, code) == seq(|s|, i requires 0 <= i < |s| => if i in code || s[i] == '\n' then s[i] else ' ');
    }
  }
}
