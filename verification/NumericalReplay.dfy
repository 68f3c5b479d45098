/** The bit-level helpers of tools/replay_tp_numerical_capture.py: narrowing of
    binary32 to BF16, and the transpose comparison.

    A format's magnitudes are counted in units of 2^-149, the smallest positive
    binary32, so that every finite value is an integer. */
module NumericalReplay {
  import opened Outcomes
  import opened Numbers

  const WORD: nat := 0x1_0000
  const BINADE: nat := 0x80_0000      // codes per binary32 exponent
  const SIGN32: nat := 0x8000_0000
  const INFINITY32: nat := 0x7F80_0000
  const SIGN16: nat := 0x8000
  const INFINITY16: nat := 0x7F80

  newtype bits32 = x: int | 0 <= x < 0x1_0000_0000
  newtype bits16 = x: int | 0 <= x < 0x1_0000

  // ---- what bit patterns mean

  function Code32(w: bits32): nat { (w as nat) % SIGN32 }
  predicate Negative32(w: bits32) { w as nat >= SIGN32 }
  predicate Finite32(w: bits32) { Code32(w) < INFINITY32 }

  function Code16(b: bits16): nat { (b as nat) % SIGN16 }
  predicate Negative16(b: bits16) { b as nat >= SIGN16 }
  predicate Finite16(b: bits16) { Code16(b) < INFINITY16 }

  /** Magnitude of a binary32 code: subnormal when its exponent field is zero. */
  function Magnitude(code: nat): nat {
    if code < BINADE then code else (BINADE + code % BINADE) * Pow(2, code / BINADE - 1)
  }

  /** BF16 is binary32 with the low half dropped. */
  function Magnitude16(code: nat): nat {
    Magnitude(code * WORD)
  }

  function Value32(w: bits32): int {
    if Negative32(w) then 0 - Magnitude(Code32(w)) else Magnitude(Code32(w))
  }

  function Value16(b: bits16): int {
    if Negative16(b) then 0 - Magnitude16(Code16(b)) else Magnitude16(Code16(b))
  }

  function Distance(a: int, b: int): nat {
    if a <= b then b - a else a - b
  }

  // ---- the code

  /** `((bits + 0x7fff + ((bits >> 16) & 1)) >> 16) & 0xffff`. */
  function Narrow(w: bits32): bits16 {
    (((w as nat + 0x7FFF + (w as nat / WORD) % 2) / WORD) % WORD) as bits16
  }

  /** `bits << 16`. */
  function Widen(b: bits16): bits32 {
    (b as nat * WORD) as bits32
  }

  /** `bf16` refuses infinities and NaNs. */
  function Bf16(b: bits16): Result<int, ()> {
    if Finite16(b) then Ok(Value32(Widen(b))) else Err(())
  }

  // ---- rounding as section 4.3.1 of IEEE 754-2019 defines it

  /** The magnitude from which roundTiesToEven overflows: 2^emax (2 - 2^(1-p) / 2)
      with emax = 127 and p = 8. */
  function OverflowThreshold(): nat {
    511 * Pow(2, 268)
  }

  /** `b` is as near to `w` as any finite BF16, and even if another value is as near. */
  ghost predicate NearestEven(w: bits32, b: bits16) {
    && Finite16(b)
    && (forall c: bits16 :: Finite16(c) ==> Distance(Value32(w), Value16(b)) <= Distance(Value32(w), Value16(c)))
    && ((exists c: bits16 :: Finite16(c) && Value16(c) != Value16(b)
                             && Distance(Value32(w), Value16(c)) == Distance(Value32(w), Value16(b)))
        ==> b as nat % 2 == 0)
  }

  ghost predicate RoundTiesToEven(w: bits32, b: bits16) {
    && Negative16(b) == Negative32(w)
    && (if Magnitude(Code32(w)) >= OverflowThreshold() then Code16(b) == INFINITY16 else NearestEven(w, b))
  }

  // ---- binary32 codes run straight between neighbouring BF16 values

  /** The gap between binary32 neighbours above BF16 code `k`. */
  function Step(k: nat): (r: nat)
    ensures r > 0
  {
    PowPositive(2, if k < 128 then 0 else k / 128 - 1);
    if k < 128 then 1 else Pow(2, k / 128 - 1)
  }

  lemma Straight(k: nat, j: nat)
    requires j <= WORD
    ensures Magnitude(k * WORD + j) == Magnitude16(k) + j * Step(k)
  {
    var e, code := k / 128, k * WORD + j;
    assert k * WORD == e * BINADE + (k % 128) * WORD;
    if code / BINADE == e {
      InBinade(k, j);
    } else {
      assert k % 128 == 127 && j == WORD;
      assert code == (e + 1) * BINADE;
      assert code / BINADE == e + 1 && code % BINADE == 0;
      assert (k * WORD) / BINADE == e && (k * WORD) % BINADE == BINADE - WORD;
      if e > 0 {
        assert Pow(2, e) == 2 * Pow(2, e - 1);
      } else {
        assert Pow(2, 0) == 1;
      }
    }
  }

  lemma InBinade(k: nat, j: nat)
    requires j <= WORD && (k * WORD + j) / BINADE == k / 128
    ensures Magnitude(k * WORD + j) == Magnitude16(k) + j * Step(k)
  {
    var e, f := k / 128, (k % 128) * WORD;
    assert k * WORD == e * BINADE + f;
    assert (k * WORD) / BINADE == e && (k * WORD) % BINADE == f;
    assert (k * WORD + j) % BINADE == f + j;
    if e > 0 {
      var p := Pow(2, e - 1);
      assert (BINADE + (f + j)) * p == (BINADE + f) * p + j * p;
    }
  }

  lemma {:induction false} Increasing(a: nat, b: nat)
    requires a < b
    ensures Magnitude16(a) < Magnitude16(b)
    decreases b
  {
    hide Magnitude, Step;
    Straight(b - 1, WORD);
    assert (b - 1) * WORD + WORD == b * WORD;
    assert Magnitude16(b) == Magnitude16(b - 1) + WORD * Step(b - 1);
    if a < b - 1 { Increasing(a, b - 1); }
  }

  // ---- what narrowing does to a code

  /** The low half rounds up: above the middle, or in the middle of an odd code. */
  predicate RoundsUp(code: nat) {
    var k, j := code / WORD, code % WORD;
    j > 0x8000 || (j == 0x8000 && k % 2 == 1)
  }

  function Rounded(code: nat): nat {
    code / WORD + if RoundsUp(code) then 1 else 0
  }

  /** No carry reaches the sign unless the code is the topmost and rounds up. */
  lemma NarrowRounds(w: bits32)
    ensures Rounded(Code32(w)) < SIGN16 ==>
              Negative16(Narrow(w)) == Negative32(w) && Code16(Narrow(w)) == Rounded(Code32(w))
    ensures Rounded(Code32(w)) == SIGN16 ==>
              Negative16(Narrow(w)) != Negative32(w) && Code16(Narrow(w)) == 0
  {
    var code := Code32(w);
    var high := if Negative32(w) then SIGN16 else 0;
    assert w as nat == high * WORD + code;
    RoundsNearest(code, high);
  }

  lemma RoundsNearest(code: nat, high: nat)
    requires high % 2 == 0
    ensures var w := high * WORD + code; (w + 0x7FFF + (w / WORD) % 2) / WORD == high + Rounded(code)
  {
    var k, j := code / WORD, code % WORD;
    var w := high * WORD + code;
    assert w == (high + k) * WORD + j;
    assert w / WORD == high + k && (high + k) % 2 == k % 2;
  }

  // ---- the overflow threshold

  lemma HalfWord(e: nat)
    ensures Pow(2, 15 + e) == 0x8000 * Pow(2, e)
  {
    assert Pow(2, 5) == 32;
    PowAdd(2, 5, 5);
    PowAdd(2, 10, 5);
    PowAdd(2, 15, e);
  }

  lemma TopOfRange()
    ensures Magnitude16(0x7F7F) + 0x8000 * Step(0x7F7F) == OverflowThreshold()
    ensures INFINITY16 == 0x7F7F + 1 && 0x7F7F % 2 == 1
  {
    hide Pow;
    var p := Pow(2, 253);
    HalfWord(253);
    assert 0x7F7F / 128 == 254;
    var code := 0x7F7F * WORD;
    assert code / BINADE == 254 && code % BINADE == 127 * WORD;
    assert Magnitude16(0x7F7F) == (BINADE + 127 * WORD) * p;
  }

  /** Overflow is exactly the upper half of the topmost interval. */
  lemma OverflowsAtTheTop(code: nat)
    requires code < INFINITY32
    ensures Magnitude(code) >= OverflowThreshold() <==> Rounded(code) == INFINITY16
  {
    hide Magnitude, Step, OverflowThreshold;
    var k, j := code / WORD, code % WORD;
    assert code == k * WORD + j && k <= 0x7F7F;
    Straight(k, j);
    TopOfRange();
    if k == 0x7F7F {
      ScaleOrder(j, 0x8000, Step(k));
    } else {
      Straight(k, WORD);
      assert k * WORD + WORD == (k + 1) * WORD;
      ScaleOrder(j, WORD, Step(k));
      if k + 1 < 0x7F7F { Increasing(k + 1, 0x7F7F); }
    }
  }

  lemma ScaleOrder(a: nat, b: nat, s: nat)
    requires s > 0
    ensures a < b <==> a * s < b * s
  {
    if a < b { MulStrict(a, b, s, s); } else { MulMono(b, a, s, s); }
  }

  // ---- nearest

  /** On a line: `low` and `high` bracket `m`, nothing lies between them, and the
      nearer one is taken, or the even one of the two. */
  lemma NearestOnLine(low: nat, m: nat, high: nat, k: nat, up: bool, c: nat, point: nat)
    requires low <= m < high && (k > 0 ==> low > 0)
    requires up == (high - m < m - low || (high - m == m - low && k % 2 == 1))
    requires if c < k then point < low else if c == k then point == low else if c == k + 1 then point == high else high < point
    ensures var r, nearest := if up then k + 1 else k, if up then high else low;
            && Distance(m, nearest) <= Distance(m, point)
            && (c != r && Distance(m, nearest) == Distance(m, point) ==> r % 2 == 0 && c % 2 == 1)
            && Distance(m, nearest) <= m
            && (Distance(m, nearest) == m ==> nearest == 0)
  {}

  /** No BF16 magnitude beats the rounded one, and a tie is with an odd neighbour. */
  lemma NearestOnScale(code: nat, c: nat)
    ensures var m, r := Magnitude(code), Rounded(code);
            && Distance(m, Magnitude16(r)) <= Distance(m, Magnitude16(c))
            && (c != r && Distance(m, Magnitude16(r)) == Distance(m, Magnitude16(c)) ==> r % 2 == 0 && c % 2 == 1)
            && Distance(m, Magnitude16(r)) <= m
            && (Distance(m, Magnitude16(r)) == m ==> Magnitude16(r) == 0)
  {
    hide Magnitude, Magnitude16, Step, Distance;
    var k, j := code / WORD, code % WORD;
    assert code == k * WORD + j;
    var m, low, high := Magnitude(code), Magnitude16(k), Magnitude16(k + 1);
    Bracket(k, j);
    if k > 0 { Increasing(0, k); }
    if c < k { Increasing(c, k); }
    if k + 1 < c { Increasing(k + 1, c); }
    NearestOnLine(low, m, high, k, RoundsUp(code), c, Magnitude16(c));
  }

  lemma Bracket(k: nat, j: nat)
    requires j < WORD
    ensures var low, m, high := Magnitude16(k), Magnitude(k * WORD + j), Magnitude16(k + 1);
            && low <= m < high
            && (high - m < m - low <==> 0x8000 < j)
            && (high - m == m - low <==> 0x8000 == j)
  {
    hide Magnitude, Step;
    var s := Step(k);
    Straight(k, j);
    Straight(k, WORD);
    assert k * WORD + WORD == (k + 1) * WORD;
    assert Magnitude16(k + 1) - Magnitude(k * WORD + j) == (WORD - j) * s;
    ScaleOrder(WORD - j, j, s);
    ScaleOrder(j, WORD - j, s);
    ScaleOrder(0, WORD - j, s);
  }

  lemma ZeroMagnitude()
    ensures Magnitude16(0) == 0
  {}

  /** Two finite BF16 patterns with one value and one sign are one pattern. */
  lemma ValueDetermines(a: bits16, b: bits16)
    requires Value16(a) == Value16(b) && Negative16(a) == Negative16(b)
    ensures a == b
  {
    hide Magnitude16;
    if Code16(a) < Code16(b) { Increasing(Code16(a), Code16(b)); }
    if Code16(b) < Code16(a) { Increasing(Code16(b), Code16(a)); }
  }

  lemma NarrowIsNearest(w: bits32)
    requires Finite32(w) && Rounded(Code32(w)) < INFINITY16
    ensures NearestEven(w, Narrow(w))
  {
    hide Magnitude, Magnitude16, RoundsUp, Rounded, Narrow;
    var code, b := Code32(w), Narrow(w);
    NarrowRounds(w);
    forall c: bits16 | Finite16(c)
      ensures Distance(Value32(w), Value16(b)) <= Distance(Value32(w), Value16(c))
      ensures Value16(c) != Value16(b) && Distance(Value32(w), Value16(c)) == Distance(Value32(w), Value16(b)) ==>
                b as nat % 2 == 0
    {
      NearestOnScale(code, Code16(c));
      ZeroMagnitude();
    }
  }

  /** Narrowing a finite binary32 is roundTiesToEven, infinities at overflow included. */
  lemma NarrowRoundsTiesToEven(w: bits32)
    requires Finite32(w)
    ensures RoundTiesToEven(w, Narrow(w))
  {
    hide Magnitude, NearestEven, Narrow, OverflowThreshold;
    OverflowsAtTheTop(Code32(w));
    NarrowRounds(w);
    assert Rounded(Code32(w)) <= INFINITY16;
    if Rounded(Code32(w)) < INFINITY16 { NarrowIsNearest(w); }
  }

  /** The rule leaves no choice, so narrowing is the only function that meets it. */
  lemma RoundingIsUnique(w: bits32, b: bits16)
    requires Finite32(w) && RoundTiesToEven(w, b)
    ensures b == Narrow(w)
  {
    hide Magnitude, Magnitude16, Narrow, OverflowThreshold, NearestEven, RoundsUp;
    var n := Narrow(w);
    NarrowRoundsTiesToEven(w);
    OverflowsAtTheTop(Code32(w));
    if Magnitude(Code32(w)) < OverflowThreshold() {
      NarrowRounds(w);
      NearestOnScale(Code32(w), Code16(b));
      NearestIsEven(w, b, n);
    }
    assert Code16(b) == Code16(n);
  }

  lemma NearestIsEven(w: bits32, b: bits16, n: bits16)
    requires NearestEven(w, b) && NearestEven(w, n) && Negative16(b) == Negative16(n) == Negative32(w)
    ensures Distance(Magnitude(Code32(w)), Magnitude16(Code16(b))) == Distance(Magnitude(Code32(w)), Magnitude16(Code16(n)))
    ensures b != n ==> Code16(b) % 2 == 0
  {
    hide Magnitude, Magnitude16;
    assert Distance(Value32(w), Value16(b)) == Distance(Value32(w), Value16(n));
    if Value16(b) == Value16(n) { ValueDetermines(b, n); }
  }

  /** Every BF16 pattern survives widening and narrowing. */
  lemma NarrowUndoesWiden(b: bits16)
    ensures Narrow(Widen(b)) == b
    ensures Bf16(b) == if Finite16(b) then Ok(Value16(b)) else Err(())
  {
    hide Magnitude;
    var w := Widen(b);
    assert w as nat / WORD == b as nat && w as nat % WORD == 0;
    assert Code32(w) == Code16(b) * WORD;
  }

  /** What narrowing does outside its finite domain: infinities stay; a NaN within half
      a BF16 step of the lowest NaN code becomes an infinity of its sign, one within half
      a step of the highest becomes a zero of the other sign, and the others stay NaNs of
      their sign. */
  lemma NarrowOfNonFinite(w: bits32)
    requires !Finite32(w)
    ensures Code32(w) == INFINITY32 ==> Code16(Narrow(w)) == INFINITY16 && Negative16(Narrow(w)) == Negative32(w)
    ensures Code32(w) != INFINITY32 ==>
              (Code16(Narrow(w)) > INFINITY16 && Negative16(Narrow(w)) == Negative32(w) <==>
               0x7F80_8000 < Code32(w) < 0x7FFF_8000)
    ensures INFINITY32 < Code32(w) <= 0x7F80_8000 ==>
              Code16(Narrow(w)) == INFINITY16 && Negative16(Narrow(w)) == Negative32(w)
    ensures 0x7FFF_8000 <= Code32(w) ==> Code16(Narrow(w)) == 0 && Negative16(Narrow(w)) != Negative32(w)
  {
    NarrowRounds(w);
  }

  // ---- the transpose comparison

  lemma CellInRange(column: nat, inner: nat, n: nat, k: nat)
    requires column < n && inner < k
    ensures 0 <= column * k + inner < n * k
  {
    MulMono(column + 1, n, k, k);
    assert (column + 1) * k == column * k + k;
  }

  /** Cell (column, inner) agrees in the two layouts. */
  predicate SameCell(original: seq<bits16>, actual: seq<bits16>, n: nat, k: nat, column: nat, inner: nat)
    requires |original| == n * k && |actual| == n * k && column < n && inner < k
  {
    CellInRange(column, inner, n, k);
    CellInRange(inner, column, k, n);
    assert k * n == n * k;
    original[column * k + inner] == actual[inner * n + column]
  }

  function FullTransposeEqual(original: seq<bits16>, actual: seq<bits16>, n: nat, k: nat): Result<bool, ()> {
    if !(|original| == |actual| == n * k) then Err(())
    else Ok(forall column, inner :: 0 <= column < n && 0 <= inner < k ==> SameCell(original, actual, n, k, column, inner))
  }

  /** Position `p` of the transposed layout, read from the original. */
  function TransposedAt(original: seq<bits16>, n: nat, k: nat, p: nat): bits16
    requires |original| == n * k && p < n * k
  {
    CellOf(p, n, k);
    CellInRange(p % n, p / n, n, k);
    original[(p % n) * k + p / n]
  }

  lemma CellOf(p: nat, n: nat, k: nat)
    requires p < n * k
    ensures 0 < n && p / n < k && p % n < n && p == (p / n) * n + p % n
  {
    assert n == 0 ==> n * k == 0;
    if p / n >= k { MulMono(k, p / n, n, n); }
  }

  lemma CellIsUnique(column: nat, inner: nat, n: nat)
    requires column < n
    ensures (inner * n + column) / n == inner && (inner * n + column) % n == column
  {
    var p := inner * n + column;
    assert p == (p / n) * n + p % n;
    assert (p / n + 1) * n == (p / n) * n + n && (inner + 1) * n == inner * n + n;
    if p / n < inner { MulMono(p / n + 1, inner, n, n); }
    if inner < p / n { MulMono(inner + 1, p / n, n, n); }
  }

  /** The nested generator compares every element once: success means `actual`
      is the transpose, element for element. */
  lemma EveryCellIsCompared(original: seq<bits16>, actual: seq<bits16>, n: nat, k: nat)
    requires |original| == n * k
    ensures FullTransposeEqual(original, actual, n, k) == Ok(true) <==>
            |actual| == n * k && forall p :: 0 <= p < n * k ==> actual[p] == TransposedAt(original, n, k, p)
  {
    hide SameCell, TransposedAt;
    if |actual| == n * k {
      if FullTransposeEqual(original, actual, n, k) == Ok(true) {
        forall p | 0 <= p < n * k ensures actual[p] == TransposedAt(original, n, k, p) {
          ComparedAt(original, actual, n, k, p);
        }
      } else {
        var column, inner :| 0 <= column < n && 0 <= inner < k && !SameCell(original, actual, n, k, column, inner);
        CellInRange(inner, column, k, n);
        assert k * n == n * k;
        DiffersAt(original, actual, n, k, column, inner);
      }
    }
  }

  lemma ComparedAt(original: seq<bits16>, actual: seq<bits16>, n: nat, k: nat, p: nat)
    requires |original| == n * k && |actual| == n * k && p < n * k
    requires forall column, inner :: 0 <= column < n && 0 <= inner < k ==> SameCell(original, actual, n, k, column, inner)
    ensures actual[p] == TransposedAt(original, n, k, p)
  {
    CellOf(p, n, k);
    assert SameCell(original, actual, n, k, p % n, p / n);
  }

  lemma DiffersAt(original: seq<bits16>, actual: seq<bits16>, n: nat, k: nat, column: nat, inner: nat)
    requires |original| == n * k && |actual| == n * k && column < n && inner < k && inner * n + column < n * k
    requires !SameCell(original, actual, n, k, column, inner)
    ensures actual[inner * n + column] != TransposedAt(original, n, k, inner * n + column)
  {
    CellIsUnique(column, inner, n);
  }
}
