/** The exact weighted geometric aggregate of benches/m1/d10_observations.rs:
    square-and-multiply under a bit budget, and one integer comparison. */
module Aggregate {
  import opened Outcomes
  import opened Numbers
  import opened Medians
  import opened Gates

  const MAX_EXACT_AGGREGATE_BITS: nat := 8 * 1024 * 1024
  const MAX_EXACT_AGGREGATE_CASE_WEIGHT: nat := 8_192
  const CASE_COUNT: nat := 7

  datatype Refusal = WeightOverflow | TooManyBits

  /** One case with an applicable vendor. */
  datatype Term = Term(ferric: Rational, vendor: Rational, weight: u64)

  datatype Power = Power(degree: nat, numerator: nat, denominator: nat, gate: bool)

  // ---- checked powers

  predicate PowerFits(base: nat, exponent: nat) {
    BitLen(base) * exponent <= MAX_EXACT_AGGREGATE_BITS
  }

  /** The products that square-and-multiply computes from here on, in order. */
  function Products(result: nat, factor: nat, remaining: nat): seq<nat>
    decreases remaining
  {
    if remaining == 0 then []
    else
      var next := if remaining % 2 == 1 then result * factor else result;
      (if remaining % 2 == 1 then [next] else [])
      + if remaining / 2 == 0 then [] else [factor * factor] + Products(next, factor * factor, remaining / 2)
  }

  /** Every value is within the bit product that was checked. */
  predicate WithinChecked(values: seq<nat>, base: nat, exponent: nat) {
    forall i :: 0 <= i < |values| ==> BitLen(values[i]) <= BitLen(base) * exponent
  }

  /** `pow_checked`.  `held` collects every product that the loop stores. */
  method PowChecked(base: nat, exponent: u64) returns (r: Result<nat, Refusal>, ghost held: seq<nat>)
    ensures r == if PowerFits(base, exponent) then Ok(Pow(base, exponent)) else Err(TooManyBits)
    ensures r.Err? <==> BitLen(base) * exponent > 8_388_608
    ensures held == if r.Ok? then Products(1, base, exponent) else []
    ensures WithinChecked(held, base, exponent)
  {
    hide Pow, BitLen, Products, Progress;
    held := [];
    if BitLen(base) * exponent > MAX_EXACT_AGGREGATE_BITS {
      return Err(TooManyBits), held;
    }
    var result: nat, factor: nat, remaining: nat := 1, base, exponent;
    ghost var used: nat, scale: nat := 0, 1;
    FirstPowers(base, exponent);
    assert held + Products(1, base, exponent) == Products(1, base, exponent);
    while remaining != 0
      invariant Progress(base, exponent, used, scale, remaining)
      invariant result == Pow(base, used) && factor == Pow(base, scale)
      invariant held + Products(result, factor, remaining) == Products(1, base, exponent)
      invariant WithinChecked(held, base, exponent)
      decreases remaining
    {
      HalvingStep(base, exponent, used, scale, remaining);
      TraceStep(held, result, factor, remaining);
      if remaining % 2 == 1 {
        result := result * factor;
        used := used + scale;
        held := held + [result];
      }
      remaining := remaining / 2;
      if remaining != 0 {
        factor := factor * factor;
        scale := 2 * scale;
        held := held + [factor];
      }
    }
    NoProducts(result, factor);
    assert held + [] == held;
    AllUsed(base, exponent, used, scale);
    r := Ok(result);
  }

  lemma NoProducts(result: nat, factor: nat)
    ensures Products(result, factor, 0) == []
  {}

  lemma AllUsed(base: nat, exponent: nat, used: nat, scale: nat)
    requires Progress(base, exponent, used, scale, 0)
    ensures used == exponent
  {}

  /** One round of the loop moves its products from what is to come to what is held. */
  lemma TraceStep(held: seq<nat>, result: nat, factor: nat, remaining: nat)
    requires remaining != 0
    ensures var next := if remaining % 2 == 1 then result * factor else result;
            var now := if remaining % 2 == 1 then held + [next] else held;
            held + Products(result, factor, remaining)
            == if remaining / 2 == 0 then now + Products(next, factor, 0)
               else (now + [factor * factor]) + Products(next, factor * factor, remaining / 2)
  {
    var next := if remaining % 2 == 1 then result * factor else result;
    var odd: seq<nat> := if remaining % 2 == 1 then [next] else [];
    var square, rest := factor * factor, Products(next, factor * factor, remaining / 2);
    NoProducts(next, factor);
    if remaining / 2 != 0 {
      assert Products(result, factor, remaining) == odd + ([square] + rest);
      assert held + (odd + ([square] + rest)) == (held + odd + [square]) + rest;
    } else {
      assert Products(result, factor, remaining) == odd + [];
    }
  }

  /** The exponent already multiplied in, plus what the remaining bits are worth. */
  predicate Progress(base: nat, exponent: nat, used: nat, scale: nat, remaining: nat) {
    && 0 < scale && PowerFits(base, exponent)
    && exponent == used + scale * remaining
  }

  lemma FirstPowers(base: nat, exponent: nat)
    ensures Pow(base, 0) == 1 && Pow(base, 1) == base
    ensures PowerFits(base, exponent) ==> Progress(base, exponent, 0, 1, exponent)
  {
    assert Pow(base, 1) == base * Pow(base, 0);
  }

  lemma HalvingStep(base: nat, exponent: nat, used: nat, scale: nat, remaining: nat)
    requires Progress(base, exponent, used, scale, remaining) && 0 < remaining
    ensures Pow(base, used + scale) == Pow(base, used) * Pow(base, scale)
    ensures Pow(base, 2 * scale) == Pow(base, scale) * Pow(base, scale)
    ensures BitLen(Pow(base, used + scale)) <= BitLen(base) * exponent
    ensures 2 <= remaining ==> BitLen(Pow(base, 2 * scale)) <= BitLen(base) * exponent
    ensures var used' := if remaining % 2 == 1 then used + scale else used;
            && (2 <= remaining ==> Progress(base, exponent, used', 2 * scale, remaining / 2))
            && (remaining == 1 ==> Progress(base, exponent, used', scale, 0))
  {
    var half := remaining / 2;
    assert scale * remaining == (2 * scale) * half + scale * (remaining % 2);
    MulMono(scale, scale, 1, remaining);
    PowAdd(base, used, scale);
    PowAdd(base, scale, scale);
    PowerStaysHeld(base, used + scale, exponent);
    if 2 <= remaining {
      MulMono(scale, scale, 2, remaining);
      PowerStaysHeld(base, 2 * scale, exponent);
    }
  }

  lemma PowerStaysHeld(base: nat, e: nat, exponent: nat)
    requires 0 < e <= exponent
    ensures BitLen(Pow(base, e)) <= BitLen(base) * exponent
  {
    BitLenPow(base, e);
    MulMono(BitLen(base), BitLen(base), e, exponent);
  }

  // ---- the aggregate

  function TotalWeight(terms: seq<Term>): nat {
    if terms == [] then 0 else TotalWeight(terms[..|terms| - 1]) + terms[|terms| - 1].weight
  }

  function Over(t: Term): nat { Scaled(t.ferric, t.vendor) }

  function Under(t: Term): nat { Scaled(t.vendor, t.ferric) }

  function Numerator(terms: seq<Term>): nat {
    if terms == [] then 1
    else Numerator(terms[..|terms| - 1]) * Pow(Over(terms[|terms| - 1]), terms[|terms| - 1].weight)
  }

  function Denominator(terms: seq<Term>): nat {
    if terms == [] then 1
    else Denominator(terms[..|terms| - 1]) * Pow(Under(terms[|terms| - 1]), terms[|terms| - 1].weight)
  }

  predicate TermFits(t: Term) {
    PowerFits(Over(t), t.weight) && PowerFits(Under(t), t.weight)
  }

  /** Every power and every running product stays within the bit budget. */
  predicate TermsFit(terms: seq<Term>) {
    terms == [] ||
    (&& TermsFit(terms[..|terms| - 1])
     && TermFits(terms[|terms| - 1])
     && BitLen(Numerator(terms)) <= MAX_EXACT_AGGREGATE_BITS
     && BitLen(Denominator(terms)) <= MAX_EXACT_AGGREGATE_BITS)
  }

  predicate Fits(terms: seq<Term>, minimumPpm: nat) {
    && TermsFit(terms)
    && PowerFits(PPM_SCALE, TotalWeight(terms))
    && PowerFits(minimumPpm, TotalWeight(terms))
  }

  /** The two sides of the gate comparison. */
  function Left(terms: seq<Term>): nat { Numerator(terms) * Pow(PPM_SCALE, TotalWeight(terms)) }

  function Right(terms: seq<Term>, m: nat): nat { Denominator(terms) * Pow(m, TotalWeight(terms)) }

  /** The gate as the code decides it, on integers. */
  predicate GateHolds(terms: seq<Term>, minimumPpm: nat) {
    Left(terms) >= Right(terms, minimumPpm)
  }

  /** What `weighted_aggregate` returns: nothing without an applicable vendor, a
      refusal when the weights overflow or the budget is exceeded, and otherwise
      the exact power of the weighted geometric mean with its gate. */
  function AggregateOf(terms: seq<Term>, minimumPpm: nat): Result<Option<Power>, Refusal> {
    if terms == [] then Ok(None)
    else if TotalWeight(terms) > U64_MAX then Err(WeightOverflow)
    else if !Fits(terms, minimumPpm) then Err(TooManyBits)
    else Ok(Some(Power(TotalWeight(terms), Numerator(terms), Denominator(terms), GateHolds(terms, minimumPpm))))
  }

  lemma {:induction false} TotalWeightPrefix(terms: seq<Term>, k: nat)
    requires k <= |terms|
    ensures TotalWeight(terms[..k]) <= TotalWeight(terms)
    decreases |terms|
  {
    if k < |terms| {
      TotalWeightPrefix(terms[..|terms| - 1], k);
      assert terms[..|terms| - 1][..k] == terms[..k];
    } else {
      assert terms[..k] == terms;
    }
  }

  lemma {:induction false} TermsFitPrefix(terms: seq<Term>, k: nat)
    requires k <= |terms| && TermsFit(terms)
    ensures TermsFit(terms[..k])
    decreases |terms|
  {
    if k < |terms| {
      TermsFitPrefix(terms[..|terms| - 1], k);
      assert terms[..|terms| - 1][..k] == terms[..k];
    } else {
      assert terms[..k] == terms;
    }
  }

  method SumWeights(terms: seq<Term>) returns (r: Result<u64, Refusal>)
    ensures r == if TotalWeight(terms) > U64_MAX then Err(WeightOverflow) else Ok(TotalWeight(terms))
  {
    var total := 0;
    for i := 0 to |terms|
      invariant total == TotalWeight(terms[..i]) <= U64_MAX
    {
      assert terms[..i + 1][..i] == terms[..i];
      TotalWeightPrefix(terms, i + 1);
      if total + terms[i].weight > U64_MAX {
        return Err(WeightOverflow);
      }
      total := total + terms[i].weight;
    }
    assert terms[..|terms|] == terms;
    r := Ok(total);
  }

  method TermPowers(t: Term) returns (r: Result<(nat, nat), Refusal>)
    ensures r == if TermFits(t) then Ok((Pow(Over(t), t.weight), Pow(Under(t), t.weight))) else Err(TooManyBits)
  {
    var over, _ := PowChecked(Over(t), t.weight);
    if over.Err? {
      return Err(over.error);
    }
    var under, _ := PowChecked(Under(t), t.weight);
    if under.Err? {
      return Err(under.error);
    }
    r := Ok((over.value, under.value));
  }

  /** The product loop: numerator and denominator, or a refusal. */
  method MultiplyTerms(terms: seq<Term>) returns (r: Result<(nat, nat), Refusal>)
    ensures r == if TermsFit(terms) then Ok((Numerator(terms), Denominator(terms))) else Err(TooManyBits)
  {
    var numerator: nat, denominator: nat := 1, 1;
    for i := 0 to |terms|
      invariant numerator == Numerator(terms[..i]) && denominator == Denominator(terms[..i])
      invariant TermsFit(terms[..i])
    {
      var t := terms[i];
      assert terms[..i + 1][..i] == terms[..i];
      if TermsFit(terms) { TermsFitPrefix(terms, i + 1); }
      var powers := TermPowers(t);
      if powers.Err? {
        return Err(powers.error);
      }
      numerator := numerator * powers.value.0;
      denominator := denominator * powers.value.1;
      if BitLen(numerator) > MAX_EXACT_AGGREGATE_BITS || BitLen(denominator) > MAX_EXACT_AGGREGATE_BITS {
        return Err(TooManyBits);
      }
    }
    assert terms[..|terms|] == terms;
    r := Ok((numerator, denominator));
  }

  method WeightedAggregate(terms: seq<Term>, minimumPpm: u64) returns (r: Result<Option<Power>, Refusal>)
    ensures r == AggregateOf(terms, minimumPpm)
  {
    hide Products, WithinChecked, Pow, BitLen, TermsFit, TotalWeight, Numerator, Denominator;
    if terms == [] {
      return Ok(None);
    }
    var total := SumWeights(terms);
    if total.Err? {
      return Err(total.error);
    }
    var products := MultiplyTerms(terms);
    if products.Err? {
      return Err(products.error);
    }
    var (numerator, denominator) := products.value;
    var scale, _ := PowChecked(PPM_SCALE, total.value);
    if scale.Err? {
      return Err(scale.error);
    }
    var floor, _ := PowChecked(minimumPpm, total.value);
    if floor.Err? {
      return Err(floor.error);
    }
    var left, right := numerator * scale.value, denominator * floor.value;
    r := Ok(Some(Power(total.value, numerator, denominator, left >= right)));
  }

  // ---- the 8192 weight cap is sufficient

  /** A term that passed case validation: positive medians of u64 rates, and a
      weight within the cap. */
  predicate ValidTerm(t: Term) {
    && ValidMedian(t.ferric) && ValidMedian(t.vendor)
    && t.weight <= MAX_EXACT_AGGREGATE_CASE_WEIGHT
  }

  predicate ValidMedian(r: Rational) {
    0 < r.numerator <= 2 * U64_MAX && 0 < r.denominator <= 2
  }

  const RATIO_BITS: nat := 66

  lemma RatioBits(p: Rational, q: Rational)
    requires ValidMedian(p) && ValidMedian(q)
    ensures 0 < Scaled(p, q) && BitLen(Scaled(p, q)) <= RATIO_BITS
  {
    MulMono(p.numerator, 2 * U64_MAX, q.denominator, 2);
    MulMono(1, p.numerator, 1, q.denominator);
    TwoToTheRatioBits();
    BitLenBound(Scaled(p, q), RATIO_BITS);
  }

  lemma PowerSplit(j: nat, k: nat, x: nat, y: nat)
    requires Pow(2, j) == x && Pow(2, k) == y
    ensures Pow(2, j + k) == x * y
  {
    PowAdd(2, j, k);
  }

  lemma TwoToTheRatioBits()
    ensures Pow(2, 20) == 0x10_0000 && Pow(2, 64) == U64_MAX + 1
    ensures 4 * U64_MAX < Pow(2, RATIO_BITS)
  {
    PowerSplit(4, 4, 16, 16);
    PowerSplit(8, 8, 256, 256);
    PowerSplit(16, 4, 0x1_0000, 16);
    PowerSplit(16, 16, 0x1_0000, 0x1_0000);
    PowerSplit(32, 32, 0x1_0000_0000, 0x1_0000_0000);
    PowerSplit(64, 2, U64_MAX + 1, 4);
  }

  /** A capped power of a median ratio fits, and has a bounded number of bits. */
  lemma CappedPower(base: nat, weight: nat)
    requires BitLen(base) <= RATIO_BITS && weight <= MAX_EXACT_AGGREGATE_CASE_WEIGHT
    ensures PowerFits(base, weight)
    ensures BitLen(Pow(base, weight)) <= RATIO_BITS * weight + 1
  {
    MulMono(BitLen(base), RATIO_BITS, weight, weight);
    BitLenPow(base, weight);
  }

  lemma {:induction false} ValidTermsFit(terms: seq<Term>)
    requires |terms| <= CASE_COUNT && forall i :: 0 <= i < |terms| ==> ValidTerm(terms[i])
    ensures TermsFit(terms)
    ensures TotalWeight(terms) <= MAX_EXACT_AGGREGATE_CASE_WEIGHT * |terms|
    ensures BitLen(Numerator(terms)) <= 1 + RATIO_BITS * TotalWeight(terms) + |terms|
    ensures BitLen(Denominator(terms)) <= 1 + RATIO_BITS * TotalWeight(terms) + |terms|
  {
    if terms == [] {
      assert BitLen(1) == 1;
    } else {
      var front, t := terms[..|terms| - 1], terms[|terms| - 1];
      ValidTermsFit(front);
      RatioBits(t.ferric, t.vendor);
      RatioBits(t.vendor, t.ferric);
      var bits := 1 + RATIO_BITS * TotalWeight(front) + |front|;
      CappedPower(Over(t), t.weight);
      CappedPower(Under(t), t.weight);
      ProductBits(Numerator(front), Pow(Over(t), t.weight), Numerator(terms), bits, RATIO_BITS * t.weight + 1);
      ProductBits(Denominator(front), Pow(Under(t), t.weight), Denominator(terms), bits, RATIO_BITS * t.weight + 1);
    }
  }

  /** For any validated cases and any u64 threshold the aggregate is computed:
      no weight overflow and no budget refusal is reachable. */
  lemma WeightCapIsSufficient(terms: seq<Term>, minimumPpm: u64)
    requires |terms| <= CASE_COUNT && forall i :: 0 <= i < |terms| ==> ValidTerm(terms[i])
    ensures AggregateOf(terms, minimumPpm).Ok?
  {
    ValidTermsFit(terms);
    ThresholdPowersFit(TotalWeight(terms), minimumPpm);
  }

  lemma ThresholdPowersFit(total: nat, minimumPpm: u64)
    requires total <= MAX_EXACT_AGGREGATE_CASE_WEIGHT * CASE_COUNT
    ensures PowerFits(PPM_SCALE, total) && PowerFits(minimumPpm, total)
  {
    TwoToTheRatioBits();
    BitLenBound(minimumPpm, 64);
    BitLenBound(PPM_SCALE, 20);
    MulMono(BitLen(PPM_SCALE), 20, total, total);
    MulMono(BitLen(minimumPpm), 64, total, total);
  }

  // ---- the integer gate is the gate on real ratios

  function RealPow(b: real, e: nat): real
    decreases e
  {
    if e == 0 then 1.0 else b * RealPow(b, e - 1)
  }

  /** The product of (ferric / vendor)^weight. */
  function GeometricProduct(terms: seq<Term>): real
    requires forall i :: 0 <= i < |terms| ==> Positive(terms[i].ferric) && Positive(terms[i].vendor)
  {
    if terms == [] then 1.0
    else
      var t := terms[|terms| - 1];
      GeometricProduct(terms[..|terms| - 1]) * RealPow(RealRatio(t), t.weight)
  }

  function RealRatio(t: Term): real
    requires Positive(t.ferric) && Positive(t.vendor)
  {
    (t.ferric.numerator as real / t.ferric.denominator as real)
    / (t.vendor.numerator as real / t.vendor.denominator as real)
  }

  lemma RealProduct(a: nat, b: nat)
    ensures (a * b) as real == a as real * b as real
  {
  }

  lemma CrossDivide(a: real, b: real, c: real, d: real)
    requires b != 0.0 && d != 0.0
    ensures b * d != 0.0 && (a / b) * (c / d) == (a * c) / (b * d)
  {
    var x, y := a / b, c / d;
    assert x * b == a && y * d == c;
    assert (x * y) * (b * d) == (x * b) * (y * d);
  }

  lemma QuotientTimes(a: nat, b: pos, c: nat, d: pos)
    ensures 0 < b * d
    ensures (a as real / b as real) * (c as real / d as real) == (a * c) as real / (b * d) as real
  {
    MulMono(1, b, 1, d);
    CrossDivide(a as real, b as real, c as real, d as real);
    RealProduct(a, c);
    RealProduct(b, d);
  }

  lemma {:induction false} RealPowOfQuotient(a: nat, b: pos, e: nat)
    ensures 0 < Pow(b, e)
    ensures RealPow(a as real / b as real, e) == Pow(a, e) as real / Pow(b, e) as real
  {
    if e != 0 {
      RealPowOfQuotient(a, b, e - 1);
      QuotientTimes(a, b, Pow(a, e - 1), Pow(b, e - 1));
    }
  }

  lemma TermRatio(t: Term)
    requires Positive(t.ferric) && Positive(t.vendor)
    ensures 0 < Over(t) && 0 < Under(t)
    ensures RealRatio(t) == Over(t) as real / Under(t) as real
  {
    MulMono(1, t.ferric.numerator, 1, t.vendor.denominator);
    MulMono(1, t.vendor.numerator, 1, t.ferric.denominator);
    var a, b := t.ferric.numerator as real, t.ferric.denominator as real;
    var c, d := t.vendor.numerator as real, t.vendor.denominator as real;
    RealProduct(t.ferric.numerator, t.vendor.denominator);
    RealProduct(t.vendor.numerator, t.ferric.denominator);
    QuotientOfQuotients(a, b, c, d);
  }

  lemma TermPower(t: Term) returns (x: pos, y: pos)
    requires Positive(t.ferric) && Positive(t.vendor)
    ensures x == Pow(Over(t), t.weight) && y == Pow(Under(t), t.weight)
    ensures RealPow(RealRatio(t), t.weight) == x as real / y as real
  {
    TermRatio(t);
    PowPositive(Over(t), t.weight);
    RealPowOfQuotient(Over(t), Under(t), t.weight);
    x, y := Pow(Over(t), t.weight), Pow(Under(t), t.weight);
  }

  lemma QuotientOfQuotients(a: real, b: real, c: real, d: real)
    requires 0.0 < a && 0.0 < b && 0.0 < c && 0.0 < d
    ensures c / d > 0.0 && c * b > 0.0 && (a / b) / (c / d) == (a * d) / (c * b)
  {
    var x, y := a / b, c / d;
    assert x * b == a && y * d == c;
    var z := x / y;
    assert z * y == x;
    assert z * (c * b) == z * ((y * d) * b) == (z * y) * (d * b) == (x * b) * d == a * d;
  }

  lemma {:induction false} ProductIsQuotient(terms: seq<Term>)
    requires forall i :: 0 <= i < |terms| ==> Positive(terms[i].ferric) && Positive(terms[i].vendor)
    ensures 0 < Denominator(terms) && 0 < Numerator(terms)
    ensures GeometricProduct(terms) == Numerator(terms) as real / Denominator(terms) as real
  {
    hide Positive, Pow, RealPow;
    if terms != [] {
      var front, t := terms[..|terms| - 1], terms[|terms| - 1];
      ProductIsQuotient(front);
      var x, y := TermPower(t);
      QuotientTimes(Numerator(front), Denominator(front), x, y);
      QuotientTimes(Denominator(front), Numerator(front), y, x);
    }
  }

  lemma CompareQuotients(a: nat, b: pos, c: nat, d: pos)
    ensures a as real / b as real >= c as real / d as real <==> a * d >= b * c
  {
    var x, y := a as real / b as real, c as real / d as real;
    var bd := b as real * d as real;
    assert x * b as real == a as real && y * d as real == c as real;
    assert (x - y) * bd == a as real * d as real - b as real * c as real;
    RealProduct(a, d);
    RealProduct(b, c);
    assert bd > 0.0;
    if x >= y { assert (x - y) * bd >= 0.0; }
    if x < y { assert (y - x) * bd > 0.0; }
  }

  /** The integer comparison decides whether the product of ratio^weight reaches
      (minimum / 10^6)^total, over the reals. */
  lemma GateIsExact(terms: seq<Term>, minimumPpm: nat)
    requires forall i :: 0 <= i < |terms| ==> Positive(terms[i].ferric) && Positive(terms[i].vendor)
    ensures GateHolds(terms, minimumPpm) <==>
            GeometricProduct(terms) >= RealPow(minimumPpm as real / PPM_SCALE as real, TotalWeight(terms))
  {
    var total := TotalWeight(terms);
    ProductIsQuotient(terms);
    RealPowOfQuotient(minimumPpm, PPM_SCALE, total);
    CompareQuotients(Numerator(terms), Denominator(terms), Pow(minimumPpm, total), Pow(PPM_SCALE, total));
  }

  // ---- relation to the per-case gates

  predicate AllAtLeast(terms: seq<Term>, m: nat) {
    forall i :: 0 <= i < |terms| ==> RatioGate(terms[i].ferric, terms[i].vendor, m)
  }

  predicate AllBelow(terms: seq<Term>, m: nat) {
    forall i :: 0 <= i < |terms| ==> !RatioGate(terms[i].ferric, terms[i].vendor, m)
  }

  /** All cases at or above `m` put the aggregate at or above `m`. */
  lemma {:induction false} AllPassForcesPass(terms: seq<Term>, m: nat)
    requires AllAtLeast(terms, m)
    ensures GateHolds(terms, m)
  {
    if terms != [] {
      var front, t := terms[..|terms| - 1], terms[|terms| - 1];
      assert terms == front + [t];
      AllPassForcesPass(front, m);
      SplitLast(front, t, m);
      PowMono(Under(t) * m, Over(t) * PPM_SCALE, t.weight);
      MulMono(Right(front, m), Left(front), Pow(Under(t) * m, t.weight), Pow(Over(t) * PPM_SCALE, t.weight));
    }
  }

  /** All cases below `m`, with some weight among them, put it below. */
  lemma {:induction false} AllFailForcesFail(terms: seq<Term>, m: nat)
    requires AllBelow(terms, m)
    ensures Left(terms) <= Right(terms, m) && 0 < Right(terms, m)
    ensures 0 < TotalWeight(terms) ==> !GateHolds(terms, m)
  {
    if terms != [] {
      var front, t := terms[..|terms| - 1], terms[|terms| - 1];
      assert terms == front + [t];
      AllFailForcesFail(front, m);
      SplitLast(front, t, m);
      BelowStep(Left(front), Right(front, m), Over(t) * PPM_SCALE, Under(t) * m, t.weight,
                0 < TotalWeight(front));
    }
  }

  lemma BelowStep(p: nat, q: nat, x: nat, y: nat, weight: nat, strict: bool)
    requires p <= q && 0 < q && x < y && (strict ==> p < q)
    ensures p * Pow(x, weight) <= q * Pow(y, weight) && 0 < q * Pow(y, weight)
    ensures strict || 0 < weight ==> p * Pow(x, weight) < q * Pow(y, weight)
  {
    PowMono(x, y, weight);
    PowPositive(y, weight);
    MulMono(p, q, Pow(x, weight), Pow(y, weight));
    MulMono(1, q, 1, Pow(y, weight));
    if 0 < weight {
      PowStrict(x, y, weight);
      MulStrict(Pow(x, weight), Pow(y, weight), p, q);
    } else if strict {
      MulStrict(p, q, Pow(x, weight), Pow(y, weight));
    }
  }

  /** Both sides of the gate comparison factor into a front part and the last case. */
  lemma SplitLast(front: seq<Term>, t: Term, m: nat)
    ensures var terms := front + [t];
            && Left(terms) == Left(front) * Pow(Over(t) * PPM_SCALE, t.weight)
            && Right(terms, m) == Right(front, m) * Pow(Under(t) * m, t.weight)
  {
    var terms := front + [t];
    assert terms[..|terms| - 1] == front;
    PowAdd(PPM_SCALE, TotalWeight(front), t.weight);
    PowAdd(m, TotalWeight(front), t.weight);
    PowOfProduct(Over(t), PPM_SCALE, t.weight);
    PowOfProduct(Under(t), m, t.weight);
    MulSwap(Numerator(front), Pow(Over(t), t.weight), Pow(PPM_SCALE, TotalWeight(front)), Pow(PPM_SCALE, t.weight));
    MulSwap(Denominator(front), Pow(Under(t), t.weight), Pow(m, TotalWeight(front)), Pow(m, t.weight));
  }

  // ---- monotonicity

  /** The same vendor medians and weights, with Ferric medians at least as high. */
  predicate Raises(terms: seq<Term>, terms': seq<Term>) {
    && |terms| == |terms'|
    && forall i :: 0 <= i < |terms| ==>
         && terms[i].vendor == terms'[i].vendor && terms[i].weight == terms'[i].weight
         && Positive(terms[i].ferric) && Positive(terms'[i].ferric) && Positive(terms[i].vendor)
         && AtMost(terms[i].ferric, terms'[i].ferric)
  }

  lemma {:induction false} RaisedProduct(terms: seq<Term>, terms': seq<Term>)
    requires Raises(terms, terms')
    ensures TotalWeight(terms) == TotalWeight(terms')
    ensures Numerator(terms) * Denominator(terms') <= Numerator(terms') * Denominator(terms)
  {
    if terms != [] {
      var n := |terms| - 1;
      var front, front', t, t' := terms[..n], terms'[..n], terms[n], terms'[n];
      RaisedProduct(front, front');
      RaisedTerm(t, t');
      CrossStep(Numerator(front), Denominator(front), Numerator(front'), Denominator(front'),
                Pow(Over(t), t.weight), Pow(Under(t), t.weight), Pow(Over(t'), t.weight), Pow(Under(t'), t.weight));
    }
  }

  lemma CrossStep(n: nat, d: nat, n': nat, d': nat, x: nat, y: nat, x': nat, y': nat)
    requires n * d' <= n' * d && x * y' <= x' * y
    ensures (n * x) * (d' * y') <= (n' * x') * (d * y)
  {
    MulMono(n * d', n' * d, x * y', x' * y);
    MulSwap(n, x, d', y');
    MulSwap(n', x', d, y);
  }

  lemma RaisedTerm(t: Term, t': Term)
    requires t.vendor == t'.vendor && t.weight == t'.weight && AtMost(t.ferric, t'.ferric)
    ensures Pow(Over(t), t.weight) * Pow(Under(t'), t.weight) <= Pow(Over(t'), t.weight) * Pow(Under(t), t.weight)
  {
    var f, f', v := t.ferric, t'.ferric, t.vendor;
    MulSwap(f.numerator, v.denominator, v.numerator, f'.denominator);
    MulSwap(f'.numerator, v.denominator, v.numerator, f.denominator);
    assert Over(t) * Under(t') == (v.denominator * v.numerator) * (f.numerator * f'.denominator);
    assert Over(t') * Under(t) == (v.denominator * v.numerator) * (f'.numerator * f.denominator);
    MulMono(v.denominator * v.numerator, v.denominator * v.numerator,
            f.numerator * f'.denominator, f'.numerator * f.denominator);
    PowMono(Over(t) * Under(t'), Over(t') * Under(t), t.weight);
    PowOfProduct(Over(t), Under(t'), t.weight);
    PowOfProduct(Over(t'), Under(t), t.weight);
  }

  /** Raising Ferric medians never turns a passing aggregate into a failing one. */
  lemma GateMonotone(terms: seq<Term>, terms': seq<Term>, m: nat)
    requires Raises(terms, terms') && GateHolds(terms, m)
    ensures GateHolds(terms', m)
  {
    RaisedProduct(terms, terms');
    ProductIsQuotient(terms);
    ComparisonMonotone(Numerator(terms), Denominator(terms), Numerator(terms'), Denominator(terms'),
                       Pow(PPM_SCALE, TotalWeight(terms)), Pow(m, TotalWeight(terms)));
  }

  lemma ComparisonMonotone(n: nat, d: nat, n': nat, d': nat, p: nat, q: nat)
    requires 0 < d && n * d' <= n' * d && n * p >= d * q
    ensures n' * p >= d' * q
  {
    MulMono(d * q, n * p, d', d');
    assert (d' * q) * d == (d * q) * d';
    assert (n * p) * d' == (n * d') * p;
    MulMono(n * d', n' * d, p, p);
    assert (n' * d) * p == (n' * p) * d;
    MulCancel(d' * q, n' * p, d);
  }
}
