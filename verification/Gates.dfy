/** The per-case gates of benches/m1/d10_observations.rs in parts per million. */
module Gates {
  import opened Numbers
  import opened Medians

  const PPM_SCALE: nat := 1_000_000

  predicate Positive(r: Rational) {
    0 < r.numerator && 0 < r.denominator
  }

  /** The numerator of `p / q` as one fraction; the denominator is `Scaled(q, p)`. */
  function Scaled(p: Rational, q: Rational): nat {
    p.numerator * q.denominator
  }

  predicate RatioGate(numerator: Rational, denominator: Rational, minimumPpm: nat) {
    Scaled(numerator, denominator) * PPM_SCALE >= Scaled(denominator, numerator) * minimumPpm
  }

  function RatioPpm(numerator: Rational, denominator: Rational): nat
    requires Positive(numerator) && Positive(denominator)
  {
    MulMono(1, denominator.numerator, 1, numerator.denominator);
    Scaled(numerator, denominator) * PPM_SCALE / Scaled(denominator, numerator)
  }

  function RegressionPpm(ferric: Rational, reference: Rational): nat
    requires Positive(ferric) && Positive(reference)
  {
    if RatioGate(ferric, reference, PPM_SCALE) then 0
    else
      MulMono(1, reference.numerator, 1, ferric.denominator);
      (Scaled(reference, ferric) - Scaled(ferric, reference)) * PPM_SCALE / Scaled(reference, ferric)
  }

  predicate RegressionGate(ferric: Rational, reference: Rational, maximumPpm: nat) {
    if maximumPpm >= PPM_SCALE then true
    else RatioGate(ferric, reference, PPM_SCALE - maximumPpm)
  }

  /** The printed ratio decides the vendor gate, both ways. */
  lemma RatioGateMatchesPpm(numerator: Rational, denominator: Rational, minimumPpm: nat)
    requires Positive(numerator) && Positive(denominator)
    ensures RatioGate(numerator, denominator, minimumPpm) <==> RatioPpm(numerator, denominator) >= minimumPpm
  {
    MulMono(1, denominator.numerator, 1, numerator.denominator);
    FloorAtLeast(Scaled(numerator, denominator) * PPM_SCALE, Scaled(denominator, numerator), minimumPpm);
  }

  /** The printed regression decides the regression gate except at equality,
      where the gate holds exactly when the division leaves no remainder. */
  lemma RegressionGateMatchesPpm(ferric: Rational, reference: Rational, maximumPpm: nat)
    requires Positive(ferric) && Positive(reference)
    ensures RegressionGate(ferric, reference, maximumPpm) ==> RegressionPpm(ferric, reference) <= maximumPpm
    ensures RegressionPpm(ferric, reference) < maximumPpm ==> RegressionGate(ferric, reference, maximumPpm)
    ensures RegressionPpm(ferric, reference) == maximumPpm && maximumPpm < PPM_SCALE ==>
              (RegressionGate(ferric, reference, maximumPpm) <==>
               Scaled(ferric, reference) >= Scaled(reference, ferric)
               || Scaled(reference, ferric) * maximumPpm
                  == (Scaled(reference, ferric) - Scaled(ferric, reference)) * PPM_SCALE)
  {
    var top, bottom := Scaled(ferric, reference), Scaled(reference, ferric);
    MulMono(1, reference.numerator, 1, ferric.denominator);
    if top < bottom {
      FloorAtLeast((bottom - top) * PPM_SCALE, bottom, RegressionPpm(ferric, reference));
      FloorAtLeast((bottom - top) * PPM_SCALE, bottom, maximumPpm);
      FloorAtLeast((bottom - top) * PPM_SCALE, bottom, maximumPpm + 1);
      FloorAtLeast((bottom - top) * PPM_SCALE, bottom, PPM_SCALE);
      assert (bottom - top) * PPM_SCALE == bottom * PPM_SCALE - top * PPM_SCALE;
      if maximumPpm < PPM_SCALE {
        assert bottom * (PPM_SCALE - maximumPpm) == bottom * PPM_SCALE - bottom * maximumPpm;
      }
      assert (maximumPpm + 1) * bottom == maximumPpm * bottom + bottom;
    } else if maximumPpm < PPM_SCALE {
      MulMono(PPM_SCALE - maximumPpm, PPM_SCALE, bottom, top);
    }
  }

  /** Equality at the printed precision is not enough: Ferric at 2, reference at
      3 prints 333333 and fails a maximum of 333333. */
  lemma RegressionGateFailsAtPrintedMaximum()
    ensures RegressionPpm(Rational(2, 1), Rational(3, 1)) == 333_333
    ensures !RegressionGate(Rational(2, 1), Rational(3, 1), 333_333)
  {
    assert Scaled(Rational(3, 1), Rational(2, 1)) == 3;
    assert Scaled(Rational(2, 1), Rational(3, 1)) == 2;
  }

  /** When Ferric is slower, the two printed numbers add up to the whole, less
      at most one lost to rounding. */
  lemma SlowerPpmSum(ferric: Rational, reference: Rational)
    requires Positive(ferric) && Positive(reference)
    requires Scaled(ferric, reference) < Scaled(reference, ferric)
    ensures RatioPpm(ferric, reference) + RegressionPpm(ferric, reference) in {PPM_SCALE - 1, PPM_SCALE}
  {
    var top, bottom := Scaled(ferric, reference), Scaled(reference, ferric);
    var x, y := top * PPM_SCALE, (bottom - top) * PPM_SCALE;
    var p, q := x / bottom, y / bottom;
    assert x + y == bottom * PPM_SCALE;
    assert p * bottom <= x < p * bottom + bottom;
    assert q * bottom <= y < q * bottom + bottom;
    assert (p + q) * bottom <= PPM_SCALE * bottom;
    MulCancel(p + q, PPM_SCALE, bottom);
    assert (p + q + 2) * bottom == p * bottom + q * bottom + 2 * bottom;
    if p + q + 2 <= PPM_SCALE {
      MulMono(p + q + 2, PPM_SCALE, bottom, bottom);
      assert false;
    }
  }

  /** A ratio gate that holds keeps holding when the numerator rises. */
  lemma RatioGateMonotone(p: Rational, p': Rational, q: Rational, minimumPpm: nat)
    requires Positive(p) && AtMost(p, p') && RatioGate(p, q, minimumPpm)
    ensures RatioGate(p', q, minimumPpm)
  {
    var a, a' := Scaled(p', q) * PPM_SCALE, Scaled(q, p') * minimumPpm;
    calc {
      a' * p.denominator;
      (Scaled(q, p) * minimumPpm) * p'.denominator;
      <= { MulMono(Scaled(q, p) * minimumPpm, Scaled(p, q) * PPM_SCALE, p'.denominator, p'.denominator); }
      (Scaled(p, q) * PPM_SCALE) * p'.denominator;
      (p.numerator * p'.denominator) * (q.denominator * PPM_SCALE);
      <= { MulMono(p.numerator * p'.denominator, p'.numerator * p.denominator,
                   q.denominator * PPM_SCALE, q.denominator * PPM_SCALE); }
      (p'.numerator * p.denominator) * (q.denominator * PPM_SCALE);
      a * p.denominator;
    }
    MulCancel(a', a, p.denominator);
  }

  lemma RegressionGateMonotone(p: Rational, p': Rational, q: Rational, maximumPpm: nat)
    requires Positive(p) && AtMost(p, p') && RegressionGate(p, q, maximumPpm)
    ensures RegressionGate(p', q, maximumPpm)
  {
    if maximumPpm < PPM_SCALE { RatioGateMonotone(p, p', q, PPM_SCALE - maximumPpm); }
  }
}
