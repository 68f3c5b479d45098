/** What a published D10 report says, over the input rows and the reals: rates, printed
    numbers, gates, aggregate and the overall verdict of benches/m1/d10_observations.rs. */
module Verdict {
  import opened Outcomes
  import opened Numbers
  import opened Medians
  import opened Gates
  import opened Aggregate
  import opened Observations

  // ---- rates

  /** The work units per second of a row, rounded down: a positive u64, of work that fits u128. */
  predicate IsRate(count: u64, s: Sample, rate: nat) {
    && 0 < s.elapsedNs && 0 < s.iterations && 0 < rate <= U64_MAX
    && var work := count * s.iterations * 1_000_000_000;
    && work <= U128_MAX && rate * s.elapsedNs <= work < (rate + 1) * s.elapsedNs
  }

  /** A row is accepted exactly when it has such a rate, and that is the rate taken. */
  lemma RateIsUnitsPerSecond(count: u64, s: Sample, rate: nat)
    ensures RateOf(count, s) == Ok(rate) <==> IsRate(count, s, rate)
  {
    if 0 < s.elapsedNs {
      var work := count * s.iterations * RATE_SCALE;
      FloorAtLeast(work, s.elapsedNs, rate);
      FloorAtLeast(work, s.elapsedNs, rate + 1);
    }
  }

  ghost predicate AllRated(count: u64, rows: seq<Sample>) {
    |rows| == 30 && forall i :: 0 <= i < 30 ==> HasRate(count, rows[i])
  }

  ghost predicate HasRate(count: u64, s: Sample) {
    exists rate: nat :: IsRate(count, s, rate)
  }

  lemma RatedIsMedian(count: u64, rows: seq<Sample>)
    ensures MedianFor(count, rows).Ok? <==> AllRated(count, rows)
  {
    hide RateOf, IsRate;
    RatesPointwise(count, rows);
    forall i | 0 <= i < |rows| ensures RateOf(count, rows[i]).Ok? <==> HasRate(count, rows[i]) {
      var r := RateOf(count, rows[i]);
      if r.Ok? { RateIsUnitsPerSecond(count, rows[i], r.value); }
      forall rate: nat | IsRate(count, rows[i], rate) ensures r.Ok? { RateIsUnitsPerSecond(count, rows[i], rate); }
    }
  }

  /** Exactly these inputs get a report: seven cases of weight at most 8192, each with
      thirty rated rows for the reference, for Ferric and for an applicable vendor. */
  lemma ReportsAreForRatedRosters(cases: seq<Case>, t: Thresholds)
    ensures ReportOf(cases, t).Ok? <==>
            && |cases| == 7
            && forall i :: 0 <= i < 7 ==>
                 && cases[i].weight <= 8192
                 && AllRated(cases[i].count, cases[i].reference) && AllRated(cases[i].count, cases[i].ferric)
                 && (cases[i].vendor.Some? ==> AllRated(cases[i].count, cases[i].vendor.value))
  {
    hide MedianFor, AllRated, ReportOf;
    ReportNeverRefusesAggregate(cases, t);
    forall i | 0 <= i < |cases|
      ensures CaseOf(cases[i], t).Ok? <==>
              && cases[i].weight <= 8192
              && AllRated(cases[i].count, cases[i].reference) && AllRated(cases[i].count, cases[i].ferric)
              && (cases[i].vendor.Some? ==> AllRated(cases[i].count, cases[i].vendor.value))
    {
      RatedIsMedian(cases[i].count, cases[i].reference);
      RatedIsMedian(cases[i].count, cases[i].ferric);
      if cases[i].vendor.Some? { RatedIsMedian(cases[i].count, cases[i].vendor.value); }
    }
  }

  // ---- gates and printed numbers over the reals

  function RealOf(r: Rational): real
    requires Positive(r)
  {
    r.numerator as real / r.denominator as real
  }

  lemma RealOfPositive(r: Rational)
    requires Positive(r)
    ensures RealOf(r) > 0.0
  {
    var x := RealOf(r);
    assert x * r.denominator as real == r.numerator as real;
  }

  function Share(ppm: nat): real {
    ppm as real / 1_000_000.0
  }

  /** The ratio gate compares the real ratio with the minimum. */
  lemma RatioGateIsReal(p: Rational, q: Rational, minimumPpm: nat)
    requires Positive(p) && Positive(q)
    ensures RealOf(q) > 0.0
    ensures RatioGate(p, q, minimumPpm) <==> RealOf(p) / RealOf(q) >= Share(minimumPpm)
  {
    RealOfPositive(q);
    var t := Term(p, q, 0);
    TermRatio(t);
    CompareQuotients(Over(t), Under(t), minimumPpm, PPM_SCALE);
  }

  /** How much slower than the reference, as a share of the reference. */
  function Slowdown(ferric: real, reference: real): real
    requires reference > 0.0
  {
    (reference - ferric) / reference
  }

  lemma SlowdownOfRatio(ferric: real, reference: real)
    requires reference > 0.0
    ensures Slowdown(ferric, reference) == 1.0 - ferric / reference
  {
    var x, y := ferric / reference, (reference - ferric) / reference;
    assert x * reference == ferric && y * reference == reference - ferric;
    NoRest(y - (1.0 - x), reference);
  }

  lemma NoRest(z: real, b: real)
    requires b > 0.0 && z * b == 0.0
    ensures z == 0.0
  {
    assert z > 0.0 ==> z * b > 0.0;
    assert z < 0.0 ==> z * b < 0.0;
  }

  /** The regression gate compares the real slowdown with the maximum. */
  lemma RegressionGateIsReal(ferric: Rational, reference: Rational, maximumPpm: nat)
    requires Positive(ferric) && Positive(reference)
    ensures RealOf(reference) > 0.0
    ensures RegressionGate(ferric, reference, maximumPpm) <==>
            Slowdown(RealOf(ferric), RealOf(reference)) <= Share(maximumPpm)
  {
    RealOfPositive(ferric);
    RealOfPositive(reference);
    SlowdownOfRatio(RealOf(ferric), RealOf(reference));
    if maximumPpm >= PPM_SCALE {
      var x := RealOf(ferric) / RealOf(reference);
      assert x * RealOf(reference) == RealOf(ferric);
      assert x > 0.0;
      assert Share(maximumPpm) >= 1.0;
    } else {
      RatioGateIsReal(ferric, reference, PPM_SCALE - maximumPpm);
      assert Share(PPM_SCALE - maximumPpm) == 1.0 - Share(maximumPpm);
    }
  }

  /** `n` parts per million is `x` rounded down. */
  predicate RoundedDown(n: nat, x: real) {
    Share(n) <= x < Share(n + 1)
  }

  lemma RatioPpmIsReal(p: Rational, q: Rational)
    requires Positive(p) && Positive(q)
    ensures RealOf(q) > 0.0 && RoundedDown(RatioPpm(p, q), RealOf(p) / RealOf(q))
  {
    var n := RatioPpm(p, q);
    RatioGateMatchesPpm(p, q, n);
    RatioGateMatchesPpm(p, q, n + 1);
    RatioGateIsReal(p, q, n);
    RatioGateIsReal(p, q, n + 1);
  }

  /** The printed regression is the slowdown rounded down, and zero when there is none. */
  lemma RegressionPpmIsReal(ferric: Rational, reference: Rational)
    requires Positive(ferric) && Positive(reference)
    ensures RealOf(reference) > 0.0
    ensures var slower := Slowdown(RealOf(ferric), RealOf(reference));
            if slower <= 0.0 then RegressionPpm(ferric, reference) == 0
            else RoundedDown(RegressionPpm(ferric, reference), slower)
  {
    RatioGateIsReal(ferric, reference, PPM_SCALE);
    SlowdownOfRatio(RealOf(ferric), RealOf(reference));
    var top, bottom, n := Scaled(ferric, reference), Scaled(reference, ferric), RegressionPpm(ferric, reference);
    MulMono(1, reference.numerator, 1, ferric.denominator);
    if !RatioGate(ferric, reference, PPM_SCALE) {
      var lost := (bottom - top) * PPM_SCALE;
      FloorAtLeast(lost, bottom, n);
      FloorAtLeast(lost, bottom, n + 1);
      var t := Term(ferric, reference, 0);
      TermRatio(t);
      var slower := Slowdown(RealOf(ferric), RealOf(reference));
      assert slower == 1.0 - top as real / bottom as real;
      LostShare(top, bottom, n, slower);
    }
  }

  lemma LostShare(top: nat, bottom: pos, n: nat, slower: real)
    requires top <= bottom && slower == 1.0 - top as real / bottom as real
    requires n * bottom <= (bottom - top) * PPM_SCALE < (n + 1) * bottom
    ensures RoundedDown(n, slower)
  {
    var b, x := bottom as real, top as real / bottom as real;
    assert x * b == top as real;
    RealProduct(n, bottom);
    RealProduct(n + 1, bottom);
    RealProduct(bottom - top, PPM_SCALE);
    Distribute(x, b, n as real);
    Distribute(x, b, (n + 1) as real);
    Sign((1.0 - x) * 1_000_000.0 - n as real, b);
    Sign((1.0 - x) * 1_000_000.0 - (n + 1) as real, b);
  }

  lemma Distribute(x: real, b: real, n: real)
    ensures ((1.0 - x) * 1_000_000.0 - n) * b == (b - x * b) * 1_000_000.0 - n * b
  {}

  lemma Sign(x: real, b: real)
    requires b > 0.0
    ensures x * b >= 0.0 <==> x >= 0.0
  {
    if x >= 0.0 { assert x * b >= 0.0; } else { assert x * b < 0.0; }
  }

  // ---- the report over the input cases

  /** The median rate of accepted rows, as a real number. */
  function Speed(count: u64, rows: seq<Sample>): real
    requires MedianFor(count, rows).Ok?
  {
    MedianForIsValid(count, rows);
    RealOf(MedianFor(count, rows).value)
  }

  lemma SpeedIsPositive(count: u64, rows: seq<Sample>)
    requires MedianFor(count, rows).Ok?
    ensures Speed(count, rows) > 0.0
  {
    MedianForIsValid(count, rows);
    RealOfPositive(MedianFor(count, rows).value);
  }

  predicate Measurable(c: Case) {
    && MedianFor(c.count, c.reference).Ok? && MedianFor(c.count, c.ferric).Ok?
    && (c.vendor.Some? ==> MedianFor(c.count, c.vendor.value).Ok?)
  }

  /** Ferric loses at most the admitted share of the reference's speed, and reaches the
      admitted share of an applicable vendor's. */
  predicate CaseMeets(c: Case, t: Thresholds)
    requires Measurable(c)
  {
    SpeedIsPositive(c.count, c.reference);
    var ferric, reference := Speed(c.count, c.ferric), Speed(c.count, c.reference);
    && Slowdown(ferric, reference) <= Share(t.maximumRegressionPpm)
    && (c.vendor.Some? ==> VendorRatio(c) >= Share(t.minimumVendorPpm))
  }

  function VendorRatio(c: Case): real
    requires Measurable(c) && c.vendor.Some?
  {
    SpeedIsPositive(c.count, c.vendor.value);
    Speed(c.count, c.ferric) / Speed(c.count, c.vendor.value)
  }

  /** The product, over the cases with a vendor, of Ferric's speed over the vendor's,
      each to the power of its weight. */
  function VendorProduct(cases: seq<Case>): real
    requires forall i :: 0 <= i < |cases| ==> Measurable(cases[i])
  {
    if cases == [] then 1.0
    else
      var c := cases[|cases| - 1];
      VendorProduct(cases[..|cases| - 1]) * if c.vendor.None? then 1.0 else RealPow(VendorRatio(c), c.weight)
  }

  function VendorWeight(cases: seq<Case>): nat {
    if cases == [] then 0
    else VendorWeight(cases[..|cases| - 1]) + if cases[|cases| - 1].vendor.None? then 0 else cases[|cases| - 1].weight
  }

  predicate AnyVendor(cases: seq<Case>) {
    exists i :: 0 <= i < |cases| && cases[i].vendor.Some?
  }

  /** What one published metric says about its case. */
  predicate MetricTells(c: Case, t: Thresholds, m: Metric)
    requires Measurable(c)
  {
    SpeedIsPositive(c.count, c.reference);
    var slower := Slowdown(Speed(c.count, c.ferric), Speed(c.count, c.reference));
    && m.weight == c.weight
    && MedianFor(c.count, c.ferric) == Ok(m.ferric) && MedianFor(c.count, c.reference) == Ok(m.reference)
    && (m.regressionGate <==> slower <= Share(t.maximumRegressionPpm))
    && (if slower <= 0.0 then m.regressionPpm == 0 else RoundedDown(m.regressionPpm, slower))
    && m.vendor.Some? == c.vendor.Some? && m.vendorPpm.Some? == c.vendor.Some? && m.vendorGate.Some? == c.vendor.Some?
    && (c.vendor.Some? ==>
          && MedianFor(c.count, c.vendor.value) == Ok(m.vendor.value)
          && RoundedDown(m.vendorPpm.value, VendorRatio(c))
          && (m.vendorGate.value <==> VendorRatio(c) >= Share(t.minimumVendorPpm)))
  }

  lemma CaseTells(c: Case, t: Thresholds)
    requires CaseOf(c, t).Ok?
    ensures Measurable(c) && MetricTells(c, t, CaseOf(c, t).value)
    ensures CasePasses(CaseOf(c, t).value) <==> CaseMeets(c, t)
  {
    hide MedianFor, RatioGate, RegressionGate, RatioPpm, RegressionPpm, Slowdown, Share;
    var m := CaseOf(c, t).value;
    MedianForIsValid(c.count, c.ferric);
    MedianForIsValid(c.count, c.reference);
    RegressionGateIsReal(m.ferric, m.reference, t.maximumRegressionPpm);
    RegressionPpmIsReal(m.ferric, m.reference);
    if c.vendor.Some? {
      MedianForIsValid(c.count, c.vendor.value);
      RatioGateIsReal(m.ferric, m.vendor.value, t.minimumVendorPpm);
      RatioPpmIsReal(m.ferric, m.vendor.value);
    }
  }

  /** The aggregate's terms are the cases with a vendor, with their own weights. */
  lemma {:induction false} TermsAreVendors(cases: seq<Case>, metrics: seq<Metric>, t: Thresholds)
    requires |metrics| == |cases|
    requires forall i :: 0 <= i < |cases| ==> CaseOf(cases[i], t) == Ok(metrics[i])
    ensures forall i :: 0 <= i < |cases| ==> Measurable(cases[i])
    ensures var terms := Applicable(metrics);
            && (terms == [] <==> !AnyVendor(cases))
            && TotalWeight(terms) == VendorWeight(cases)
            && (forall i :: 0 <= i < |terms| ==> Positive(terms[i].ferric) && Positive(terms[i].vendor))
            && GeometricProduct(terms) == VendorProduct(cases)
  {
    hide CaseOf, Measurable, RealPow, Positive, VendorRatio, RealRatio, AnyVendor;
    forall i | 0 <= i < |cases| ensures Measurable(cases[i]) { CaseTells(cases[i], t); }
    if cases == [] {
      NoCaseNoVendor();
    } else {
      var n := |cases| - 1;
      var c, m, terms := cases[n], metrics[n], Applicable(metrics[..n]);
      TermsAreVendors(cases[..n], metrics[..n], t);
      VendorTerm(c, t, m);
      AnyVendorSplits(cases);
      if c.vendor.Some? {
        var term := Term(m.ferric, m.vendor.value, m.weight);
        assert Applicable(metrics) == terms + [term];
        assert (terms + [term])[..|terms|] == terms;
      } else {
        assert Applicable(metrics) == terms + [] == terms;
      }
    }
  }

  lemma NoCaseNoVendor()
    ensures !AnyVendor([])
  {}

  lemma VendorTerm(c: Case, t: Thresholds, m: Metric)
    requires CaseOf(c, t) == Ok(m)
    ensures Measurable(c) && m.weight == c.weight && m.vendor.Some? == c.vendor.Some?
    ensures c.vendor.Some? ==>
              && Positive(m.ferric) && Positive(m.vendor.value)
              && RealRatio(Term(m.ferric, m.vendor.value, m.weight)) == VendorRatio(c)
  {
    hide MedianFor, CaseOf;
    CaseTells(c, t);
    MedianForIsValid(c.count, c.ferric);
    if c.vendor.Some? { MedianForIsValid(c.count, c.vendor.value); }
  }

  lemma AnyVendorSplits(cases: seq<Case>)
    requires cases != []
    ensures AnyVendor(cases) <==> AnyVendor(cases[..|cases| - 1]) || cases[|cases| - 1].vendor.Some?
  {
    var front := cases[..|cases| - 1];
    assert forall i :: 0 <= i < |front| ==> front[i] == cases[i];
    if AnyVendor(front) {
      var i :| 0 <= i < |front| && front[i].vendor.Some?;
      assert cases[i].vendor.Some?;
    }
  }

  /** The published verdict is true: it says yes exactly when every case keeps its
      regression bound and its vendor bound, and the weighted product over the cases with
      a vendor reaches its bound, all over the input rows. */
  lemma VerdictIsTrue(cases: seq<Case>, t: Thresholds)
    requires ReportOf(cases, t).Ok?
    ensures forall i :: 0 <= i < |cases| ==> Measurable(cases[i])
    ensures ReportOf(cases, t).value.allGatesPass <==>
            && (forall i :: 0 <= i < |cases| ==> CaseMeets(cases[i], t))
            && (AnyVendor(cases) ==>
                  VendorProduct(cases) >= RealPow(Share(t.minimumWeightedPpm), VendorWeight(cases)))
  {
    hide CaseOf, Measurable, RealPow, CaseMeets, GateHolds, VendorProduct, Positive, AnyVendor, CasePasses, MetricsOf,
         Applicable, VendorWeight, TotalWeight, GeometricProduct;
    MetricsPointwise(cases, t);
    var metrics := MetricsOf(cases, t).value;
    TermsAreVendors(cases, metrics, t);
    GateIsExact(Applicable(metrics), t.minimumWeightedPpm);
    forall i | 0 <= i < |cases| ensures CasePasses(metrics[i]) <==> CaseMeets(cases[i], t) { CaseTells(cases[i], t); }
  }

  /** So is everything else it prints: each metric is about its own case, and the
      aggregate is the weighted product as one fraction, with the total weight. */
  lemma ReportIsTrue(cases: seq<Case>, t: Thresholds)
    requires ReportOf(cases, t).Ok?
    ensures forall i :: 0 <= i < |cases| ==> Measurable(cases[i])
    ensures var r := ReportOf(cases, t).value;
            && |r.metrics| == |cases| && (forall i :: 0 <= i < |cases| ==> MetricTells(cases[i], t, r.metrics[i]))
            && (r.aggregate.Some? <==> AnyVendor(cases))
            && (r.aggregate.Some? ==>
                  var a := r.aggregate.value;
                  && a.degree == VendorWeight(cases) && 0 < a.denominator
                  && a.numerator as real / a.denominator as real == VendorProduct(cases)
                  && (a.gate <==> VendorProduct(cases) >= RealPow(Share(t.minimumWeightedPpm), VendorWeight(cases))))
  {
    hide CaseOf, Measurable, RealPow, MetricTells, GateHolds, VendorProduct, Numerator, Denominator, Positive, AnyVendor,
         MetricsOf, Applicable, VendorWeight, TotalWeight, GeometricProduct;
    MetricsPointwise(cases, t);
    var metrics := MetricsOf(cases, t).value;
    TermsAreVendors(cases, metrics, t);
    GateIsExact(Applicable(metrics), t.minimumWeightedPpm);
    ProductIsQuotient(Applicable(metrics));
    forall i | 0 <= i < |cases| ensures MetricTells(cases[i], t, metrics[i]) { CaseTells(cases[i], t); }
  }
}
