/** The arithmetic path of benches/m1/d10_observations.rs from raw timing rows to
    the published gates: floor rates, medians, per-case gates, aggregate. */
module Observations {
  import opened Outcomes
  import opened Numbers
  import opened Medians
  import opened Gates
  import opened Aggregate

  const RECORDED: nat := 30
  const RATE_SCALE: nat := 1_000_000_000

  datatype Sample = Sample(elapsedNs: u64, iterations: u64)

  /** One case: its policy weight and work-unit count, and the recorded samples
      of the reference, of Ferric and, where applicable, of the vendor. */
  datatype Case = Case(weight: u64, count: u64, reference: seq<Sample>, ferric: seq<Sample>,
                       vendor: Option<seq<Sample>>)

  datatype Thresholds = Thresholds(maximumRegressionPpm: u64, minimumVendorPpm: u64, minimumWeightedPpm: u64)

  datatype Fault =
    | RosterDrifted | WeightAboveCap | WrongSampleCount
    | NotPositive | NumeratorOverflow | RateAboveU64 | RateZero
    | AggregateRefused(refusal: Refusal)

  datatype Metric = Metric(weight: u64, ferric: Rational, reference: Rational, regressionPpm: nat, regressionGate: bool,
                           vendor: Option<Rational>, vendorPpm: Option<nat>, vendorGate: Option<bool>)

  datatype Report = Report(metrics: seq<Metric>, aggregate: Option<Power>, allGatesPass: bool)

  // ---- rates

  function RateOf(count: u64, s: Sample): Result<nat, Fault> {
    if s.elapsedNs == 0 || s.iterations == 0 then Err(NotPositive)
    else
      var numerator := count * s.iterations * RATE_SCALE;
      if numerator > U128_MAX then Err(NumeratorOverflow)
      else if numerator / s.elapsedNs > U64_MAX then Err(RateAboveU64)
      else if numerator / s.elapsedNs == 0 then Err(RateZero)
      else Ok(numerator / s.elapsedNs)
  }

  /** All rates in order, or the first fault. */
  function RatesOf(count: u64, samples: seq<Sample>): Result<seq<nat>, Fault> {
    if samples == [] then Ok([])
    else
      var front := RatesOf(count, samples[..|samples| - 1]);
      if front.Err? then front
      else
        var last := RateOf(count, samples[|samples| - 1]);
        if last.Err? then Err(last.error) else Ok(front.value + [last.value])
  }

  lemma {:induction false} FirstFaultStays(count: u64, samples: seq<Sample>, k: nat)
    requires k <= |samples| && RatesOf(count, samples[..k]).Err?
    ensures RatesOf(count, samples) == RatesOf(count, samples[..k])
    decreases |samples|
  {
    if k < |samples| {
      assert samples[..|samples| - 1][..k] == samples[..k];
      FirstFaultStays(count, samples[..|samples| - 1], k);
    } else {
      assert samples[..k] == samples;
    }
  }

  method CollectRates(count: u64, samples: seq<Sample>) returns (r: Result<seq<nat>, Fault>)
    ensures r == RatesOf(count, samples)
  {
    var rates := [];
    for i := 0 to |samples|
      invariant RatesOf(count, samples[..i]) == Ok(rates)
    {
      assert samples[..i + 1][..i] == samples[..i];
      var s := samples[i];
      if RatesOf(count, samples[..i + 1]).Err? { FirstFaultStays(count, samples, i + 1); }
      if s.elapsedNs == 0 || s.iterations == 0 {
        return Err(NotPositive);
      }
      var numerator := count * s.iterations * RATE_SCALE;
      if numerator > U128_MAX {
        return Err(NumeratorOverflow);
      }
      var rate := numerator / s.elapsedNs;
      if rate > U64_MAX {
        return Err(RateAboveU64);
      }
      if rate == 0 {
        return Err(RateZero);
      }
      rates := rates + [rate];
    }
    assert samples[..|samples|] == samples;
    r := Ok(rates);
  }

  lemma {:induction false} RatesPointwise(count: u64, samples: seq<Sample>)
    ensures RatesOf(count, samples).Ok? <==> forall i :: 0 <= i < |samples| ==> RateOf(count, samples[i]).Ok?
    ensures RatesOf(count, samples).Ok? ==>
              && |RatesOf(count, samples).value| == |samples|
              && forall i :: 0 <= i < |samples| ==> RateOf(count, samples[i]) == Ok(RatesOf(count, samples).value[i])
  {
    if samples != [] {
      var front := samples[..|samples| - 1];
      RatesPointwise(count, front);
      assert forall i :: 0 <= i < |front| ==> front[i] == samples[i];
    }
  }

  function MedianFor(count: u64, samples: seq<Sample>): Result<Rational, Fault> {
    if |samples| != RECORDED then Err(WrongSampleCount)
    else
      var rates := RatesOf(count, samples);
      if rates.Err? then Err(rates.error)
      else RatesPointwise(count, samples); Ok(MedianOf(rates.value))
  }

  method ComputeMedian(count: u64, samples: seq<Sample>) returns (r: Result<Rational, Fault>)
    ensures r == MedianFor(count, samples)
  {
    if |samples| != RECORDED {
      return Err(WrongSampleCount);
    }
    var rates := CollectRates(count, samples);
    if rates.Err? {
      return Err(rates.error);
    }
    RatesPointwise(count, samples);
    var values := new nat[|rates.value|](i requires 0 <= i < |rates.value| => rates.value[i]);
    assert values[..] == rates.value;
    var m := MedianInPlace(values);
    r := Ok(m);
  }

  /** An accepted median is a positive fraction small enough for the weight cap. */
  lemma MedianForIsValid(count: u64, samples: seq<Sample>)
    requires MedianFor(count, samples).Ok?
    ensures ValidMedian(MedianFor(count, samples).value) && Positive(MedianFor(count, samples).value)
  {
    RatesPointwise(count, samples);
    var rates := RatesOf(count, samples).value;
    forall x | x in rates ensures 0 < x <= U64_MAX {
      var i :| 0 <= i < |rates| && rates[i] == x;
      assert RateOf(count, samples[i]) == Ok(x);
    }
    MedianBounds(rates, U64_MAX);
  }

  // ---- cases

  function CaseOf(c: Case, t: Thresholds): Result<Metric, Fault> {
    if c.weight > MAX_EXACT_AGGREGATE_CASE_WEIGHT then Err(WeightAboveCap)
    else
      var reference := MedianFor(c.count, c.reference);
      if reference.Err? then Err(reference.error) else
      var ferric := MedianFor(c.count, c.ferric);
      if ferric.Err? then Err(ferric.error) else
      MedianForIsValid(c.count, c.reference);
      MedianForIsValid(c.count, c.ferric);
      var regression := RegressionPpm(ferric.value, reference.value);
      var gate := RegressionGate(ferric.value, reference.value, t.maximumRegressionPpm);
      if c.vendor.None? then
        Ok(Metric(c.weight, ferric.value, reference.value, regression, gate, None, None, None))
      else
        var vendor := MedianFor(c.count, c.vendor.value);
        if vendor.Err? then Err(vendor.error) else
        MedianForIsValid(c.count, c.vendor.value);
        Ok(Metric(c.weight, ferric.value, reference.value, regression, gate, Some(vendor.value),
                  Some(RatioPpm(ferric.value, vendor.value)),
                  Some(RatioGate(ferric.value, vendor.value, t.minimumVendorPpm))))
  }

  method ValidateCase(c: Case, t: Thresholds) returns (r: Result<Metric, Fault>)
    ensures r == CaseOf(c, t)
  {
    if c.weight > MAX_EXACT_AGGREGATE_CASE_WEIGHT {
      return Err(WeightAboveCap);
    }
    var reference := ComputeMedian(c.count, c.reference);
    if reference.Err? {
      return Err(reference.error);
    }
    var ferric := ComputeMedian(c.count, c.ferric);
    if ferric.Err? {
      return Err(ferric.error);
    }
    MedianForIsValid(c.count, c.reference);
    MedianForIsValid(c.count, c.ferric);
    var vendor: Option<Rational> := None;
    if c.vendor.Some? {
      var m := ComputeMedian(c.count, c.vendor.value);
      if m.Err? {
        return Err(m.error);
      }
      MedianForIsValid(c.count, c.vendor.value);
      vendor := Some(m.value);
    }
    var regression := RegressionPpm(ferric.value, reference.value);
    var gate := RegressionGate(ferric.value, reference.value, t.maximumRegressionPpm);
    var vendorPpm: Option<nat>, vendorGate: Option<bool> := None, None;
    if vendor.Some? {
      vendorPpm := Some(RatioPpm(ferric.value, vendor.value));
      vendorGate := Some(RatioGate(ferric.value, vendor.value, t.minimumVendorPpm));
    }
    r := Ok(Metric(c.weight, ferric.value, reference.value, regression, gate, vendor, vendorPpm, vendorGate));
  }

  function MetricsOf(cases: seq<Case>, t: Thresholds): Result<seq<Metric>, Fault> {
    if cases == [] then Ok([])
    else
      var front := MetricsOf(cases[..|cases| - 1], t);
      if front.Err? then front
      else
        var last := CaseOf(cases[|cases| - 1], t);
        if last.Err? then Err(last.error) else Ok(front.value + [last.value])
  }

  lemma {:induction false} MetricsPointwise(cases: seq<Case>, t: Thresholds)
    ensures MetricsOf(cases, t).Ok? <==> forall i :: 0 <= i < |cases| ==> CaseOf(cases[i], t).Ok?
    ensures MetricsOf(cases, t).Ok? ==>
              && |MetricsOf(cases, t).value| == |cases|
              && forall i :: 0 <= i < |cases| ==> CaseOf(cases[i], t) == Ok(MetricsOf(cases, t).value[i])
  {
    hide CaseOf;
    if cases != [] {
      var n := |cases| - 1;
      var front, last := cases[..n], CaseOf(cases[n], t);
      MetricsPointwise(front, t);
      if MetricsOf(front, t).Err? {
        var i :| 0 <= i < n && CaseOf(front[i], t).Err?;
        assert front[i] == cases[i];
      } else if last.Ok? {
        forall i | 0 <= i < |cases|
          ensures CaseOf(cases[i], t) == Ok(MetricsOf(cases, t).value[i])
        {
          if i < n { assert front[i] == cases[i]; }
        }
      }
    }
  }

  lemma {:induction false} FirstCaseFaultStays(cases: seq<Case>, t: Thresholds, k: nat)
    requires k <= |cases| && MetricsOf(cases[..k], t).Err?
    ensures MetricsOf(cases, t) == MetricsOf(cases[..k], t)
    decreases |cases|
  {
    if k < |cases| {
      assert cases[..|cases| - 1][..k] == cases[..k];
      FirstCaseFaultStays(cases[..|cases| - 1], t, k);
    } else {
      assert cases[..k] == cases;
    }
  }

  // ---- the report

  /** The cases with an applicable vendor, in order. */
  function Applicable(metrics: seq<Metric>): seq<Term> {
    if metrics == [] then []
    else
      var m := metrics[|metrics| - 1];
      Applicable(metrics[..|metrics| - 1])
      + (if m.vendor.Some? then [Term(m.ferric, m.vendor.value, m.weight)] else [])
  }

  predicate CasePasses(m: Metric) {
    m.regressionGate && (m.vendorGate.None? || m.vendorGate.value)
  }

  predicate AllPass(metrics: seq<Metric>, aggregate: Option<Power>) {
    && (forall i :: 0 <= i < |metrics| ==> CasePasses(metrics[i]))
    && (aggregate.None? || aggregate.value.gate)
  }

  function ReportOf(cases: seq<Case>, t: Thresholds): Result<Report, Fault> {
    if |cases| != CASE_COUNT then Err(RosterDrifted)
    else
      var metrics := MetricsOf(cases, t);
      if metrics.Err? then Err(metrics.error) else
      var aggregate := AggregateOf(Applicable(metrics.value), t.minimumWeightedPpm);
      if aggregate.Err? then Err(AggregateRefused(aggregate.error))
      else Ok(Report(metrics.value, aggregate.value, AllPass(metrics.value, aggregate.value)))
  }

  method ValidateObservations(cases: seq<Case>, t: Thresholds) returns (r: Result<Report, Fault>)
    ensures r == ReportOf(cases, t)
  {
    if |cases| != CASE_COUNT {
      return Err(RosterDrifted);
    }
    var metrics := [];
    for i := 0 to |cases|
      invariant MetricsOf(cases[..i], t) == Ok(metrics)
    {
      assert cases[..i + 1][..i] == cases[..i];
      if MetricsOf(cases[..i + 1], t).Err? { FirstCaseFaultStays(cases, t, i + 1); }
      var m := ValidateCase(cases[i], t);
      if m.Err? {
        return Err(m.error);
      }
      metrics := metrics + [m.value];
    }
    assert cases[..|cases|] == cases;
    var aggregate := WeightedAggregate(Applicable(metrics), t.minimumWeightedPpm);
    if aggregate.Err? {
      return Err(AggregateRefused(aggregate.error));
    }
    r := Ok(Report(metrics, aggregate.value, AllPass(metrics, aggregate.value)));
  }

  // ---- the aggregate never refuses validated cases

  lemma CaseIsValid(c: Case, t: Thresholds)
    requires CaseOf(c, t).Ok?
    ensures var m := CaseOf(c, t).value;
            && ValidMedian(m.ferric) && m.weight <= MAX_EXACT_AGGREGATE_CASE_WEIGHT
            && (m.vendor.Some? ==> ValidMedian(m.vendor.value))
  {
    MedianForIsValid(c.count, c.ferric);
    if c.vendor.Some? { MedianForIsValid(c.count, c.vendor.value); }
  }

  predicate ValidMetric(m: Metric) {
    && ValidMedian(m.ferric) && m.weight <= MAX_EXACT_AGGREGATE_CASE_WEIGHT
    && (m.vendor.Some? ==> ValidMedian(m.vendor.value))
  }

  lemma {:induction false} ApplicableTermsAreValid(metrics: seq<Metric>)
    requires forall i :: 0 <= i < |metrics| ==> ValidMetric(metrics[i])
    ensures |Applicable(metrics)| <= |metrics|
    ensures forall i :: 0 <= i < |Applicable(metrics)| ==> ValidTerm(Applicable(metrics)[i])
  {
    if metrics != [] { ApplicableTermsAreValid(metrics[..|metrics| - 1]); }
  }

  /** Whatever the rows and thresholds, a roster whose cases pass validation gets
      its aggregate: the only faults are roster and case faults. */
  lemma ReportNeverRefusesAggregate(cases: seq<Case>, t: Thresholds)
    ensures ReportOf(cases, t).Ok? <==>
            |cases| == CASE_COUNT && forall i :: 0 <= i < |cases| ==> CaseOf(cases[i], t).Ok?
    ensures ReportOf(cases, t).Err? ==> !ReportOf(cases, t).error.AggregateRefused?
  {
    MetricsPointwise(cases, t);
    if |cases| == CASE_COUNT && MetricsOf(cases, t).Ok? {
      var metrics := MetricsOf(cases, t).value;
      forall i | 0 <= i < |metrics| ensures ValidMetric(metrics[i]) { CaseIsValid(cases[i], t); }
      ApplicableTermsAreValid(metrics);
      WeightCapIsSufficient(Applicable(metrics), t.minimumWeightedPpm);
    } else if |cases| == CASE_COUNT {
      CaseFaultsAreNotRefusals(cases, t);
    }
  }

  lemma {:induction false} CaseFaultsAreNotRefusals(cases: seq<Case>, t: Thresholds)
    requires MetricsOf(cases, t).Err?
    ensures !MetricsOf(cases, t).error.AggregateRefused?
  {
    var front, last := cases[..|cases| - 1], cases[|cases| - 1];
    if MetricsOf(front, t).Err? {
      CaseFaultsAreNotRefusals(front, t);
    } else {
      RateFaultsAreNotRefusals(last.count, last.reference);
      RateFaultsAreNotRefusals(last.count, last.ferric);
      if last.vendor.Some? { RateFaultsAreNotRefusals(last.count, last.vendor.value); }
    }
  }

  lemma {:induction false} RateFaultsAreNotRefusals(count: u64, samples: seq<Sample>)
    ensures RatesOf(count, samples).Err? ==> !RatesOf(count, samples).error.AggregateRefused?
  {
    if samples != [] { RateFaultsAreNotRefusals(count, samples[..|samples| - 1]); }
  }

  // ---- faster Ferric rows never hurt

  /** The same row with the elapsed time kept or lowered. */
  predicate Faster(s: Sample, s': Sample) {
    s'.elapsedNs <= s.elapsedNs && s'.iterations == s.iterations
  }

  predicate FasterRows(rows: seq<Sample>, rows': seq<Sample>) {
    |rows| == |rows'| && forall i :: 0 <= i < |rows| ==> Faster(rows[i], rows'[i])
  }

  /** `c'` is `c` with some Ferric elapsed times lowered and nothing else changed. */
  predicate FasterFerric(c: Case, c': Case) {
    c' == c.(ferric := c'.ferric) && FasterRows(c.ferric, c'.ferric)
  }

  /** The rate of a row can still be recorded: time is positive and the rate fits u64. */
  predicate Recordable(count: u64, s: Sample) {
    0 < s.elapsedNs && count * s.iterations * RATE_SCALE / s.elapsedNs <= U64_MAX
  }

  lemma FasterRate(count: u64, s: Sample, s': Sample)
    requires RateOf(count, s).Ok? && Faster(s, s')
    ensures RateOf(count, s').Ok? <==> Recordable(count, s')
    ensures RateOf(count, s').Ok? ==> RateOf(count, s).value <= RateOf(count, s').value
  {
    if 0 < s'.elapsedNs {
      FloorAntitone(count * s.iterations * RATE_SCALE, s.elapsedNs, s'.elapsedNs);
    }
  }

  lemma FasterMedian(count: u64, rows: seq<Sample>, rows': seq<Sample>)
    requires MedianFor(count, rows).Ok? && FasterRows(rows, rows')
    ensures MedianFor(count, rows').Ok? <==> forall i :: 0 <= i < |rows'| ==> Recordable(count, rows'[i])
    ensures MedianFor(count, rows').Ok? ==> AtMost(MedianFor(count, rows).value, MedianFor(count, rows').value)
  {
    RatesPointwise(count, rows);
    RatesPointwise(count, rows');
    forall i | 0 <= i < |rows|
      ensures RateOf(count, rows'[i]).Ok? <==> Recordable(count, rows'[i])
      ensures RateOf(count, rows'[i]).Ok? ==> RateOf(count, rows[i]).value <= RateOf(count, rows'[i]).value
    {
      FasterRate(count, rows[i], rows'[i]);
    }
    if MedianFor(count, rows').Ok? {
      MedianMonotone(RatesOf(count, rows).value, RatesOf(count, rows').value);
    }
  }

  /** What must not get worse from one metric to the other. */
  predicate NoWorse(m: Metric, m': Metric) {
    && m'.reference == m.reference && m'.vendor == m.vendor && m'.weight == m.weight
    && AtMost(m.ferric, m'.ferric)
    && (m.regressionGate ==> m'.regressionGate)
    && m.vendorGate.Some? == m'.vendorGate.Some?
    && (m.vendorGate.Some? && m.vendorGate.value ==> m'.vendorGate.value)
  }

  lemma FasterCase(c: Case, c': Case, t: Thresholds)
    requires CaseOf(c, t).Ok? && FasterFerric(c, c')
    ensures CaseOf(c', t).Ok? <==> forall i :: 0 <= i < |c'.ferric| ==> Recordable(c'.count, c'.ferric[i])
    ensures CaseOf(c', t).Ok? ==> NoWorse(CaseOf(c, t).value, CaseOf(c', t).value)
  {
    FasterMedian(c.count, c.ferric, c'.ferric);
    MedianForIsValid(c.count, c.ferric);
    MedianForIsValid(c.count, c.reference);
    if CaseOf(c', t).Ok? {
      MedianForIsValid(c.count, c'.ferric);
      var m, m' := CaseOf(c, t).value, CaseOf(c', t).value;
      if m.regressionGate { RegressionGateMonotone(m.ferric, m'.ferric, m.reference, t.maximumRegressionPpm); }
      if c.vendor.Some? && m.vendorGate.value {
        RatioGateMonotone(m.ferric, m'.ferric, m.vendor.value, t.minimumVendorPpm);
      }
    }
  }

  lemma {:induction false} FasterTerms(metrics: seq<Metric>, metrics': seq<Metric>)
    requires |metrics| == |metrics'|
    requires forall i :: 0 <= i < |metrics| ==>
               ValidMetric(metrics[i]) && ValidMetric(metrics'[i]) && NoWorse(metrics[i], metrics'[i])
    ensures Raises(Applicable(metrics), Applicable(metrics'))
  {
    if metrics != [] {
      var n := |metrics| - 1;
      FasterTerms(metrics[..n], metrics'[..n]);
      assert NoWorse(metrics[n], metrics'[n]) && ValidMetric(metrics[n]) && ValidMetric(metrics'[n]);
    }
  }

  /** Monotone end to end.  Lower any Ferric elapsed times and change nothing
      else: the new rows are accepted exactly when every new rate can still be
      recorded, and then no median falls and no gate that passed fails. */
  lemma FasterFerricNeverHurts(cases: seq<Case>, cases': seq<Case>, t: Thresholds)
    requires ReportOf(cases, t).Ok? && |cases'| == |cases|
    requires forall i :: 0 <= i < |cases| ==> FasterFerric(cases[i], cases'[i])
    ensures ReportOf(cases', t).Ok? <==>
            forall i, j :: 0 <= i < |cases'| && 0 <= j < |cases'[i].ferric| ==>
              Recordable(cases'[i].count, cases'[i].ferric[j])
    ensures ReportOf(cases', t).Ok? ==>
              var r, r' := ReportOf(cases, t).value, ReportOf(cases', t).value;
              && |r'.metrics| == |r.metrics|
              && (forall i :: 0 <= i < |r.metrics| ==> NoWorse(r.metrics[i], r'.metrics[i]))
              && r.aggregate.Some? == r'.aggregate.Some?
              && (r.aggregate.Some? && r.aggregate.value.gate ==> r'.aggregate.value.gate)
              && (r.allGatesPass ==> r'.allGatesPass)
  {
    ReportNeverRefusesAggregate(cases, t);
    ReportNeverRefusesAggregate(cases', t);
    forall i | 0 <= i < |cases|
      ensures CaseOf(cases'[i], t).Ok? <==>
              forall j :: 0 <= j < |cases'[i].ferric| ==> Recordable(cases'[i].count, cases'[i].ferric[j])
      ensures CaseOf(cases'[i], t).Ok? ==> NoWorse(CaseOf(cases[i], t).value, CaseOf(cases'[i], t).value)
    {
      FasterCase(cases[i], cases'[i], t);
    }
    if ReportOf(cases', t).Ok? {
      FasterReport(cases, cases', t);
    }
  }

  lemma FasterReport(cases: seq<Case>, cases': seq<Case>, t: Thresholds)
    requires ReportOf(cases, t).Ok? && ReportOf(cases', t).Ok? && |cases'| == |cases|
    requires forall i :: 0 <= i < |cases| ==>
               CaseOf(cases[i], t).Ok? && CaseOf(cases'[i], t).Ok?
               && NoWorse(CaseOf(cases[i], t).value, CaseOf(cases'[i], t).value)
    ensures var r, r' := ReportOf(cases, t).value, ReportOf(cases', t).value;
            && |r'.metrics| == |r.metrics|
            && (forall i :: 0 <= i < |r.metrics| ==> NoWorse(r.metrics[i], r'.metrics[i]))
            && r.aggregate.Some? == r'.aggregate.Some?
            && (r.aggregate.Some? && r.aggregate.value.gate ==> r'.aggregate.value.gate)
            && (r.allGatesPass ==> r'.allGatesPass)
  {
    var r, r' := ReportOf(cases, t).value, ReportOf(cases', t).value;
    MetricsPointwise(cases, t);
    MetricsPointwise(cases', t);
    forall i | 0 <= i < |cases|
      ensures ValidMetric(r.metrics[i]) && ValidMetric(r'.metrics[i]) && NoWorse(r.metrics[i], r'.metrics[i])
    {
      CaseIsValid(cases[i], t);
      CaseIsValid(cases'[i], t);
    }
    FasterTerms(r.metrics, r'.metrics);
    var terms, terms' := Applicable(r.metrics), Applicable(r'.metrics);
    if terms != [] && GateHolds(terms, t.minimumWeightedPpm) {
      GateMonotone(terms, terms', t.minimumWeightedPpm);
    }
    if r.allGatesPass {
      forall i | 0 <= i < |r'.metrics| ensures CasePasses(r'.metrics[i]) {
        assert CasePasses(r.metrics[i]) && NoWorse(r.metrics[i], r'.metrics[i]);
      }
    }
  }
}
