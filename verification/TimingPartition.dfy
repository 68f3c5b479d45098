/** `analyze` of tools/summarize_packed_host_timing.py: aggregate rows, one timing
    partition for each of 135 batches, and two summaries. */
module TimingPartition {
  import opened Outcomes
  import Json
  import Transcript

  const ORDERED := "dispatch_ordered_batch64"
  const SPAN := "span"
  const SEND := "ipc_send"
  const ROUNDTRIP := "ipc_roundtrip"
  const WORKER := "worker_reported_elapsed"
  const U64: int := 0xFFFF_FFFF_FFFF_FFFF
  const BATCHES: nat := 135
  const ROW_LIMIT: nat := 65536

  /** One aggregate; `tag` is its "label" field. */
  datatype Row = Row(
    batch: Option<int>, phase: string, category: string, tag: string, rank: Option<int>,
    count: int, failed: int, elapsedNs: int, maxNs: int,
    requestBytes: int, responseBytes: int, dispatches: int)

  datatype Key = Key(batch: Option<int>, phase: string, category: string, tag: string, rank: Option<int>)

  function KeyOf(row: Row): Key {
    Key(row.batch, row.phase, row.category, row.tag, row.rank)
  }

  // ---- aggregate rows

  predicate InU64(n: int) { 0 <= n <= U64 }

  predicate RowOk(row: Row) {
    && (row.batch.None? || 1 <= row.batch.value <= BATCHES)
    && (row.rank.None? || row.rank.value == 0)
    && 0 < |row.phase| <= 96 && 0 < |row.category| <= 96 && 0 < |row.tag| <= 96
    && row.category in {SPAN, SEND, ROUNDTRIP, WORKER}
    && InU64(row.count) && InU64(row.failed) && InU64(row.elapsedNs) && InU64(row.maxNs)
    && InU64(row.requestBytes) && InU64(row.responseBytes) && InU64(row.dispatches)
    && 0 < row.count && row.failed == 0 && row.maxNs <= row.elapsedNs <= row.count * row.maxNs
    && (row.category == SPAN ==> row.requestBytes == row.responseBytes == row.dispatches == 0)
    && (row.category == WORKER ==>
          && row.tag == ORDERED && row.rank == Some(0) && row.batch.Some?
          && row.requestBytes == row.responseBytes == 0
          && row.count <= row.dispatches <= 64 * row.count)
  }

  predicate UniqueKeys(rows: seq<Row>) {
    forall i, j :: 0 <= i < j < |rows| ==> KeyOf(rows[i]) != KeyOf(rows[j])
  }

  predicate RowsOk(rows: seq<Row>) {
    && 0 < |rows| <= ROW_LIMIT
    && (forall i :: 0 <= i < |rows| ==> RowOk(rows[i]))
    && UniqueKeys(rows)
  }

  method ValidateRows(rows: seq<Row>) returns (ok: bool)
    ensures ok <==> RowsOk(rows)
  {
    if !(0 < |rows| <= ROW_LIMIT) {
      return false;
    }
    var seen: set<Key> := {};
    for i := 0 to |rows|
      invariant forall k :: 0 <= k < i ==> RowOk(rows[k])
      invariant UniqueKeys(rows[..i])
      invariant seen == set k | 0 <= k < i :: KeyOf(rows[k])
    {
      if KeyOf(rows[i]) in seen {
        return false;
      }
      seen := seen + {KeyOf(rows[i])};
      if !RowOk(rows[i]) {
        return false;
      }
    }
    assert rows[..|rows|] == rows;
    ok := true;
  }

  // ---- selections and totals

  function Pick(rows: seq<Row>, batch: int, category: string): seq<Row> {
    if rows == [] then []
    else
      var rest := Pick(rows[1..], batch, category);
      if rows[0].batch == Some(batch) && rows[0].category == category then [rows[0]] + rest else rest
  }

  function Labelled(rows: seq<Row>, tag: string): seq<Row> {
    if rows == [] then []
    else
      var rest := Labelled(rows[1..], tag);
      if rows[0].tag == tag then [rows[0]] + rest else rest
  }

  /** The rows with the phase and rank of `item`. */
  function Covering(rows: seq<Row>, item: Row): seq<Row> {
    if rows == [] then []
    else
      var rest := Covering(rows[1..], item);
      if rows[0].phase == item.phase && rows[0].rank == item.rank then [rows[0]] + rest else rest
  }

  datatype Field = Count | Elapsed | Dispatches

  function FieldOf(row: Row, field: Field): int {
    match field case Count => row.count case Elapsed => row.elapsedNs case Dispatches => row.dispatches
  }

  function Total(rows: seq<Row>, field: Field): int {
    if rows == [] then 0 else FieldOf(rows[0], field) + Total(rows[1..], field)
  }

  function Outer(rows: seq<Row>, batch: int): seq<Row> { Labelled(Pick(rows, batch, SPAN), "batch") }
  function Worker(rows: seq<Row>, batch: int): seq<Row> { Labelled(Pick(rows, batch, WORKER), ORDERED) }
  function Ordered(rows: seq<Row>, batch: int): seq<Row> { Labelled(Transport(rows, batch), ORDERED) }
  function Packing(rows: seq<Row>, batch: int): seq<Row> { Labelled(Pick(rows, batch, SPAN), "ordered_dispatch_pack") }
  function Transport(rows: seq<Row>, batch: int): seq<Row> { Pick(rows, batch, ROUNDTRIP) }

  // ---- one batch

  datatype Split = Split(wall: int, packing: int, worker: int, orderedMinusWorker: int, otherTransport: int, remaining: int)

  function Groups(batch: int): int { if batch <= 8 then 72 else 11 }

  function OrderedPackets(batch: int, decodePackets: int): int {
    if batch <= 8 then 612 else decodePackets
  }

  predicate OneOuter(outer: seq<Row>) {
    |outer| == 1 && outer[0].count == 1 && outer[0].rank.None? && outer[0].phase == "batch"
  }

  predicate TotalIs(rows: seq<Row>, field: Field, expected: int) {
    InU64(Total(rows, field)) && Total(rows, field) == expected
  }

  predicate CountsMatch(rows: seq<Row>, batch: int, decodePackets: int) {
    && TotalIs(Worker(rows, batch), Count, Groups(batch))
    && TotalIs(Ordered(rows, batch), Count, Groups(batch))
    && TotalIs(Packing(rows, batch), Count, Groups(batch))
    && TotalIs(Worker(rows, batch), Dispatches, OrderedPackets(batch, decodePackets))
    && TotalIs(Ordered(rows, batch), Dispatches, OrderedPackets(batch, decodePackets))
    && TotalIs(Transport(rows, batch), Dispatches, Transcript.Packets(batch, decodePackets))
  }

  predicate ModesMatch(transport: seq<Row>, batch: int) {
    forall i :: 0 <= i < |transport| && transport[i].dispatches != 0 ==>
      transport[i].tag == ORDERED || (transport[i].tag == "dispatch" && batch <= 8)
  }

  predicate WorkerCovered(item: Row, ordered: seq<Row>) {
    var c := Covering(ordered, item);
    |c| == 1 && c[0].count == item.count && c[0].dispatches == item.dispatches && item.elapsedNs <= c[0].elapsedNs
  }

  predicate PackingCovered(item: Row, ordered: seq<Row>) {
    var c := Covering(ordered, item);
    item.rank == Some(0) && |c| == 1 && item.count == c[0].count
  }

  predicate AllCovered(worker: seq<Row>, packing: seq<Row>, ordered: seq<Row>) {
    && (forall i :: 0 <= i < |worker| ==> WorkerCovered(worker[i], ordered))
    && (forall i :: 0 <= i < |packing| ==> PackingCovered(packing[i], ordered))
  }

  predicate TimesFit(rows: seq<Row>, batch: int)
    requires |Outer(rows, batch)| == 1
  {
    && InU64(Total(Packing(rows, batch), Elapsed)) && InU64(Total(Worker(rows, batch), Elapsed))
    && InU64(Total(Ordered(rows, batch), Elapsed)) && InU64(Total(Transport(rows, batch), Elapsed))
    && Total(Packing(rows, batch), Elapsed) + Total(Transport(rows, batch), Elapsed) <= Outer(rows, batch)[0].elapsedNs
  }

  predicate BatchOk(rows: seq<Row>, batch: int, decodePackets: int) {
    && OneOuter(Outer(rows, batch))
    && CountsMatch(rows, batch, decodePackets)
    && ModesMatch(Transport(rows, batch), batch)
    && AllCovered(Worker(rows, batch), Packing(rows, batch), Ordered(rows, batch))
    && TimesFit(rows, batch)
  }

  function SplitOf(rows: seq<Row>, batch: int): Split
    requires |Outer(rows, batch)| == 1
  {
    var wall := Outer(rows, batch)[0].elapsedNs;
    var pack, worker := Total(Packing(rows, batch), Elapsed), Total(Worker(rows, batch), Elapsed);
    var ordered, transport := Total(Ordered(rows, batch), Elapsed), Total(Transport(rows, batch), Elapsed);
    Split(wall, pack, worker, ordered - worker, transport - ordered, wall - pack - transport)
  }

  method CheckCoverage(worker: seq<Row>, packing: seq<Row>, ordered: seq<Row>) returns (ok: bool)
    ensures ok <==> AllCovered(worker, packing, ordered)
  {
    for i := 0 to |worker|
      invariant forall k :: 0 <= k < i ==> WorkerCovered(worker[k], ordered)
    {
      if !WorkerCovered(worker[i], ordered) {
        return false;
      }
    }
    for i := 0 to |packing|
      invariant forall k :: 0 <= k < i ==> PackingCovered(packing[k], ordered)
    {
      if !PackingCovered(packing[i], ordered) {
        return false;
      }
    }
    ok := true;
  }

  method AnalyzeBatch(rows: seq<Row>, batch: int, decodePackets: int) returns (r: Option<Split>)
    ensures r.Some? <==> BatchOk(rows, batch, decodePackets)
    ensures r.Some? ==> r.value == SplitOf(rows, batch)
  {
    hide Pick, Labelled, Total, Covering, WorkerCovered, PackingCovered;
    var outer, worker, ordered := Outer(rows, batch), Worker(rows, batch), Ordered(rows, batch);
    var packing, transport := Packing(rows, batch), Transport(rows, batch);
    if !OneOuter(outer) || !CountsMatch(rows, batch, decodePackets) || !ModesMatch(transport, batch) {
      return None;
    }
    var covered := CheckCoverage(worker, packing, ordered);
    if !covered {
      return None;
    }
    var wall := outer[0].elapsedNs;
    var packNs, workerNs := Total(packing, Elapsed), Total(worker, Elapsed);
    var orderedNs, transportNs := Total(ordered, Elapsed), Total(transport, Elapsed);
    if !(InU64(packNs) && InU64(workerNs) && InU64(orderedNs) && InU64(transportNs)) || packNs + transportNs > wall {
      return None;
    }
    r := Some(Split(wall, packNs, workerNs, orderedNs - workerNs, transportNs - orderedNs, wall - packNs - transportNs));
  }

  // ---- the partition is exact and non-negative

  /** Rows whose phase and rank are pairwise different. */
  predicate DistinctScopes(rows: seq<Row>) {
    forall i, j :: 0 <= i < j < |rows| ==> rows[i].phase != rows[j].phase || rows[i].rank != rows[j].rank
  }

  /** `ordered` has a row of the item's scope that lasts at least as long. */
  predicate CoveredBy(item: Row, ordered: seq<Row>) {
    exists j :: 0 <= j < |ordered| && ordered[j].phase == item.phase && ordered[j].rank == item.rank
                && item.elapsedNs <= ordered[j].elapsedNs
  }

  predicate Covered(worker: seq<Row>, ordered: seq<Row>) {
    forall i :: 0 <= i < |worker| ==> CoveredBy(worker[i], ordered)
  }

  predicate NonNegative(rows: seq<Row>) {
    forall i :: 0 <= i < |rows| ==> 0 <= rows[i].elapsedNs
  }

  lemma {:induction false} TotalWithout(rows: seq<Row>, j: nat)
    requires j < |rows|
    ensures Total(rows, Elapsed) == rows[j].elapsedNs + Total(rows[..j] + rows[j + 1..], Elapsed)
  {
    var without := rows[..j] + rows[j + 1..];
    if j == 0 {
      assert without == rows[1..];
    } else {
      TotalWithout(rows[1..], j - 1);
      assert without[1..] == rows[1..][..j - 1] + rows[1..][j..];
    }
  }

  lemma {:induction false} NonNegativeTotal(rows: seq<Row>)
    requires NonNegative(rows)
    ensures 0 <= Total(rows, Elapsed)
  {
    if rows != [] { NonNegativeTotal(rows[1..]); }
  }

  /** Different scopes need different covering rows, so the worker total is at most
      the total of the rows that cover it. */
  lemma {:induction false} CoveringIsInjective(worker: seq<Row>, ordered: seq<Row>)
    requires DistinctScopes(worker) && Covered(worker, ordered) && NonNegative(ordered)
    ensures Total(worker, Elapsed) <= Total(ordered, Elapsed)
    decreases |worker|
  {
    if worker == [] {
      NonNegativeTotal(ordered);
    } else {
      var w := worker[0];
      assert CoveredBy(w, ordered);
      var j :| 0 <= j < |ordered| && ordered[j].phase == w.phase && ordered[j].rank == w.rank
               && w.elapsedNs <= ordered[j].elapsedNs;
      var without := ordered[..j] + ordered[j + 1..];
      forall i | 0 <= i < |worker[1..]| ensures CoveredBy(worker[1..][i], without) {
        assert CoveredBy(worker[i + 1], ordered);
        var k :| 0 <= k < |ordered| && ordered[k].phase == worker[i + 1].phase
                 && ordered[k].rank == worker[i + 1].rank && worker[i + 1].elapsedNs <= ordered[k].elapsedNs;
        assert k != j;
        assert without[if k < j then k else k - 1] == ordered[k];
      }
      CoveringIsInjective(worker[1..], without);
      TotalWithout(ordered, j);
    }
  }

  lemma {:induction false} PickMembers(rows: seq<Row>, batch: int, category: string)
    ensures forall r :: r in Pick(rows, batch, category) ==> r in rows && r.batch == Some(batch) && r.category == category
  {
    if rows != [] { PickMembers(rows[1..], batch, category); }
  }

  lemma {:induction false} LabelledMembers(rows: seq<Row>, tag: string)
    ensures forall r :: r in Labelled(rows, tag) ==> r in rows && r.tag == tag
  {
    if rows != [] { LabelledMembers(rows[1..], tag); }
  }

  lemma UniqueCons(row: Row, rest: seq<Row>)
    ensures UniqueKeys([row] + rest) <==> UniqueKeys(rest) && forall r :: r in rest ==> KeyOf(r) != KeyOf(row)
  {
    var all := [row] + rest;
    if UniqueKeys(all) {
      forall i, j | 0 <= i < j < |rest| ensures KeyOf(rest[i]) != KeyOf(rest[j]) {
        assert all[i + 1] == rest[i] && all[j + 1] == rest[j];
      }
      forall r | r in rest ensures KeyOf(r) != KeyOf(row) {
        var i :| 0 <= i < |rest| && rest[i] == r;
        assert all[0] == row && all[i + 1] == r;
      }
    }
  }

  lemma {:induction false} PickUnique(rows: seq<Row>, batch: int, category: string)
    requires UniqueKeys(rows)
    ensures UniqueKeys(Pick(rows, batch, category))
  {
    if rows != [] {
      var rest := Pick(rows[1..], batch, category);
      assert rows == [rows[0]] + rows[1..];
      UniqueCons(rows[0], rows[1..]);
      PickUnique(rows[1..], batch, category);
      PickMembers(rows[1..], batch, category);
      UniqueCons(rows[0], rest);
    }
  }

  lemma {:induction false} LabelledUnique(rows: seq<Row>, tag: string)
    requires UniqueKeys(rows)
    ensures UniqueKeys(Labelled(rows, tag))
  {
    if rows != [] {
      var rest := Labelled(rows[1..], tag);
      assert rows == [rows[0]] + rows[1..];
      UniqueCons(rows[0], rows[1..]);
      LabelledUnique(rows[1..], tag);
      LabelledMembers(rows[1..], tag);
      UniqueCons(rows[0], rest);
    }
  }

  /** Unique keys leave at most one row of a batch, category and label for each scope. */
  lemma SelectionHasDistinctScopes(rows: seq<Row>, batch: int, category: string, tag: string)
    requires UniqueKeys(rows)
    ensures DistinctScopes(Labelled(Pick(rows, batch, category), tag))
  {
    var picked := Pick(rows, batch, category);
    var chosen := Labelled(picked, tag);
    PickUnique(rows, batch, category);
    LabelledUnique(picked, tag);
    PickMembers(rows, batch, category);
    LabelledMembers(picked, tag);
    forall i, j | 0 <= i < j < |chosen|
      ensures chosen[i].phase != chosen[j].phase || chosen[i].rank != chosen[j].rank
    {
      assert KeyOf(chosen[i]) != KeyOf(chosen[j]);
      assert chosen[i] in picked && chosen[j] in picked;
    }
  }

  lemma {:induction false} CoveringMember(rows: seq<Row>, item: Row)
    requires Covering(rows, item) != []
    ensures exists j :: 0 <= j < |rows| && rows[j] == Covering(rows, item)[0]
                        && rows[j].phase == item.phase && rows[j].rank == item.rank
  {
    if rows[0].phase == item.phase && rows[0].rank == item.rank {
      assert rows[0] == Covering(rows, item)[0];
    } else {
      CoveringMember(rows[1..], item);
      var j :| 0 <= j < |rows[1..]| && rows[1..][j] == Covering(rows[1..], item)[0]
               && rows[1..][j].phase == item.phase && rows[1..][j].rank == item.rank;
      assert rows[j + 1] == rows[1..][j];
    }
  }

  lemma {:induction false} LabelledTotal(rows: seq<Row>, tag: string)
    requires NonNegative(rows)
    ensures 0 <= Total(Labelled(rows, tag), Elapsed) <= Total(rows, Elapsed)
  {
    if rows != [] { LabelledTotal(rows[1..], tag); }
  }

  lemma SelectionIsNonNegative(rows: seq<Row>, batch: int, category: string)
    requires forall i :: 0 <= i < |rows| ==> RowOk(rows[i])
    ensures NonNegative(Pick(rows, batch, category))
  {
    hide RowOk;
    PickMembers(rows, batch, category);
    forall i | 0 <= i < |Pick(rows, batch, category)| ensures 0 <= Pick(rows, batch, category)[i].elapsedNs {
      var r := Pick(rows, batch, category)[i];
      assert r in rows;
      RowIsNonNegative(r);
    }
  }

  lemma RowIsNonNegative(row: Row)
    requires RowOk(row)
    ensures 0 <= row.elapsedNs
  {
  }

  /** For accepted rows the five parts of a batch are non-negative and add up to its
      wall time. */
  lemma PartitionIsExact(rows: seq<Row>, batch: int, decodePackets: int)
    requires RowsOk(rows) && BatchOk(rows, batch, decodePackets)
    ensures var s := SplitOf(rows, batch);
            && 0 <= s.packing && 0 <= s.worker && 0 <= s.orderedMinusWorker && 0 <= s.otherTransport && 0 <= s.remaining
            && s.packing + s.worker + s.orderedMinusWorker + s.otherTransport + s.remaining == s.wall
  {
    hide RowOk, Pick, Labelled, Total, Covering, CountsMatch, ModesMatch;
    var worker, ordered := Worker(rows, batch), Ordered(rows, batch);
    SelectionIsNonNegative(rows, batch, ROUNDTRIP);
    SelectionIsNonNegative(rows, batch, SPAN);
    SelectionIsNonNegative(rows, batch, WORKER);
    LabelledTotal(Transport(rows, batch), ORDERED);
    LabelledTotal(Pick(rows, batch, SPAN), "ordered_dispatch_pack");
    LabelledTotal(Pick(rows, batch, WORKER), ORDERED);
    SelectionHasDistinctScopes(rows, batch, WORKER, ORDERED);
    WorkerIsCovered(worker, ordered);
    LabelledNonNegative(Transport(rows, batch), ORDERED);
    CoveringIsInjective(worker, ordered);
  }

  lemma WorkerIsCovered(worker: seq<Row>, ordered: seq<Row>)
    requires forall i :: 0 <= i < |worker| ==> WorkerCovered(worker[i], ordered)
    ensures Covered(worker, ordered)
  {
    forall i | 0 <= i < |worker| ensures CoveredBy(worker[i], ordered) {
      assert WorkerCovered(worker[i], ordered);
      CoveringMember(ordered, worker[i]);
    }
  }

  lemma LabelledNonNegative(rows: seq<Row>, tag: string)
    requires NonNegative(rows)
    ensures NonNegative(Labelled(rows, tag))
  {
    LabelledMembers(rows, tag);
  }

  // ---- all batches and the two summaries

  datatype Summary = Summary(batches: nat, totals: Split)

  datatype Analysis = Analysis(splits: seq<Split>, prefill: Summary, decode: Summary)

  function Plus(a: Split, b: Split): Split {
    Split(a.wall + b.wall, a.packing + b.packing, a.worker + b.worker, a.orderedMinusWorker + b.orderedMinusWorker,
          a.otherTransport + b.otherTransport, a.remaining + b.remaining)
  }

  function SumSplits(splits: seq<Split>): Split {
    if splits == [] then Split(0, 0, 0, 0, 0, 0) else Plus(SumSplits(splits[..|splits| - 1]), splits[|splits| - 1])
  }

  predicate SummaryFits(s: Split) {
    && InU64(s.wall) && InU64(s.packing) && InU64(s.worker)
    && InU64(s.orderedMinusWorker) && InU64(s.otherTransport) && InU64(s.remaining)
  }

  predicate BatchesOk(rows: seq<Row>, n: nat, decodePackets: int) {
    forall b :: 1 <= b <= n ==> BatchOk(rows, b, decodePackets)
  }

  lemma BatchHasOuter(rows: seq<Row>, batch: int, decodePackets: int)
    requires BatchOk(rows, batch, decodePackets)
    ensures |Outer(rows, batch)| == 1
  {
  }

  function AllSplits(rows: seq<Row>, n: nat, decodePackets: int): (splits: seq<Split>)
    requires BatchesOk(rows, n, decodePackets)
    ensures |splits| == n
  {
    if n == 0 then []
    else BatchHasOuter(rows, n, decodePackets); AllSplits(rows, n - 1, decodePackets) + [SplitOf(rows, n)]
  }

  predicate Accepted(rows: seq<Row>, decodePackets: int) {
    && RowsOk(rows) && BatchesOk(rows, BATCHES, decodePackets)
    && var splits := AllSplits(rows, BATCHES, decodePackets);
    && SummaryFits(SumSplits(splits[..8])) && SummaryFits(SumSplits(splits[8..]))
  }

  function AnalysisOf(rows: seq<Row>, decodePackets: int): Analysis
    requires BatchesOk(rows, BATCHES, decodePackets)
  {
    var splits := AllSplits(rows, BATCHES, decodePackets);
    Analysis(splits, Summary(8, SumSplits(splits[..8])), Summary(BATCHES - 8, SumSplits(splits[8..])))
  }

  method Summarize(cohort: seq<Split>) returns (r: Option<Summary>)
    ensures r == if SummaryFits(SumSplits(cohort)) then Some(Summary(|cohort|, SumSplits(cohort))) else None
  {
    var totals := Split(0, 0, 0, 0, 0, 0);
    for i := 0 to |cohort|
      invariant totals == SumSplits(cohort[..i])
    {
      assert cohort[..i + 1][..i] == cohort[..i];
      totals := Plus(totals, cohort[i]);
    }
    assert cohort[..|cohort|] == cohort;
    r := if SummaryFits(totals) then Some(Summary(|cohort|, totals)) else None;
  }

  method Analyze(rows: seq<Row>, decodePackets: int) returns (r: Option<Analysis>)
    ensures r == if Accepted(rows, decodePackets) then Some(AnalysisOf(rows, decodePackets)) else None
  {
    hide BatchOk, SplitOf, SumSplits, RowsOk;
    var valid := ValidateRows(rows);
    if !valid {
      return None;
    }
    var splits := [];
    for batch := 1 to BATCHES + 1
      invariant BatchesOk(rows, batch - 1, decodePackets)
      invariant splits == AllSplits(rows, batch - 1, decodePackets)
    {
      var split := AnalyzeBatch(rows, batch, decodePackets);
      if split.None? {
        return None;
      }
      splits := splits + [split.value];
    }
    var prefill := Summarize(splits[..8]);
    var decode := Summarize(splits[8..]);
    if prefill.None? || decode.None? {
      return None;
    }
    r := Some(Analysis(splits, prefill.value, decode.value));
  }

  // ---- conservation

  predicate ExactSplit(s: Split) {
    && 0 <= s.packing && 0 <= s.worker && 0 <= s.orderedMinusWorker && 0 <= s.otherTransport && 0 <= s.remaining
    && s.packing + s.worker + s.orderedMinusWorker + s.otherTransport + s.remaining == s.wall
  }

  lemma {:induction false} SumAppend(a: seq<Split>, b: seq<Split>)
    ensures SumSplits(a + b) == Plus(SumSplits(a), SumSplits(b))
    decreases |b|
  {
    if b == [] {
      assert a + b == a;
    } else {
      var n := |b| - 1;
      SumAppend(a, b[..n]);
      var all := a + b;
      assert all[..|all| - 1] == a + b[..n] && all[|all| - 1] == b[n] && all != [];
      assert SumSplits(all) == Plus(SumSplits(a + b[..n]), b[n]);
    }
  }

  lemma {:induction false} SumIsExact(splits: seq<Split>)
    requires forall i :: 0 <= i < |splits| ==> ExactSplit(splits[i])
    ensures ExactSplit(SumSplits(splits))
  {
    if splits != [] { SumIsExact(splits[..|splits| - 1]); }
  }

  lemma {:induction false} SplitsAreExact(rows: seq<Row>, n: nat, decodePackets: int)
    requires RowsOk(rows) && BatchesOk(rows, n, decodePackets)
    ensures forall i :: 0 <= i < n ==> ExactSplit(AllSplits(rows, n, decodePackets)[i])
  {
    hide BatchOk, SplitOf, RowsOk;
    if n != 0 {
      SplitsAreExact(rows, n - 1, decodePackets);
      PartitionIsExact(rows, n, decodePackets);
    }
  }

  /** Every batch is partitioned exactly; so is each summary, and the two summaries
      together conserve every total over the 135 batches. */
  lemma SummariesConserve(rows: seq<Row>, decodePackets: int)
    requires Accepted(rows, decodePackets)
    ensures var a := AnalysisOf(rows, decodePackets);
            && |a.splits| == BATCHES && (forall i :: 0 <= i < BATCHES ==> ExactSplit(a.splits[i]))
            && ExactSplit(a.prefill.totals) && ExactSplit(a.decode.totals)
            && Plus(a.prefill.totals, a.decode.totals) == SumSplits(a.splits)
            && a.prefill.batches + a.decode.batches == BATCHES
  {
    hide SumSplits, AllSplits, RowsOk;
    var splits := AllSplits(rows, BATCHES, decodePackets);
    SplitsAreExact(rows, BATCHES, decodePackets);
    SumIsExact(splits[..8]);
    SumIsExact(splits[8..]);
    SumAppend(splits[..8], splits[8..]);
    assert splits[..8] + splits[8..] == splits;
  }

  /** The sum over the rows of batches 1 to n in one category. */
  function Attributed(rows: seq<Row>, n: int, category: string, field: Field): int {
    if rows == [] then 0
    else
      (if rows[0].batch.Some? && 1 <= rows[0].batch.value <= n && rows[0].category == category
       then FieldOf(rows[0], field) else 0)
      + Attributed(rows[1..], n, category, field)
  }

  lemma {:induction false} AttributedStep(rows: seq<Row>, n: nat, category: string, field: Field)
    requires 1 <= n
    ensures Attributed(rows, n, category, field)
            == Attributed(rows, n - 1, category, field) + Total(Pick(rows, n, category), field)
  {
    if rows != [] { AttributedStep(rows[1..], n, category, field); }
  }

  lemma {:induction false} AttributedNone(rows: seq<Row>, category: string, field: Field)
    ensures Attributed(rows, 0, category, field) == 0
  {
    if rows != [] { AttributedNone(rows[1..], category, field); }
  }

  /** The packets of batches 1 to n. */
  function PacketsUpTo(n: nat, decodePackets: int): int {
    if n == 0 then 0 else PacketsUpTo(n - 1, decodePackets) + Transcript.Packets(n, decodePackets)
  }

  lemma {:induction false} PacketsClosedForm(n: nat, decodePackets: int)
    ensures PacketsUpTo(n, decodePackets)
            == if n < 8 then 613 * n else 4907 + (n - 8) * decodePackets
  {
    if n != 0 { PacketsClosedForm(n - 1, decodePackets); }
  }

  lemma {:induction false} RoundtripPackets(rows: seq<Row>, n: nat, decodePackets: int)
    requires BatchesOk(rows, n, decodePackets)
    ensures Attributed(rows, n, ROUNDTRIP, Dispatches) == PacketsUpTo(n, decodePackets)
  {
    hide Pick, Total, OneOuter, ModesMatch, AllCovered, TimesFit;
    if n == 0 {
      AttributedNone(rows, ROUNDTRIP, Dispatches);
    } else {
      RoundtripPackets(rows, n - 1, decodePackets);
      AttributedStep(rows, n, ROUNDTRIP, Dispatches);
      assert BatchOk(rows, n, decodePackets);
    }
  }

  /** Ordered groups of batches 1 to n, as the rows record them. */
  function GroupsUpTo(rows: seq<Row>, n: nat): int {
    if n == 0 then 0 else GroupsUpTo(rows, n - 1) + Total(Ordered(rows, n), Count)
  }

  lemma {:induction false} GroupsClosedForm(rows: seq<Row>, n: nat, decodePackets: int)
    requires BatchesOk(rows, n, decodePackets)
    ensures GroupsUpTo(rows, n) == if n <= 8 then 72 * n else 576 + 11 * (n - 8)
  {
    hide Labelled, Pick, Total, OneOuter, ModesMatch, AllCovered, TimesFit;
    if n != 0 {
      GroupsClosedForm(rows, n - 1, decodePackets);
      assert BatchOk(rows, n, decodePackets);
    }
  }

  /** Packet conservation: the dispatches of all round-trip rows that name a batch
      add up to the closed total, and the ordered groups to 1973 in both modes. */
  lemma PacketsAreConserved(rows: seq<Row>, decodePackets: int)
    requires Accepted(rows, decodePackets)
    ensures Attributed(rows, BATCHES, ROUNDTRIP, Dispatches) == 4907 + 127 * decodePackets
    ensures GroupsUpTo(rows, BATCHES) == 1973
    ensures forall r :: r in rows && r.batch.Some? ==> 1 <= r.batch.value <= BATCHES
  {
    hide BatchOk;
    RoundtripPackets(rows, BATCHES, decodePackets);
    PacketsClosedForm(BATCHES, decodePackets);
    GroupsClosedForm(rows, BATCHES, decodePackets);
  }

  // ---- the transcript tells the same packet total

  /** Where batch `b` stands among the slotted events. */
  function BatchIndex(b: nat): nat
    requires 1 <= b <= BATCHES
  {
    if b <= 7 then b + 2 else 2 * b - 5
  }

  /** The dispatch count that a batch event reports for its one rank. */
  function ReportedCount(e: Json.Json): real {
    if e.Dict? && Json.Get(e.fields, "rank_dispatch_counts").List? then
      var counts := Json.Get(e.fields, "rank_dispatch_counts").items;
      if |counts| == 1 && Json.Number(counts[0]).Some? then Json.Number(counts[0]).value else 0.0
    else 0.0
  }

  function ReportedUpTo(core: seq<Json.Json>, n: nat): real
    requires |core| == Transcript.CORE && n <= BATCHES
  {
    if n == 0 then 0.0 else ReportedUpTo(core, n - 1) + ReportedCount(core[BatchIndex(n)])
  }

  lemma BatchReportsPackets(core: seq<Json.Json>, b: nat, decodePackets: int)
    requires |core| == Transcript.CORE && Transcript.WellSlotted(core, decodePackets) && 1 <= b <= BATCHES
    ensures ReportedCount(core[BatchIndex(b)]) == Transcript.Packets(b, decodePackets) as real
  {
    hide Transcript.BatchFields, ReportedCount, Transcript.TokenFields, Transcript.RequestFields,
         Transcript.AdmissionFields, Transcript.SameRequest, Transcript.Column, Transcript.QueuedFields;
    var i := BatchIndex(b);
    assert Transcript.Fits(core[..i], core[i], decodePackets);
    assert Transcript.SlotOf(i) == Transcript.BatchSlot(b);
    FieldsReportPackets(core[i], b, decodePackets);
  }

  lemma FieldsReportPackets(e: Json.Json, b: nat, decodePackets: int)
    requires e.Dict? && Transcript.BatchFields(e.fields, b, decodePackets)
    ensures ReportedCount(e) == Transcript.Packets(b, decodePackets) as real
  {
    var counts := Json.Get(e.fields, "rank_dispatch_counts");
    var expected := Json.Int(Transcript.Packets(b, decodePackets));
    assert Json.PyEq(counts, Json.List([expected]));
    assert Json.PyEq(counts.items[0], [expected][0]);
  }

  lemma {:induction false} ReportedIsPackets(core: seq<Json.Json>, n: nat, decodePackets: int)
    requires |core| == Transcript.CORE && Transcript.WellSlotted(core, decodePackets) && n <= BATCHES
    ensures ReportedUpTo(core, n) == PacketsUpTo(n, decodePackets) as real
  {
    hide Transcript.WellSlotted, ReportedCount;
    if n != 0 {
      ReportedIsPackets(core, n - 1, decodePackets);
      BatchReportsPackets(core, n, decodePackets);
    }
  }

  /** The counts reported by the batch events of an accepted transcript add up to
      the same closed total. */
  lemma TranscriptPacketsAreConserved(events: seq<Json.Json>, d: nat, decodePackets: int)
    requires |events| == Transcript.CORE + 1 && d < |events|
    requires Transcript.WellSlotted(Transcript.Without(events, d), decodePackets)
    ensures ReportedUpTo(Transcript.Without(events, d), BATCHES) == (4907 + 127 * decodePackets) as real
  {
    ReportedIsPackets(Transcript.Without(events, d), BATCHES, decodePackets);
    PacketsClosedForm(BATCHES, decodePackets);
  }
}
