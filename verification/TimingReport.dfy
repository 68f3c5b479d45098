/** What the timing analysis of tools/summarize_packed_host_timing.py reports, as sums
    taken straight over the aggregate rows. */
module TimingReport {
  import opened Outcomes
  import opened TimingPartition

  /** A row of batches `lo` to `hi`, of one category and, if given, one label. */
  predicate Selected(row: Row, lo: int, hi: int, category: string, tag: Option<string>) {
    row.batch.Some? && lo <= row.batch.value <= hi && row.category == category && (tag.None? || row.tag == tag.value)
  }

  function Sum(rows: seq<Row>, lo: int, hi: int, category: string, tag: Option<string>, field: Field): int {
    if rows == [] then 0
    else (if Selected(rows[0], lo, hi, category, tag) then FieldOf(rows[0], field) else 0)
         + Sum(rows[1..], lo, hi, category, tag, field)
  }

  function HowMany(rows: seq<Row>, lo: int, hi: int, category: string, tag: Option<string>): nat {
    if rows == [] then 0
    else (if Selected(rows[0], lo, hi, category, tag) then 1 else 0) + HowMany(rows[1..], lo, hi, category, tag)
  }

  lemma {:induction false} TotalIsSum(rows: seq<Row>, b: int, category: string, field: Field)
    ensures Total(Pick(rows, b, category), field) == Sum(rows, b, b, category, None, field)
  {
    if rows != [] { TotalIsSum(rows[1..], b, category, field); }
  }

  lemma {:induction false} LabelledTotalIsSum(rows: seq<Row>, b: int, category: string, tag: string, field: Field)
    ensures Total(Labelled(Pick(rows, b, category), tag), field) == Sum(rows, b, b, category, Some(tag), field)
    ensures |Labelled(Pick(rows, b, category), tag)| == HowMany(rows, b, b, category, Some(tag))
  {
    if rows != [] {
      LabelledTotalIsSum(rows[1..], b, category, tag, field);
      var rest := Pick(rows[1..], b, category);
      if rows[0].batch == Some(b) && rows[0].category == category {
        assert ([rows[0]] + rest)[1..] == rest;
      }
    }
  }

  lemma {:induction false} SumStep(rows: seq<Row>, lo: int, mid: int, hi: int, category: string, tag: Option<string>, field: Field)
    requires lo <= mid + 1 && mid <= hi
    ensures Sum(rows, lo, hi, category, tag, field)
            == Sum(rows, lo, mid, category, tag, field) + Sum(rows, mid + 1, hi, category, tag, field)
  {
    if rows != [] { SumStep(rows[1..], lo, mid, hi, category, tag, field); }
  }

  lemma {:induction false} SumOfNone(rows: seq<Row>, lo: int, category: string, tag: Option<string>, field: Field)
    ensures Sum(rows, lo, lo - 1, category, tag, field) == 0
  {
    if rows != [] { SumOfNone(rows[1..], lo, category, tag, field); }
  }

  /** Worker rows carry no other label, so the label need not be asked for. */
  lemma {:induction false} WorkerLabel(rows: seq<Row>, b: int, field: Field)
    requires forall i :: 0 <= i < |rows| ==> RowOk(rows[i])
    ensures Sum(rows, b, b, WORKER, Some(ORDERED), field) == Sum(rows, b, b, WORKER, None, field)
  {
    if rows != [] {
      assert RowOk(rows[0]);
      WorkerLabel(rows[1..], b, field);
    }
  }

  /** The split tells the times of the rows of batches `lo` to `hi`. */
  predicate Tells(s: Split, rows: seq<Row>, lo: int, hi: int) {
    && s.wall == Sum(rows, lo, hi, "span", Some("batch"), Elapsed)
    && s.packing == Sum(rows, lo, hi, "span", Some("ordered_dispatch_pack"), Elapsed)
    && s.worker == Sum(rows, lo, hi, "worker_reported_elapsed", None, Elapsed)
    && s.worker + s.orderedMinusWorker == Sum(rows, lo, hi, "ipc_roundtrip", Some("dispatch_ordered_batch64"), Elapsed)
    && s.worker + s.orderedMinusWorker + s.otherTransport == Sum(rows, lo, hi, "ipc_roundtrip", None, Elapsed)
    && s.packing + s.worker + s.orderedMinusWorker + s.otherTransport + s.remaining == s.wall
  }

  lemma BatchTells(rows: seq<Row>, b: int, decodePackets: int)
    requires RowsOk(rows) && BatchOk(rows, b, decodePackets)
    ensures HowMany(rows, b, b, "span", Some("batch")) == 1
    ensures Tells(SplitOf(rows, b), rows, b, b)
  {
    hide Pick, Labelled, RowOk, Sum, HowMany, CountsMatch, ModesMatch, AllCovered;
    LabelledTotalIsSum(rows, b, SPAN, "batch", Elapsed);
    LabelledTotalIsSum(rows, b, SPAN, "ordered_dispatch_pack", Elapsed);
    LabelledTotalIsSum(rows, b, WORKER, ORDERED, Elapsed);
    WorkerLabel(rows, b, Elapsed);
    LabelledTotalIsSum(rows, b, ROUNDTRIP, ORDERED, Elapsed);
    TotalIsSum(rows, b, ROUNDTRIP, Elapsed);
    var outer := Outer(rows, b);
    assert Total(outer, Elapsed) == outer[0].elapsedNs + Total(outer[1..], Elapsed) && outer[1..] == [];
  }

  lemma PlusTells(a: Split, b: Split, rows: seq<Row>, lo: int, mid: int, hi: int)
    requires Tells(a, rows, lo, mid) && Tells(b, rows, mid + 1, hi) && lo <= mid + 1 && mid <= hi
    ensures Tells(Plus(a, b), rows, lo, hi)
  {
    hide Sum;
    SumStep(rows, lo, mid, hi, "span", Some("batch"), Elapsed);
    SumStep(rows, lo, mid, hi, "span", Some("ordered_dispatch_pack"), Elapsed);
    SumStep(rows, lo, mid, hi, "worker_reported_elapsed", None, Elapsed);
    SumStep(rows, lo, mid, hi, "ipc_roundtrip", Some("dispatch_ordered_batch64"), Elapsed);
    SumStep(rows, lo, mid, hi, "ipc_roundtrip", None, Elapsed);
  }

  lemma NoneTells(rows: seq<Row>, lo: int)
    ensures Tells(Split(0, 0, 0, 0, 0, 0), rows, lo, lo - 1)
  {
    hide Sum;
    SumOfNone(rows, lo, "span", Some("batch"), Elapsed);
    SumOfNone(rows, lo, "span", Some("ordered_dispatch_pack"), Elapsed);
    SumOfNone(rows, lo, "worker_reported_elapsed", None, Elapsed);
    SumOfNone(rows, lo, "ipc_roundtrip", Some("dispatch_ordered_batch64"), Elapsed);
    SumOfNone(rows, lo, "ipc_roundtrip", None, Elapsed);
  }

  lemma {:induction false} SplitsTell(rows: seq<Row>, n: nat, decodePackets: int, b: nat)
    requires RowsOk(rows) && BatchesOk(rows, n, decodePackets) && 1 <= b <= n
    ensures Tells(AllSplits(rows, n, decodePackets)[b - 1], rows, b, b)
    ensures HowMany(rows, b, b, "span", Some("batch")) == 1
  {
    hide BatchOk, SplitOf, Tells, RowsOk, HowMany;
    if b == n {
      BatchTells(rows, n, decodePackets);
      BatchHasOuter(rows, n, decodePackets);
    } else {
      SplitsTell(rows, n - 1, decodePackets, b);
    }
  }

  /** A run of splits, from batch `lo` on, tells its batches. */
  lemma {:induction false} SumTells(rows: seq<Row>, splits: seq<Split>, lo: nat)
    requires forall i :: 0 <= i < |splits| ==> Tells(splits[i], rows, lo + i, lo + i)
    ensures Tells(SumSplits(splits), rows, lo, lo + |splits| - 1)
  {
    hide Tells, Plus;
    if splits == [] {
      NoneTells(rows, lo);
    } else {
      var n := |splits| - 1;
      SumTells(rows, splits[..n], lo);
      PlusTells(SumSplits(splits[..n]), splits[n], rows, lo, lo + n - 1, lo + n);
    }
  }

  /** The report is true: every batch's parts, and the prefill and decode totals, are the
      elapsed times of the rows they are named after. */
  lemma ReportIsTrue(rows: seq<Row>, decodePackets: int)
    requires Accepted(rows, decodePackets)
    ensures var a := AnalysisOf(rows, decodePackets);
            && |a.splits| == 135
            && (forall b :: 1 <= b <= 135 ==>
                  Tells(a.splits[b - 1], rows, b, b) && HowMany(rows, b, b, "span", Some("batch")) == 1)
            && a.prefill.batches == 8 && Tells(a.prefill.totals, rows, 1, 8)
            && a.decode.batches == 127 && Tells(a.decode.totals, rows, 9, 135)
  {
    hide Tells, AllSplits, SumSplits, RowsOk, HowMany, BatchesOk;
    var splits := AllSplits(rows, BATCHES, decodePackets);
    forall b | 1 <= b <= 135 ensures Tells(splits[b - 1], rows, b, b) && HowMany(rows, b, b, "span", Some("batch")) == 1 {
      SplitsTell(rows, BATCHES, decodePackets, b);
    }
    forall i | 0 <= i < 8 ensures Tells(splits[..8][i], rows, 1 + i, 1 + i) { SplitsTell(rows, BATCHES, decodePackets, i + 1); }
    forall i | 0 <= i < 127 ensures Tells(splits[8..][i], rows, 9 + i, 9 + i) { SplitsTell(rows, BATCHES, decodePackets, i + 9); }
    SumTells(rows, splits[..8], 1);
    SumTells(rows, splits[8..], 9);
  }

  /** What the counters of an accepted batch add up to. */
  lemma CountersAreScheduled(rows: seq<Row>, b: int, decodePackets: int)
    requires RowsOk(rows) && BatchOk(rows, b, decodePackets)
    ensures var groups, packets := if b <= 8 then 72 else 11, if b <= 8 then 612 else decodePackets;
            && Sum(rows, b, b, "worker_reported_elapsed", None, Count) == groups
            && Sum(rows, b, b, "ipc_roundtrip", Some("dispatch_ordered_batch64"), Count) == groups
            && Sum(rows, b, b, "span", Some("ordered_dispatch_pack"), Count) == groups
            && Sum(rows, b, b, "worker_reported_elapsed", None, Dispatches) == packets
            && Sum(rows, b, b, "ipc_roundtrip", Some("dispatch_ordered_batch64"), Dispatches) == packets
    ensures Sum(rows, b, b, "ipc_roundtrip", None, Dispatches) == if b < 8 then 613 else if b == 8 then 616 else decodePackets
  {
    hide Pick, Labelled, RowOk, Sum, OneOuter, ModesMatch, AllCovered, TimesFit;
    WorkerLabel(rows, b, Count);
    WorkerLabel(rows, b, Dispatches);
    LabelledTotalIsSum(rows, b, WORKER, ORDERED, Count);
    LabelledTotalIsSum(rows, b, WORKER, ORDERED, Dispatches);
    LabelledTotalIsSum(rows, b, ROUNDTRIP, ORDERED, Count);
    LabelledTotalIsSum(rows, b, ROUNDTRIP, ORDERED, Dispatches);
    LabelledTotalIsSum(rows, b, SPAN, "ordered_dispatch_pack", Count);
    TotalIsSum(rows, b, ROUNDTRIP, Dispatches);
  }

  // ---- what acceptance asks of single rows

  /** Every accepted row is a plausible aggregate of its category. */
  lemma RowsAreSound(rows: seq<Row>, decodePackets: int, r: Row)
    requires Accepted(rows, decodePackets) && r in rows
    ensures |rows| <= 65536
    ensures (r.batch.Some? ==> 1 <= r.batch.value <= 135) && (r.rank.Some? ==> r.rank.value == 0)
    ensures r.category in {"span", "ipc_send", "ipc_roundtrip", "worker_reported_elapsed"}
    ensures 1 <= |r.phase| <= 96 && 1 <= |r.tag| <= 96
    ensures r.failed == 0 && 1 <= r.count <= U64 && 0 <= r.maxNs <= r.elapsedNs <= r.count * r.maxNs && r.elapsedNs <= U64
    ensures 0 <= r.requestBytes <= U64 && 0 <= r.responseBytes <= U64 && 0 <= r.dispatches <= U64
    ensures r.category == "span" ==> r.requestBytes == 0 && r.responseBytes == 0 && r.dispatches == 0
    ensures r.category == "worker_reported_elapsed" ==>
              && r.tag == "dispatch_ordered_batch64" && r.rank == Some(0) && r.batch.Some?
              && r.requestBytes == 0 && r.responseBytes == 0 && r.count <= r.dispatches <= 64 * r.count
  {
    hide BatchesOk;
    var i :| 0 <= i < |rows| && rows[i] == r;
    assert RowOk(rows[i]);
  }

  /** `q` is the ordered round trip that covers `r`. */
  predicate Covers(q: Row, r: Row, rows: seq<Row>) {
    && q in rows && q.batch == r.batch && q.category == "ipc_roundtrip" && q.tag == "dispatch_ordered_batch64"
    && q.phase == r.phase && q.rank == r.rank && q.count == r.count
  }

  lemma OrderedMember(rows: seq<Row>, b: int, q: Row)
    ensures q in Ordered(rows, b) <==>
            q in rows && q.batch == Some(b) && q.category == "ipc_roundtrip" && q.tag == "dispatch_ordered_batch64"
  {
    InPick(rows, b, ROUNDTRIP, q);
    InLabelled(Pick(rows, b, ROUNDTRIP), ORDERED, q);
  }

  lemma {:induction false} InPick(rows: seq<Row>, b: int, category: string, r: Row)
    ensures r in Pick(rows, b, category) <==> r in rows && r.batch == Some(b) && r.category == category
  {
    if rows != [] {
      InPick(rows[1..], b, category, r);
      assert rows == [rows[0]] + rows[1..];
    }
  }

  lemma {:induction false} InLabelled(rows: seq<Row>, tag: string, r: Row)
    ensures r in Labelled(rows, tag) <==> r in rows && r.tag == tag
  {
    if rows != [] {
      InLabelled(rows[1..], tag, r);
      assert rows == [rows[0]] + rows[1..];
    }
  }

  lemma {:induction false} InCovering(rows: seq<Row>, item: Row)
    ensures forall i :: 0 <= i < |Covering(rows, item)| ==>
              var q := Covering(rows, item)[i]; q in rows && q.phase == item.phase && q.rank == item.rank
  {
    if rows != [] {
      InCovering(rows[1..], item);
      assert rows == [rows[0]] + rows[1..];
    }
  }

  /** In an accepted batch every worker interval and every packing span has its ordered
      round trip, and no other round trip dispatches packets but the plain dispatches of
      the prefill batches. */
  lemma BatchIsCovered(rows: seq<Row>, b: int, decodePackets: int, r: Row)
    requires RowsOk(rows) && BatchOk(rows, b, decodePackets) && r in rows && r.batch == Some(b)
    ensures r.category == "worker_reported_elapsed" ==>
              exists q :: Covers(q, r, rows) && q.dispatches == r.dispatches && r.elapsedNs <= q.elapsedNs
    ensures r.category == "span" && r.tag == "ordered_dispatch_pack" ==> r.rank == Some(0) && exists q :: Covers(q, r, rows)
    ensures r.category == "ipc_roundtrip" && r.dispatches != 0 ==>
              r.tag == "dispatch_ordered_batch64" || (r.tag == "dispatch" && b <= 8)
    ensures r.category == "span" && r.tag == "batch" ==> r.count == 1 && r.rank == None && r.phase == "batch"
  {
    hide Pick, Labelled, CountsMatch, TimesFit, Covering, RowOk;
    var ordered := Ordered(rows, b);
    InPick(rows, b, SPAN, r);
    InPick(rows, b, WORKER, r);
    InPick(rows, b, ROUNDTRIP, r);
    InLabelled(Pick(rows, b, SPAN), "ordered_dispatch_pack", r);
    InLabelled(Pick(rows, b, SPAN), "batch", r);
    InLabelled(Pick(rows, b, WORKER), ORDERED, r);
    InCovering(ordered, r);
    if r.category == WORKER {
      var i :| 0 <= i < |rows| && rows[i] == r;
      assert r.tag == ORDERED by { WorkerTag(r); }
      var k :| 0 <= k < |Worker(rows, b)| && Worker(rows, b)[k] == r;
      assert WorkerCovered(r, ordered);
      var q := Covering(ordered, r)[0];
      OrderedMember(rows, b, q);
      assert Covers(q, r, rows);
    }
    if r.category == SPAN && r.tag == "ordered_dispatch_pack" {
      var k :| 0 <= k < |Packing(rows, b)| && Packing(rows, b)[k] == r;
      assert PackingCovered(r, ordered);
      var q := Covering(ordered, r)[0];
      OrderedMember(rows, b, q);
      assert Covers(q, r, rows);
    }
    if r.category == ROUNDTRIP {
      var k :| 0 <= k < |Transport(rows, b)| && Transport(rows, b)[k] == r;
    }
  }

  lemma WorkerTag(r: Row)
    requires RowOk(r) && r.category == WORKER
    ensures r.tag == ORDERED
  {}

  // ---- ordinary rows are accepted

  /** The times of one batch; the worker's lies inside the ordered round trips. */
  datatype Times = Times(packing: nat, worker: nat, ordered: nat, other: nat, rest: nat)

  function Wall(t: Times): nat { t.packing + t.ordered + t.other + t.rest }

  /** The five rows an undisturbed batch leaves. */
  function BatchRows(b: int, t: Times, decodePackets: int): seq<Row> {
    var groups, packets := if b <= 8 then 72 else 11, if b <= 8 then 612 else decodePackets;
    [Row(Some(b), "batch", "span", "batch", None, 1, 0, Wall(t), Wall(t), 0, 0, 0),
     Row(Some(b), "forward", "span", "ordered_dispatch_pack", Some(0), groups, 0, t.packing, t.packing, 0, 0, 0),
     Row(Some(b), "forward", "worker_reported_elapsed", "dispatch_ordered_batch64", Some(0), groups, 0, t.worker, t.worker, 0, 0, packets),
     Row(Some(b), "forward", "ipc_roundtrip", "dispatch_ordered_batch64", Some(0), groups, 0, t.ordered, t.ordered, 0, 0, packets),
     Row(Some(b), "head", "ipc_roundtrip", "dispatch", Some(0), 1, 0, t.other, t.other, 0, 0,
         if b < 8 then 1 else if b == 8 then 4 else 0)]
  }

  function AllRows(times: seq<Times>, decodePackets: int): seq<Row> {
    if times == [] then []
    else AllRows(times[..|times| - 1], decodePackets) + BatchRows(|times|, times[|times| - 1], decodePackets)
  }

  lemma {:induction false} PickAppend(a: seq<Row>, c: seq<Row>, b: int, category: string)
    ensures Pick(a + c, b, category) == Pick(a, b, category) + Pick(c, b, category)
  {
    hide Pick;
    if a == [] {
      PickNothing(b, category);
      assert a + c == c && [] + Pick(c, b, category) == Pick(c, b, category);
    } else {
      PickAppend(a[1..], c, b, category);
      PickCons(a[0], a[1..] + c, b, category);
      PickCons(a[0], a[1..], b, category);
      assert a + c == [a[0]] + (a[1..] + c) && a == [a[0]] + a[1..];
      var head, rest, other := Chosen(a[0], b, category), Pick(a[1..], b, category), Pick(c, b, category);
      assert head + (rest + other) == (head + rest) + other;
    }
  }

  lemma PickNothing(b: int, category: string)
    ensures Pick([], b, category) == []
  {}

  function Chosen(row: Row, b: int, category: string): seq<Row> {
    if row.batch == Some(b) && row.category == category then [row] else []
  }

  lemma PickCons(row: Row, rest: seq<Row>, b: int, category: string)
    ensures Pick([row] + rest, b, category) == Chosen(row, b, category) + Pick(rest, b, category)
  {
    var rows := [row] + rest;
    assert rows[0] == row && rows[1..] == rest;
    assert [] + Pick(rest, b, category) == Pick(rest, b, category);
  }

  lemma {:induction false} PickOther(rows: seq<Row>, b: int, category: string)
    requires forall i :: 0 <= i < |rows| ==> rows[i].batch != Some(b)
    ensures Pick(rows, b, category) == []
  {
    if rows != [] { PickOther(rows[1..], b, category); }
  }

  lemma {:induction false} RowsAreOf(times: seq<Times>, decodePackets: int)
    ensures |AllRows(times, decodePackets)| == 5 * |times|
    ensures forall i :: 0 <= i < |AllRows(times, decodePackets)| ==>
              |BatchRows(i / 5 + 1, times[i / 5], decodePackets)| == 5
              && AllRows(times, decodePackets)[i] == BatchRows(i / 5 + 1, times[i / 5], decodePackets)[i % 5]
  {
    hide BatchRows;
    if times != [] {
      var n := |times| - 1;
      var front, last := AllRows(times[..n], decodePackets), BatchRows(n + 1, times[n], decodePackets);
      var rows := front + last;
      RowsAreOf(times[..n], decodePackets);
      BatchOfRow(n + 1, times[n], decodePackets, 0);
      forall i | 0 <= i < |rows|
        ensures |BatchRows(i / 5 + 1, times[i / 5], decodePackets)| == 5
        ensures rows[i] == BatchRows(i / 5 + 1, times[i / 5], decodePackets)[i % 5]
      {
        if i < 5 * n {
          assert rows[i] == front[i] && times[..n][i / 5] == times[i / 5];
        } else {
          assert i / 5 == n && i % 5 == i - 5 * n;
        }
      }
    }
  }

  lemma PicksOwn(times: seq<Times>, decodePackets: int, b: nat, category: string)
    requires 1 <= b <= |times|
    ensures Pick(AllRows(times, decodePackets), b, category) == Pick(BatchRows(b, times[b - 1], decodePackets), b, category)
    decreases |times|
  {
    hide BatchRows;
    var n := |times| - 1;
    var front, last := AllRows(times[..n], decodePackets), BatchRows(n + 1, times[n], decodePackets);
    PickAppend(front, last, b, category);
    RowsAreOf(times[..n], decodePackets);
    if b == n + 1 {
      forall i | 0 <= i < |front| ensures front[i].batch != Some(b) { BatchOfRow(i / 5 + 1, times[..n][i / 5], decodePackets, i % 5); }
      PickOther(front, b, category);
    } else {
      PicksOwn(times[..n], decodePackets, b, category);
      forall i | 0 <= i < |last| ensures last[i].batch != Some(b) { BatchOfRow(n + 1, times[n], decodePackets, i); }
      PickOther(last, b, category);
      assert Pick(front, b, category) + [] == Pick(front, b, category);
    }
  }

  lemma BatchOfRow(b: int, t: Times, decodePackets: int, i: nat)
    ensures |BatchRows(b, t, decodePackets)| == 5
    ensures i < 5 ==> BatchRows(b, t, decodePackets)[i].batch == Some(b)
  {}

  predicate TimesOk(times: seq<Times>) {
    && |times| == 135 && (forall i :: 0 <= i < 135 ==> times[i].worker <= times[i].ordered)
    && WallSum(times) <= U64
  }

  function WallSum(times: seq<Times>): nat {
    if times == [] then 0 else WallSum(times[..|times| - 1]) + Wall(times[|times| - 1])
  }

  lemma {:induction false} WallsFit(times: seq<Times>, i: nat)
    requires i < |times|
    ensures Wall(times[i]) <= WallSum(times)
  {
    if i < |times| - 1 { WallsFit(times[..|times| - 1], i); }
  }

  lemma RowIsOk(b: int, t: Times, decodePackets: int, i: nat)
    requires 1 <= b <= 135 && 11 <= decodePackets <= 704 && t.worker <= t.ordered && Wall(t) <= U64 && i < 5
    ensures RowOk(BatchRows(b, t, decodePackets)[i])
  {}

  lemma OwnPicks(b: int, t: Times, decodePackets: int)
    ensures var rows := BatchRows(b, t, decodePackets);
            && Pick(rows, b, SPAN) == [rows[0], rows[1]] && Pick(rows, b, WORKER) == [rows[2]]
            && Pick(rows, b, ROUNDTRIP) == [rows[3], rows[4]]
  {
    var rows := BatchRows(b, t, decodePackets);
    assert |SPAN| != |WORKER| && |SPAN| != |ROUNDTRIP| && |WORKER| != |ROUNDTRIP|;
    assert rows[1..] == [rows[1], rows[2], rows[3], rows[4]] && rows[1..][1..] == [rows[2], rows[3], rows[4]];
    assert [rows[2], rows[3], rows[4]][1..] == [rows[3], rows[4]] && [rows[3], rows[4]][1..] == [rows[4]] && [rows[4]][1..] == [];
    PickFive(rows, b, SPAN);
    PickFive(rows, b, WORKER);
    PickFive(rows, b, ROUNDTRIP);
  }

  lemma PickFive(rows: seq<Row>, b: int, category: string)
    requires |rows| == 5 && forall i :: 0 <= i < 5 ==> rows[i].batch == Some(b)
    ensures Pick(rows, b, category)
            == Kept(rows[0], category) + (Kept(rows[1], category)
               + (Kept(rows[2], category) + (Kept(rows[3], category) + Kept(rows[4], category))))
  {
    var one, two, three, four := rows[1..], rows[2..], rows[3..], rows[4..];
    assert one[1..] == two && two[1..] == three && three[1..] == four && four[1..] == [];
    PickHead(four, b, category);
    assert Pick(four, b, category) == Kept(rows[4], category);
    PickHead(three, b, category);
    PickHead(two, b, category);
    PickHead(one, b, category);
    PickHead(rows, b, category);
  }

  function Kept(row: Row, category: string): seq<Row> {
    if row.category == category then [row] else []
  }

  lemma PickHead(rows: seq<Row>, b: int, category: string)
    requires rows != [] && rows[0].batch == Some(b)
    ensures Pick(rows, b, category) == Kept(rows[0], category) + Pick(rows[1..], b, category)
  {}

  lemma LabelledPair(x: Row, y: Row, tag: string)
    ensures Labelled([x, y], tag) == (if x.tag == tag then [x] else []) + (if y.tag == tag then [y] else [])
    ensures Labelled([x], tag) == if x.tag == tag then [x] else []
  {
    assert [x, y][1..] == [y] && [y][1..] == [] && [x][1..] == [];
    assert Labelled([y], tag) == if y.tag == tag then [y] else [];
    if x.tag != tag { assert [] + Labelled([y], tag) == Labelled([y], tag); }
  }

  lemma OwnSelections(rows: seq<Row>, b: int, t: Times, decodePackets: int)
    requires forall category :: Pick(rows, b, category) == Pick(BatchRows(b, t, decodePackets), b, category)
    ensures var own := BatchRows(b, t, decodePackets);
            && Outer(rows, b) == [own[0]] && Packing(rows, b) == [own[1]] && Worker(rows, b) == [own[2]]
            && Ordered(rows, b) == [own[3]] && Transport(rows, b) == [own[3], own[4]]
  {
    hide Pick, Labelled;
    var own := BatchRows(b, t, decodePackets);
    OwnPicks(b, t, decodePackets);
    assert |"batch"| != |"ordered_dispatch_pack"| && |ORDERED| != |"dispatch"|;
    LabelledPair(own[0], own[1], "batch");
    LabelledPair(own[0], own[1], "ordered_dispatch_pack");
    LabelledPair(own[2], own[2], ORDERED);
    LabelledPair(own[3], own[4], ORDERED);
  }

  lemma TotalOne(x: Row, y: Row, field: Field)
    ensures Total([x], field) == FieldOf(x, field) && Total([x, y], field) == FieldOf(x, field) + FieldOf(y, field)
  {
    assert [x][1..] == [] && [x, y][1..] == [y] && [y][1..] == [];
    assert Total([y], field) == FieldOf(y, field);
  }

  lemma OwnTotals(own: seq<Row>, field: Field)
    requires |own| == 5
    ensures Total([own[1]], field) == FieldOf(own[1], field) && Total([own[2]], field) == FieldOf(own[2], field)
    ensures Total([own[3]], field) == FieldOf(own[3], field)
    ensures Total([own[3], own[4]], field) == FieldOf(own[3], field) + FieldOf(own[4], field)
  {
    TotalOne(own[1], own[1], field);
    TotalOne(own[2], own[2], field);
    TotalOne(own[3], own[4], field);
  }

  lemma BatchIsOk(rows: seq<Row>, b: int, t: Times, decodePackets: int)
    requires forall category :: Pick(rows, b, category) == Pick(BatchRows(b, t, decodePackets), b, category)
    requires 1 <= b <= 135 && 11 <= decodePackets <= 704 && t.worker <= t.ordered && Wall(t) <= U64
    ensures BatchOk(rows, b, decodePackets)
    ensures SplitOf(rows, b) == Split(Wall(t), t.packing, t.worker, t.ordered - t.worker, t.other, t.rest)
  {
    hide Pick, Labelled, Total, Outer, Packing, Worker, Ordered, Transport;
    var own := BatchRows(b, t, decodePackets);
    OwnSelections(rows, b, t, decodePackets);
    OwnTotals(own, Count);
    OwnTotals(own, Elapsed);
    OwnTotals(own, Dispatches);
    assert Covering([own[3]], own[2]) == [own[3]] && Covering([own[3]], own[1]) == [own[3]];
  }

  lemma KeysDiffer(times: seq<Times>, decodePackets: int)
    ensures UniqueKeys(AllRows(times, decodePackets))
  {
    hide BatchRows, AllRows;
    var rows := AllRows(times, decodePackets);
    RowsAreOf(times, decodePackets);
    forall i, j | 0 <= i < j < |rows| ensures KeyOf(rows[i]) != KeyOf(rows[j]) {
      BatchOfRow(i / 5 + 1, times[i / 5], decodePackets, i % 5);
      BatchOfRow(j / 5 + 1, times[j / 5], decodePackets, j % 5);
      if i / 5 == j / 5 { RowsDiffer(i / 5 + 1, times[i / 5], decodePackets, i % 5, j % 5); }
    }
  }

  lemma RowsDiffer(b: int, t: Times, decodePackets: int, i: nat, j: nat)
    requires i < j < 5
    ensures KeyOf(BatchRows(b, t, decodePackets)[i]) != KeyOf(BatchRows(b, t, decodePackets)[j])
  {
    assert |SPAN| != |WORKER| && |SPAN| != |ROUNDTRIP| && |WORKER| != |ROUNDTRIP|;
    assert |"batch"| != |"ordered_dispatch_pack"| && |ORDERED| != |"dispatch"|;
  }

  /** The splits of ordinary rows are their times. */
  lemma {:induction false} OrdinarySplits(rows: seq<Row>, times: seq<Times>, n: nat, decodePackets: int)
    requires n <= |times| && BatchesOk(rows, n, decodePackets)
    requires forall b :: 1 <= b <= n ==>
               |Outer(rows, b)| == 1 && SplitOf(rows, b) == SplitFor(times[b - 1])
    ensures AllSplits(rows, n, decodePackets) == seq(n, i requires 0 <= i < n => SplitFor(times[i]))
  {
    hide SplitOf, BatchOk;
    if n != 0 { OrdinarySplits(rows, times, n - 1, decodePackets); }
  }

  function SplitFor(t: Times): Split { Split(Wall(t), t.packing, t.worker, t.ordered - t.worker, t.other, t.rest) }

  lemma {:induction false} SumWithin(splits: seq<Split>, times: seq<Times>)
    requires |splits| == |times|
    requires forall i :: 0 <= i < |times| ==> times[i].worker <= times[i].ordered && splits[i] == SplitFor(times[i])
    ensures var s := SumSplits(splits);
            && s.wall == WallSum(times) && 0 <= s.packing <= s.wall && 0 <= s.worker <= s.wall
            && 0 <= s.orderedMinusWorker && 0 <= s.otherTransport <= s.wall && 0 <= s.remaining <= s.wall
            && s.packing + s.worker + s.orderedMinusWorker + s.otherTransport + s.remaining == s.wall
  {
    if splits != [] { SumWithin(splits[..|splits| - 1], times[..|times| - 1]); }
  }

  lemma {:induction false} WallSumSplits(a: seq<Times>, c: seq<Times>)
    ensures WallSum(a + c) == WallSum(a) + WallSum(c)
    decreases |c|
  {
    if c == [] {
      assert a + c == a;
    } else {
      var n := |c| - 1;
      WallSumSplits(a, c[..n]);
      assert (a + c)[..|a + c| - 1] == a + c[..n] && (a + c)[|a + c| - 1] == c[n];
    }
  }

  /** Ordinary rows, whatever their times, are accepted. */
  lemma OrdinaryRowsAreAccepted(times: seq<Times>, decodePackets: int)
    requires TimesOk(times) && 11 <= decodePackets <= 704
    ensures Accepted(AllRows(times, decodePackets), decodePackets)
  {
    hide AllRows, BatchRows, RowOk, BatchOk, SplitOf, UniqueKeys, AllSplits, SumSplits, Pick, SplitFor;
    var rows := AllRows(times, decodePackets);
    RowsAreOf(times, decodePackets);
    KeysDiffer(times, decodePackets);
    forall i | 0 <= i < |rows| ensures RowOk(rows[i]) {
      WallsFit(times, i / 5);
      BatchOfRow(i / 5 + 1, times[i / 5], decodePackets, i % 5);
      RowIsOk(i / 5 + 1, times[i / 5], decodePackets, i % 5);
    }
    forall b | 1 <= b <= 135
      ensures BatchOk(rows, b, decodePackets) && |Outer(rows, b)| == 1 && SplitOf(rows, b) == SplitFor(times[b - 1])
    {
      OrdinaryBatch(times, b, decodePackets);
    }
    OrdinarySplits(rows, times, 135, decodePackets);
    var splits := AllSplits(rows, 135, decodePackets);
    SumWithin(splits[..8], times[..8]);
    SumWithin(splits[8..], times[8..]);
    WallSumSplits(times[..8], times[8..]);
    assert times[..8] + times[8..] == times;
  }

  lemma OrdinaryBatch(times: seq<Times>, b: nat, decodePackets: int)
    requires TimesOk(times) && 11 <= decodePackets <= 704 && 1 <= b <= 135
    ensures var rows := AllRows(times, decodePackets);
            BatchOk(rows, b, decodePackets) && |Outer(rows, b)| == 1 && SplitOf(rows, b) == SplitFor(times[b - 1])
  {
    hide AllRows, BatchRows, BatchOk, SplitOf, Pick;
    var rows, t := AllRows(times, decodePackets), times[b - 1];
    forall category ensures Pick(rows, b, category) == Pick(BatchRows(b, t, decodePackets), b, category) {
      PicksOwn(times, decodePackets, b, category);
    }
    WallsFit(times, b - 1);
    BatchIsOk(rows, b, t, decodePackets);
    BatchHasOuter(rows, b, decodePackets);
  }
}
