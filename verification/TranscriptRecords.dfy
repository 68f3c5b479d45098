/** Accepted transcripts, spelled out: the fields of all 268 events as one table over the
    request, prompt, tokens and times of a run (tools/summarize_packed_host_timing.py). */
module TranscriptRecords {
  import opened Outcomes
  import opened Json
  import opened Transcript

  /** One run; token k was completed at times[k]. */
  datatype Run = Run(requestId: int, name: string, prompt: seq<int>, tokens: seq<int>, times: seq<int>)

  predicate InVocabulary(tokens: seq<int>) {
    |tokens| == 128 && forall k :: 0 <= k < 128 ==> 0 <= tokens[k] < 151936
  }

  predicate Ordered(times: seq<int>) {
    && |times| == 128 && (forall k :: 0 <= k < 128 ==> 0 <= times[k] <= 0xFFFF_FFFF_FFFF_FFFF)
    && forall k :: 0 < k < 128 ==> times[k - 1] <= times[k]
  }

  predicate ValidRun(run: Run) {
    0 < run.requestId <= 0xFFFF_FFFF_FFFF_FFFF && InVocabulary(run.prompt) && InVocabulary(run.tokens) && Ordered(run.times)
  }

  /** What a field must hold: exactly this value, or a list of these numbers. */
  datatype Want = Is(value: Json) | Numbers(values: seq<int>)

  predicate Holds(j: Json, want: Want) {
    match want
    case Is(value) => j == value
    case Numbers(values) =>
      && j.List? && |j.items| == |values|
      && forall i :: 0 <= i < |values| ==> Number(j.items[i]) == Some(values[i] as real)
  }

  predicate HoldsAll(e: Json, record: map<string, Want>) {
    e.Dict? && forall key :: key in record ==> Holds(Get(e.fields, key), record[key])
  }

  function Event(kind: string): map<string, Want> {
    map["schema" := Is(Str("FerricQwen3TpLiveEventV1")), "authority" := Is(Str("none")), "event" := Is(Str(kind))]
  }

  function Request(run: Run): map<string, Want> {
    map["request_id" := Is(Int(run.requestId)), "name" := Is(Str(run.name))]
  }

  function QueuedRecord(run: Run): map<string, Want> {
    Event("queued") + Request(run) + map["prompt_tokens" := Is(Int(128))]
  }

  function AdmissionRecord(run: Run): map<string, Want> {
    Event("admission") + Request(run)
    + map["prompt_tokens" := Is(Ints(run.prompt)), "prompt_token_count" := Is(Int(128)),
          "cached_tokens" := Is(Int(0)), "cached_pages" := Is(Int(0))]
  }

  function TokenRecord(run: Run, k: nat): map<string, Want>
    requires k < |run.tokens| && k < |run.times|
  {
    Event("token") + Request(run)
    + map["index" := Is(Int(k)), "finished" := Is(Bool(k == 127)), "token" := Is(Int(run.tokens[k])),
          "completed_ns" := Is(Int(run.times[k]))]
  }

  /** Batch b of 135: prompt chunks of 16 rows up to batch 8, which yields the first
      token, then one row and one token each. */
  function BatchRecord(run: Run, b: nat, decodePackets: int): map<string, Want>
    requires b < 8 || b - 8 < |run.times|
  {
    Event("batch")
    + map["batch_id" := Is(Int(b)), "tick" := Is(Int(b - 1)), "rows" := Is(Int(if b <= 8 then 16 else 1)),
          "outputs" := Is(Int(if b < 8 then 0 else 1)), "output_head_rows" := Is(Int(if b < 8 then 0 else 1)),
          "rank_dispatch_counts" := Numbers([if b < 8 then 613 else if b == 8 then 616 else decodePackets])]
    + if b < 8 then map[] else map["completed_ns" := Is(Int(run.times[b - 8]))]
  }

  function RequestRecord(run: Run): map<string, Want> {
    Event("request") + Request(run)
    + map["admitted" := Is(Bool(true)), "state" := Is(Str("Completed")), "cancelled_ns" := Is(Null),
          "prompt_token_count" := Is(Int(128)), "prompt_tokens" := Numbers(run.prompt),
          "generated_tokens" := Numbers(run.tokens), "output_timestamps_ns" := Numbers(run.times),
          "cached_prefix_tokens" := Is(Int(0))]
  }

  function StoppedRecord(): map<string, Want> {
    Event("stopped") + map["reason" := Is(Str("drained")), "batches" := Is(Int(135))]
  }

  /** The fields of the i-th event, the drain left out. */
  function Record(run: Run, i: nat, decodePackets: int): map<string, Want>
    requires i < 268 && ValidRun(run)
  {
    if i == 0 then Event("ready")
    else if i == 1 then QueuedRecord(run)
    else if i == 2 then AdmissionRecord(run)
    else if i < 10 then BatchRecord(run, i - 2, decodePackets)
    else if i == 266 then RequestRecord(run)
    else if i == 267 then StoppedRecord()
    else if i % 2 == 0 then TokenRecord(run, (i - 10) / 2)
    else BatchRecord(run, (i - 11) / 2 + 8, decodePackets)
  }

  // ---- exact comparison

  lemma ExactScalar(j: Json, v: Json)
    requires v.Int? || v.Str? || v.Bool? || v.Null?
    ensures Exact(j, v) <==> j == v
  {}

  lemma ExactNumbers(j: Json, values: seq<int>)
    ensures Exact(j, Ints(values)) <==> Holds(j, Numbers(values))
  {
    if j.List? && |j.items| == |values| {
      forall i | 0 <= i < |values| ensures PyEq(j.items[i], Ints(values).items[i]) <==> Number(j.items[i]) == Some(values[i] as real) {
        PyEqInt(j.items[i], values[i]);
      }
    }
  }

  lemma PyEqInt(j: Json, n: int)
    ensures PyEq(j, Int(n)) <==> Number(j) == Some(n as real)
  {}

  // ---- slot by slot

  lemma HoldsUnion(e: Json, a: map<string, Want>, b: map<string, Want>)
    requires a.Keys !! b.Keys
    ensures HoldsAll(e, a + b) <==> HoldsAll(e, a) && HoldsAll(e, b)
  {
    hide Holds;
    forall key | key in a ensures key in a + b && (a + b)[key] == a[key] {}
    forall key | key in b ensures key in a + b && (a + b)[key] == b[key] {}
  }

  lemma KindIsEvent(e: Json, kind: string)
    ensures Kind(e, kind) <==> HoldsAll(e, Event(kind))
  {
    var r := Event(kind);
    assert "schema" in r && "authority" in r && "event" in r;
  }

  lemma RequestIsSame(e: Json, queued: Json, run: Run)
    requires e.Dict? && HoldsAll(queued, Request(run))
    ensures SameRequest(e.fields, queued.fields) <==> HoldsAll(e, Request(run))
  {
    var r := Request(run);
    assert "request_id" in r && "name" in r;
    ExactScalar(Get(e.fields, "request_id"), Int(run.requestId));
    ExactScalar(Get(e.fields, "name"), Str(run.name));
  }

  /** The events carry the request, prompt, tokens and times of the run. */
  predicate Carries(core: seq<Json>, run: Run) {
    && |core| == CORE && AllDicts(core)
    && HoldsAll(core[1], Request(run)) && Get(core[2].fields, "prompt_tokens") == Ints(run.prompt)
    && |run.tokens| == 128 && |run.times| == 128
    && forall k :: 0 <= k < 128 ==> CarriesToken(core, run, k)
  }

  predicate CarriesToken(core: seq<Json>, run: Run, k: nat)
    requires |core| == CORE && k < 128 && |run.tokens| == 128 && |run.times| == 128
  {
    var e := core[10 + 2 * k];
    e.Dict? && Get(e.fields, "token") == Int(run.tokens[k]) && Get(e.fields, "completed_ns") == Int(run.times[k])
  }

  lemma QueuedAgrees(e: Json, run: Run)
    requires e.Dict? && HoldsAll(e, Request(run)) && ValidRun(run)
    ensures Kind(e, "queued") && QueuedFields(e.fields) <==> HoldsAll(e, QueuedRecord(run))
  {
    hide HoldsAll, ValidRun;
    assert ValidRun(run) ==> 0 < run.requestId <= U64 by { Bounds(run); }
    var last := map["prompt_tokens" := Is(Int(128))];
    HoldsUnion(e, Event("queued") + Request(run), last);
    HoldsUnion(e, Event("queued"), Request(run));
    KindIsEvent(e, "queued");
    RequestValues(e, run);
    HoldsOne(e, "prompt_tokens", Is(Int(128)));
    ExactScalar(Get(e.fields, "prompt_tokens"), Int(128));
  }

  lemma Bounds(run: Run)
    requires ValidRun(run)
    ensures 0 < run.requestId <= U64
    ensures |run.prompt| == 128 && forall k :: 0 <= k < 128 ==> 0 <= run.prompt[k] < VOCABULARY
    ensures |run.tokens| == 128 && forall k :: 0 <= k < 128 ==> 0 <= run.tokens[k] < VOCABULARY
    ensures |run.times| == 128 && forall k :: 0 <= k < 128 ==> 0 <= run.times[k] <= U64
    ensures forall k :: 0 < k < 128 ==> run.times[k - 1] <= run.times[k]
  {}

  lemma RequestValues(e: Json, run: Run)
    requires HoldsAll(e, Request(run))
    ensures Get(e.fields, "request_id") == Int(run.requestId) && Get(e.fields, "name") == Str(run.name)
  {
    var r := Request(run);
    assert "request_id" in r && "name" in r;
  }

  lemma HoldsOne(e: Json, key: string, want: Want)
    requires e.Dict?
    ensures HoldsAll(e, map[key := want]) <==> Holds(Get(e.fields, key), want)
  {
    assert key in map[key := want];
  }

  lemma AdmissionAgrees(e: Json, queued: Json, run: Run)
    requires e.Dict? && HoldsAll(queued, Request(run)) && ValidRun(run) && Get(e.fields, "prompt_tokens") == Ints(run.prompt)
    ensures Kind(e, "admission") && SameRequest(e.fields, queued.fields) && AdmissionFields(e.fields)
            <==> HoldsAll(e, AdmissionRecord(run))
  {
    hide HoldsAll, ValidRun, SameRequest;
    Bounds(run);
    var last := map["prompt_tokens" := Is(Ints(run.prompt)), "prompt_token_count" := Is(Int(128)),
                    "cached_tokens" := Is(Int(0)), "cached_pages" := Is(Int(0))];
    HoldsUnion(e, Event("admission") + Request(run), last);
    HoldsUnion(e, Event("admission"), Request(run));
    KindIsEvent(e, "admission");
    RequestIsSame(e, queued, run);
    assert HoldsAll(e, last) <==>
           && Get(e.fields, "prompt_token_count") == Int(128)
           && Get(e.fields, "cached_tokens") == Int(0) && Get(e.fields, "cached_pages") == Int(0) by {
      AdmissionValues(e, run);
    }
    ExactScalar(Get(e.fields, "prompt_token_count"), Int(128));
    ExactScalar(Get(e.fields, "cached_tokens"), Int(0));
    ExactScalar(Get(e.fields, "cached_pages"), Int(0));
    assert IsPrompt(Ints(run.prompt));
  }

  lemma AdmissionValues(e: Json, run: Run)
    requires e.Dict? && Get(e.fields, "prompt_tokens") == Ints(run.prompt)
    ensures HoldsAll(e, map["prompt_tokens" := Is(Ints(run.prompt)), "prompt_token_count" := Is(Int(128)),
                            "cached_tokens" := Is(Int(0)), "cached_pages" := Is(Int(0))])
            <==> && Get(e.fields, "prompt_token_count") == Int(128)
                 && Get(e.fields, "cached_tokens") == Int(0) && Get(e.fields, "cached_pages") == Int(0)
  {
    var r := map["prompt_tokens" := Is(Ints(run.prompt)), "prompt_token_count" := Is(Int(128)),
                 "cached_tokens" := Is(Int(0)), "cached_pages" := Is(Int(0))];
    assert "prompt_token_count" in r && "cached_tokens" in r && "cached_pages" in r;
  }

  lemma TokenAgrees(e: Json, queued: Json, run: Run, k: nat)
    requires e.Dict? && HoldsAll(queued, Request(run)) && ValidRun(run) && k < 128
    requires Get(e.fields, "token") == Int(run.tokens[k]) && Get(e.fields, "completed_ns") == Int(run.times[k])
    ensures Kind(e, "token") && SameRequest(e.fields, queued.fields) && TokenFields(e.fields, k)
            <==> HoldsAll(e, TokenRecord(run, k))
  {
    hide HoldsAll, ValidRun, SameRequest;
    Bounds(run);
    var last := map["index" := Is(Int(k)), "finished" := Is(Bool(k == 127)), "token" := Is(Int(run.tokens[k])),
                    "completed_ns" := Is(Int(run.times[k]))];
    HoldsUnion(e, Event("token") + Request(run), last);
    HoldsUnion(e, Event("token"), Request(run));
    KindIsEvent(e, "token");
    RequestIsSame(e, queued, run);
    assert HoldsAll(e, last) <==> Get(e.fields, "index") == Int(k) && Get(e.fields, "finished") == Bool(k == 127) by {
      assert "index" in last && "finished" in last && "token" in last && "completed_ns" in last;
      TokenValues(e, run, k, last);
    }
    ExactScalar(Get(e.fields, "index"), Int(k));
    ExactScalar(Get(e.fields, "finished"), Bool(k == 127));
  }

  lemma TokenValues(e: Json, run: Run, k: nat, last: map<string, Want>)
    requires e.Dict? && k < |run.tokens| && k < |run.times|
    requires Get(e.fields, "token") == Int(run.tokens[k]) && Get(e.fields, "completed_ns") == Int(run.times[k])
    requires last == map["index" := Is(Int(k)), "finished" := Is(Bool(k == 127)), "token" := Is(Int(run.tokens[k])),
                         "completed_ns" := Is(Int(run.times[k]))]
    ensures HoldsAll(e, last) <==> Get(e.fields, "index") == Int(k) && Get(e.fields, "finished") == Bool(k == 127)
  {
    assert "index" in last && "finished" in last;
  }

  /** The numeric fields of a batch event. */
  function BatchNumbers(b: nat, decodePackets: int): map<string, Want> {
    map["batch_id" := Is(Int(b)), "tick" := Is(Int(b - 1)), "rows" := Is(Int(if b <= 8 then 16 else 1)),
        "outputs" := Is(Int(if b < 8 then 0 else 1)), "output_head_rows" := Is(Int(if b < 8 then 0 else 1)),
        "rank_dispatch_counts" := Numbers([if b < 8 then 613 else if b == 8 then 616 else decodePackets])]
  }

  lemma BatchFieldsAgree(e: Json, b: nat, decodePackets: int)
    requires e.Dict?
    ensures BatchFields(e.fields, b, decodePackets) <==> HoldsAll(e, BatchNumbers(b, decodePackets))
  {
    hide Exact, Holds;
    var r, f := BatchNumbers(b, decodePackets), e.fields;
    var outputs := if b < 8 then 0 else 1;
    assert "batch_id" in r && "tick" in r && "rows" in r && "outputs" in r && "output_head_rows" in r && "rank_dispatch_counts" in r;
    ScalarHolds(Get(f, "batch_id"), Int(b));
    ScalarHolds(Get(f, "tick"), Int(b - 1));
    ScalarHolds(Get(f, "rows"), Int(if b <= 8 then 16 else 1));
    ScalarHolds(Get(f, "outputs"), Int(outputs));
    ScalarHolds(Get(f, "output_head_rows"), Int(outputs));
    ExactNumbers(Get(f, "rank_dispatch_counts"), [Packets(b, decodePackets)]);
    assert Ints([Packets(b, decodePackets)]) == List([Int(Packets(b, decodePackets))]);
  }

  lemma ScalarHolds(j: Json, v: Json)
    requires v.Int? || v.Str? || v.Bool? || v.Null?
    ensures Exact(j, v) <==> Holds(j, Is(v))
  {
    ExactScalar(j, v);
  }

  lemma BatchAgrees(e: Json, run: Run, b: nat, decodePackets: int)
    requires e.Dict? && ValidRun(run) && 1 <= b <= 135
    ensures Kind(e, "batch") && BatchFields(e.fields, b, decodePackets)
            && (8 <= b ==> Get(e.fields, "completed_ns") == Int(run.times[b - 8]))
            <==> HoldsAll(e, BatchRecord(run, b, decodePackets))
  {
    hide HoldsAll, ValidRun;
    Bounds(run);
    var tail: map<string, Want> := if b < 8 then map[] else map["completed_ns" := Is(Int(run.times[b - 8]))];
    HoldsUnion(e, Event("batch") + BatchNumbers(b, decodePackets), tail);
    HoldsUnion(e, Event("batch"), BatchNumbers(b, decodePackets));
    KindIsEvent(e, "batch");
    BatchFieldsAgree(e, b, decodePackets);
    if b < 8 {
      HoldsNothing(e);
    } else {
      HoldsOne(e, "completed_ns", Is(Int(run.times[b - 8])));
    }
  }

  lemma HoldsNothing(e: Json)
    requires e.Dict?
    ensures HoldsAll(e, map[])
  {}

  function RequestWants(run: Run): map<string, Want> {
    map["admitted" := Is(Bool(true)), "state" := Is(Str("Completed")), "cancelled_ns" := Is(Null),
        "prompt_token_count" := Is(Int(128)), "prompt_tokens" := Numbers(run.prompt),
        "generated_tokens" := Numbers(run.tokens), "output_timestamps_ns" := Numbers(run.times),
        "cached_prefix_tokens" := Is(Int(0))]
  }

  lemma RequestFieldsAgree(e: Json, admission: Json, run: Run)
    requires e.Dict? && admission.Dict? && Get(admission.fields, "prompt_tokens") == Ints(run.prompt)
    ensures RequestFields(e.fields, admission.fields, run.tokens, run.times) <==> HoldsAll(e, RequestWants(run))
  {
    hide Exact, Holds;
    var r, f := RequestWants(run), e.fields;
    assert "admitted" in r && "state" in r && "cancelled_ns" in r && "prompt_token_count" in r;
    assert "prompt_tokens" in r && "generated_tokens" in r && "output_timestamps_ns" in r && "cached_prefix_tokens" in r;
    ScalarHolds(Get(f, "admitted"), Bool(true));
    ScalarHolds(Get(f, "state"), Str("Completed"));
    ScalarHolds(Get(f, "cancelled_ns"), Null);
    ScalarHolds(Get(f, "prompt_token_count"), Int(128));
    ScalarHolds(Get(f, "cached_prefix_tokens"), Int(0));
    ExactNumbers(Get(f, "prompt_tokens"), run.prompt);
    ExactNumbers(Get(f, "generated_tokens"), run.tokens);
    ExactNumbers(Get(f, "output_timestamps_ns"), run.times);
  }

  lemma RequestAgrees(e: Json, queued: Json, admission: Json, run: Run)
    requires e.Dict? && HoldsAll(queued, Request(run))
    requires admission.Dict? && Get(admission.fields, "prompt_tokens") == Ints(run.prompt)
    ensures Kind(e, "request") && SameRequest(e.fields, queued.fields)
            && RequestFields(e.fields, admission.fields, run.tokens, run.times)
            <==> HoldsAll(e, RequestRecord(run))
  {
    hide HoldsAll, SameRequest, RequestFields;
    HoldsUnion(e, Event("request") + Request(run), RequestWants(run));
    HoldsUnion(e, Event("request"), Request(run));
    KindIsEvent(e, "request");
    RequestIsSame(e, queued, run);
    RequestFieldsAgree(e, admission, run);
  }

  lemma StoppedAgrees(e: Json)
    requires e.Dict?
    ensures Kind(e, "stopped") && StoppedFields(e.fields) <==> HoldsAll(e, StoppedRecord())
  {
    var last := map["reason" := Is(Str("drained")), "batches" := Is(Int(135))];
    HoldsUnion(e, Event("stopped"), last);
    KindIsEvent(e, "stopped");
    ExactScalar(Get(e.fields, "batches"), Int(135));
    assert "reason" in last && "batches" in last;
  }

  // ---- all slots

  lemma ColumnIs(core: seq<Json>, run: Run)
    requires Carries(core, run)
    ensures Column(core[..266], "token") == run.tokens && Column(core[..266], "completed_ns") == run.times
  {
    hide HoldsAll;
    forall k | 0 <= k < 128
      ensures IntOf(core[10 + 2 * k], "token") == run.tokens[k] && IntOf(core[10 + 2 * k], "completed_ns") == run.times[k]
    {
      assert CarriesToken(core, run, k);
    }
  }

  /** With the run's values in place, an event fits its slot exactly when it has the
      fields of its record. */
  lemma SlotAgrees(core: seq<Json>, run: Run, i: nat, decodePackets: int)
    requires Carries(core, run) && ValidRun(run) && i < 268
    ensures Fits(core[..i], core[i], decodePackets) <==> HoldsAll(core[i], Record(run, i, decodePackets))
  {
    hide HoldsAll, ValidRun, Carries, Fits, Event, Request;
    if i < 3 {
      FirstSlotsAgree(core, run, i, decodePackets);
    } else if i < 10 {
      PromptSlotAgrees(core, run, i - 2, decodePackets);
    } else if i >= 266 {
      LastSlotsAgree(core, run, i, decodePackets);
    } else if i % 2 == 0 {
      TokenSlotAgrees(core, run, (i - 10) / 2, decodePackets);
    } else {
      BatchSlotAgrees(core, run, (i - 11) / 2, decodePackets);
    }
  }

  lemma FirstSlotsAgree(core: seq<Json>, run: Run, i: nat, decodePackets: int)
    requires Carries(core, run) && ValidRun(run) && i < 3
    ensures Fits(core[..i], core[i], decodePackets) <==> HoldsAll(core[i], Record(run, i, decodePackets))
  {
    hide HoldsAll, ValidRun, Kind, QueuedFields, SameRequest, AdmissionFields, CarriesToken, Event, Request, Column;
    var e, front := core[i], core[..i];
    assert 1 < i ==> front[1] == core[1];
    LiveKinds(e);
    if i == 0 {
      KindIsEvent(e, "ready");
    } else if i == 1 {
      QueuedAgrees(e, run);
    } else {
      AdmissionAgrees(e, core[1], run);
    }
  }

  lemma PromptSlotAgrees(core: seq<Json>, run: Run, b: nat, decodePackets: int)
    requires Carries(core, run) && ValidRun(run) && 1 <= b < 8
    ensures var i := b + 2;
            Fits(core[..i], core[i], decodePackets) <==> HoldsAll(core[i], BatchRecord(run, b, decodePackets))
  {
    hide HoldsAll, ValidRun, Kind, BatchFields, CarriesToken, Event, Request, Column;
    assert SlotOf(b + 2) == BatchSlot(b);
    LiveKinds(core[b + 2]);
    BatchAgrees(core[b + 2], run, b, decodePackets);
  }

  lemma LastSlotsAgree(core: seq<Json>, run: Run, i: nat, decodePackets: int)
    requires Carries(core, run) && ValidRun(run) && 266 <= i < 268
    ensures Fits(core[..i], core[i], decodePackets) <==> HoldsAll(core[i], Record(run, i, decodePackets))
  {
    hide HoldsAll, ValidRun, Kind, SameRequest, RequestFields, StoppedFields, CarriesToken, Event, Request, Column;
    var e, front := core[i], core[..i];
    assert front[1] == core[1] && front[2] == core[2];
    LiveKinds(e);
    if i == 266 {
      ColumnIs(core, run);
      RequestAgrees(e, core[1], core[2], run);
    } else {
      StoppedAgrees(e);
    }
  }

  lemma LiveKinds(e: Json)
    ensures forall kind :: Kind(e, kind) ==> IsLive(e)
  {}

  lemma CarriedToken(core: seq<Json>, run: Run, k: nat)
    requires Carries(core, run) && k < 128
    ensures var e := core[10 + 2 * k];
            && e.Dict? && Get(e.fields, "token") == Int(run.tokens[k]) && Get(e.fields, "completed_ns") == Int(run.times[k])
            && IntOf(e, "completed_ns") == run.times[k]
  {
    hide HoldsAll;
    assert CarriesToken(core, run, k);
  }

  lemma TokenSlotAgrees(core: seq<Json>, run: Run, k: nat, decodePackets: int)
    requires Carries(core, run) && ValidRun(run) && k < 128
    ensures var i := 10 + 2 * k;
            Fits(core[..i], core[i], decodePackets) <==> HoldsAll(core[i], TokenRecord(run, k))
  {
    hide HoldsAll, ValidRun, Kind, SameRequest, TokenFields, Column, CarriesToken;
    Bounds(run);
    var i := 10 + 2 * k;
    var e, front := core[i], core[..i];
    assert SlotOf(i) == TokenSlot(k) && front[1] == core[1];
    LiveKinds(e);
    CarriedToken(core, run, k);
    TokenAgrees(e, core[1], run, k);
    if 0 < k {
      CarriedToken(core, run, k - 1);
      assert front[i - 2] == core[10 + 2 * (k - 1)];
    }
  }

  lemma BatchSlotAgrees(core: seq<Json>, run: Run, k: nat, decodePackets: int)
    requires Carries(core, run) && ValidRun(run) && k < 128
    ensures var i := 11 + 2 * k;
            Fits(core[..i], core[i], decodePackets) <==> HoldsAll(core[i], BatchRecord(run, k + 8, decodePackets))
  {
    hide HoldsAll, ValidRun, Kind, BatchFields, Column, CarriesToken;
    Bounds(run);
    var i := 11 + 2 * k;
    var e, front := core[i], core[..i];
    assert SlotOf(i) == BatchSlot(k + 8) && front[i - 1] == core[10 + 2 * k];
    LiveKinds(e);
    CarriedToken(core, run, k);
    BatchAgrees(e, run, k + 8, decodePackets);
  }

  /** Every event holds the fields of its record. */
  ghost predicate Spelled(core: seq<Json>, run: Run, decodePackets: int) {
    && ValidRun(run) && |core| == 268
    && forall i :: 0 <= i < 268 ==> HoldsAll(core[i], Record(run, i, decodePackets))
  }

  lemma SpelledCarries(core: seq<Json>, run: Run, decodePackets: int)
    requires Spelled(core, run, decodePackets)
    ensures Carries(core, run)
  {
    hide HoldsAll, ValidRun;
    Bounds(run);
    forall i | 0 <= i < 268 ensures core[i].Dict? { HoldingIsDict(core[i], Record(run, i, decodePackets)); }
    assert HoldsAll(core[1], Record(run, 1, decodePackets)) && HoldsAll(core[2], Record(run, 2, decodePackets));
    HoldsUnion(core[1], Event("queued") + Request(run), map["prompt_tokens" := Is(Int(128))]);
    HoldsUnion(core[1], Event("queued"), Request(run));
    HoldsKey(core[2], AdmissionRecord(run), "prompt_tokens");
    forall k | 0 <= k < 128 ensures CarriesToken(core, run, k) { SpelledToken(core, run, k, decodePackets); }
  }

  lemma TokenWants(run: Run, k: nat)
    requires k < |run.tokens| && k < |run.times|
    ensures var r := TokenRecord(run, k);
            && "token" in r && r["token"] == Is(Int(run.tokens[k]))
            && "completed_ns" in r && r["completed_ns"] == Is(Int(run.times[k]))
  {}

  lemma SpelledToken(core: seq<Json>, run: Run, k: nat, decodePackets: int)
    requires Spelled(core, run, decodePackets) && k < 128
    ensures |run.tokens| == 128 && |run.times| == 128 && CarriesToken(core, run, k)
  {
    hide HoldsAll, ValidRun, TokenRecord, Event, Request;
    Bounds(run);
    var i := 10 + 2 * k;
    assert HoldsAll(core[i], Record(run, i, decodePackets)) && Record(run, i, decodePackets) == TokenRecord(run, k);
    TokenWants(run, k);
    HoldsKey(core[i], TokenRecord(run, k), "token");
    HoldsKey(core[i], TokenRecord(run, k), "completed_ns");
  }

  lemma HoldingIsDict(e: Json, record: map<string, Want>)
    requires HoldsAll(e, record)
    ensures e.Dict?
  {}

  lemma HoldsKey(e: Json, record: map<string, Want>, key: string)
    requires HoldsAll(e, record) && key in record
    ensures e.Dict? && Holds(Get(e.fields, key), record[key])
  {}

  /** The run that slotted events carry. */
  function RunOf(core: seq<Json>): Run
    requires |core| == CORE
  {
    var prompt := if core[2].Dict? && Get(core[2].fields, "prompt_tokens").List? then Get(core[2].fields, "prompt_tokens").items else [];
    Run(IntOf(core[1], "request_id"),
        if core[1].Dict? && Get(core[1].fields, "name").Str? then Get(core[1].fields, "name").s else "",
        seq(|prompt|, i requires 0 <= i < |prompt| => if prompt[i].Int? then prompt[i].n else 0),
        seq(128, k requires 0 <= k < 128 => IntOf(core[10 + 2 * k], "token")),
        seq(128, k requires 0 <= k < 128 => IntOf(core[10 + 2 * k], "completed_ns")))
  }

  lemma SlottedToken(core: seq<Json>, k: nat, decodePackets: int)
    requires |core| == CORE && WellSlotted(core, decodePackets) && k < 128
    ensures core[10 + 2 * k].Dict?
    ensures var e := core[10 + 2 * k].fields;
            && IsUnsigned(Get(e, "token")) && Get(e, "token").n < VOCABULARY && IsUnsigned(Get(e, "completed_ns"))
    ensures 0 < k ==> IntOf(core[8 + 2 * k], "completed_ns") <= IntOf(core[10 + 2 * k], "completed_ns")
  {
    hide Fits, Exact;
    var i := 10 + 2 * k;
    assert Fits(core[..i], core[i], decodePackets);
    TokenFits(core[..i], core[i], k, decodePackets);
    if 0 < k { assert core[..i][i - 2] == core[8 + 2 * k]; }
  }

  lemma TokenFits(front: seq<Json>, e: Json, k: nat, decodePackets: int)
    requires k < 128 && |front| == 10 + 2 * k && Fits(front, e, decodePackets)
    ensures e.Dict? && TokenFields(e.fields, k)
    ensures 0 < k ==> IntOf(front[|front| - 2], "completed_ns") <= IntOf(e, "completed_ns")
  {
    hide SameRequest, AdmissionFields, QueuedFields, BatchFields, RequestFields, StoppedFields, TokenFields, Column, IntOf;
    assert SlotOf(|front|) == TokenSlot(k);
  }

  lemma SlottedStart(core: seq<Json>, decodePackets: int)
    requires |core| == CORE && WellSlotted(core, decodePackets)
    ensures AllDicts(core)
    ensures QueuedFields(core[1].fields) && IsPrompt(Get(core[2].fields, "prompt_tokens"))
  {
    hide SameRequest, BatchFields, TokenFields, RequestFields, Column;
    forall i | 0 <= i < CORE ensures core[i].Dict? { assert Fits(core[..i], core[i], decodePackets); }
    assert Fits(core[..1], core[1], decodePackets) && Fits(core[..2], core[2], decodePackets);
  }

  lemma SlottedCarries(core: seq<Json>, decodePackets: int)
    requires |core| == CORE && WellSlotted(core, decodePackets)
    ensures ValidRun(RunOf(core)) && Carries(core, RunOf(core))
  {
    hide WellSlotted, HoldsAll;
    var run := RunOf(core);
    SlottedStart(core, decodePackets);
    forall k | 0 <= k < 128
      ensures CarriesToken(core, run, k) && 0 <= run.tokens[k] < VOCABULARY && 0 <= run.times[k] <= U64
      ensures 0 < k ==> run.times[k - 1] <= run.times[k]
    {
      SlottedToken(core, k, decodePackets);
      assert 0 < k ==> 10 + 2 * (k - 1) == 8 + 2 * k;
    }
    assert HoldsAll(core[1], Request(run)) by { StartHolds(core[1], run); }
    var prompt := Get(core[2].fields, "prompt_tokens");
    assert forall i :: 0 <= i < 128 ==> prompt.items[i] == Int(run.prompt[i]);
    assert prompt.items == Ints(run.prompt).items;
  }

  lemma StartHolds(e: Json, run: Run)
    requires e.Dict? && Get(e.fields, "request_id") == Int(run.requestId) && Get(e.fields, "name") == Str(run.name)
    ensures HoldsAll(e, Request(run))
  {}

  lemma SlottedIsSpelled(core: seq<Json>, run: Run, decodePackets: int)
    requires Carries(core, run) && ValidRun(run)
    ensures WellSlotted(core, decodePackets) <==> Spelled(core, run, decodePackets)
  {
    hide Carries, HoldsAll, Fits, ValidRun, Record;
    assert |core| == 268 by { CarriedLength(core, run); }
    forall i | 0 <= i < 268
      ensures Fits(core[..i], core[i], decodePackets) <==> HoldsAll(core[i], Record(run, i, decodePackets))
    {
      SlotAgrees(core, run, i, decodePackets);
    }
  }

  lemma CarriedLength(core: seq<Json>, run: Run)
    requires Carries(core, run)
    ensures |core| == 268
  {}

  /** A drain that the machine accepts. */
  predicate DrainHolds(e: Json) {
    HoldsAll(e, Event("draining") + map["reason" := Is(Str("command"))])
    || HoldsAll(e, Event("draining") + map["reason" := Is(Str("eof"))])
  }

  lemma DrainAgrees(events: seq<Json>, d: nat)
    requires d < |events|
    ensures DrainsAt(events, d) <==> DrainHolds(events[d])
  {
    hide HoldsAll;
    var e := events[d];
    KindIsEvent(e, "draining");
    HoldsUnion(e, Event("draining"), map["reason" := Is(Str("command"))]);
    HoldsUnion(e, Event("draining"), map["reason" := Is(Str("eof"))]);
    if e.Dict? {
      HoldsOne(e, "reason", Is(Str("command")));
      HoldsOne(e, "reason", Is(Str("eof")));
    } else {
      NoFieldsHeld(e);
    }
  }

  lemma NoFieldsHeld(e: Json)
    requires !e.Dict?
    ensures forall record :: !HoldsAll(e, record)
  {}

  /** The accepted event lists are exactly the spelled-out runs: some request, prompt,
      tokens and ordered times, one drain between ready and stopped, and every other
      event with the fields of its record. */
  lemma WorkloadsAreRuns(events: seq<Json>, decodePackets: int)
    ensures IsWorkload(events, decodePackets) <==>
            |events| == 269
            && exists run, d :: 1 <= d < 268 && DrainHolds(events[d]) && Spelled(Without(events, d), run, decodePackets)
  {
    hide WellSlotted, Spelled, DrainsAt, DrainHolds, Carries, ValidRun;
    if IsWorkload(events, decodePackets) {
      var d :| 1 <= d < CORE && DrainsAt(events, d) && WellSlotted(Without(events, d), decodePackets);
      var core := Without(events, d);
      SlottedCarries(core, decodePackets);
      SlottedIsSpelled(core, RunOf(core), decodePackets);
      DrainAgrees(events, d);
    }
    if |events| == 269 && exists run, d :: 1 <= d < 268 && DrainHolds(events[d]) && Spelled(Without(events, d), run, decodePackets) {
      var run, d :| 1 <= d < 268 && DrainHolds(events[d]) && Spelled(Without(events, d), run, decodePackets);
      var core := Without(events, d);
      SpelledCarries(core, run, decodePackets);
      assert ValidRun(run) by { SpelledRun(core, run, decodePackets); }
      SlottedIsSpelled(core, run, decodePackets);
      DrainAgrees(events, d);
    }
  }

  lemma SpelledRun(core: seq<Json>, run: Run, decodePackets: int)
    requires Spelled(core, run, decodePackets)
    ensures ValidRun(run)
  {}

  // ---- every run has a transcript

  function Value(want: Want): Json {
    match want case Is(value) => value case Numbers(values) => Ints(values)
  }

  function Written(record: map<string, Want>): Json {
    Dict(map key | key in record :: Value(record[key]))
  }

  lemma WrittenHolds(record: map<string, Want>)
    ensures HoldsAll(Written(record), record)
  {
    forall key | key in record ensures Holds(Get(Written(record).fields, key), record[key]) {
      if record[key].Numbers? { ExactNumbers(Ints(record[key].values), record[key].values); }
    }
  }

  /** The events of a run, with a drain after the first `d`. */
  function Events(run: Run, d: nat, decodePackets: int): seq<Json>
    requires ValidRun(run) && 1 <= d < 268
  {
    var core := seq(268, i requires 0 <= i < 268 => Written(Record(run, i, decodePackets)));
    core[..d] + [Written(Event("draining") + map["reason" := Is(Str("eof"))])] + core[d..]
  }

  /** Whatever the request, prompt, tokens and ordered times, and wherever the drain
      stands, the run is accepted. */
  lemma EveryRunIsAccepted(run: Run, d: nat, decodePackets: int)
    requires ValidRun(run) && 1 <= d < 268
    ensures IsWorkload(Events(run, d, decodePackets), decodePackets)
  {
    hide ValidRun, Record, Written, HoldsAll;
    var core := seq(268, i requires 0 <= i < 268 => Written(Record(run, i, decodePackets)));
    var events, drain := Events(run, d, decodePackets), Event("draining") + map["reason" := Is(Str("eof"))];
    assert Without(events, d) == core;
    forall i | 0 <= i < 268 ensures HoldsAll(core[i], Record(run, i, decodePackets)) {
      WrittenHolds(Record(run, i, decodePackets));
    }
    WrittenHolds(drain);
    assert events[d] == Written(drain) && Spelled(core, run, decodePackets) && DrainHolds(events[d]);
    WorkloadsAreRuns(events, decodePackets);
  }
}
