/** `validate_workload` of tools/summarize_packed_host_timing.py: the transcript
    state machine, and the language that it accepts. */
module Transcript {
  import opened Outcomes
  import opened Json

  type Fields = map<string, Json>

  const VOCABULARY: int := 151936
  const CORE: nat := 268

  // ---- field checks of single events

  predicate IsLive(e: Json) {
    && e.Dict?
    && Get(e.fields, "schema") == Str("FerricQwen3TpLiveEventV1")
    && Get(e.fields, "authority") == Str("none")
  }

  predicate Kind(e: Json, kind: string) {
    IsLive(e) && Get(e.fields, "event") == Str(kind)
  }

  function IntOf(e: Json, key: string): int {
    if e.Dict? && Get(e.fields, key).Int? then Get(e.fields, key).n else 0
  }

  predicate DrainFields(e: Fields) {
    Get(e, "reason") == Str("command") || Get(e, "reason") == Str("eof")
  }

  predicate StoppedFields(e: Fields) {
    Get(e, "reason") == Str("drained") && Exact(Get(e, "batches"), Int(135))
  }

  function Packets(batch: int, decodePackets: int): int {
    if batch < 8 then 613 else if batch == 8 then 616 else decodePackets
  }

  predicate BatchFields(e: Fields, batch: int, decodePackets: int) {
    var outputs := if batch < 8 then 0 else 1;
    && Exact(Get(e, "batch_id"), Int(batch))
    && Exact(Get(e, "tick"), Int(batch - 1))
    && Exact(Get(e, "rows"), Int(if batch <= 8 then 16 else 1))
    && Exact(Get(e, "outputs"), Int(outputs))
    && Exact(Get(e, "output_head_rows"), Int(outputs))
    && Exact(Get(e, "rank_dispatch_counts"), List([Int(Packets(batch, decodePackets))]))
  }

  predicate QueuedFields(e: Fields) {
    && IsUnsigned(Get(e, "request_id")) && Get(e, "request_id").n > 0
    && Get(e, "name").Str?
    && Exact(Get(e, "prompt_tokens"), Int(128))
  }

  predicate SameRequest(e: Fields, queued: Fields) {
    && Exact(Get(e, "request_id"), Get(queued, "request_id"))
    && Exact(Get(e, "name"), Get(queued, "name"))
  }

  predicate IsPrompt(j: Json) {
    && j.List? && |j.items| == 128
    && forall i :: 0 <= i < 128 ==> IsUnsigned(j.items[i]) && j.items[i].n < VOCABULARY
  }

  predicate AdmissionFields(e: Fields) {
    && IsPrompt(Get(e, "prompt_tokens"))
    && Exact(Get(e, "prompt_token_count"), Int(128))
    && Exact(Get(e, "cached_tokens"), Int(0))
    && Exact(Get(e, "cached_pages"), Int(0))
  }

  predicate TokenFields(e: Fields, index: int) {
    && Exact(Get(e, "index"), Int(index))
    && Exact(Get(e, "finished"), Bool(index == 127))
    && IsUnsigned(Get(e, "token")) && Get(e, "token").n < VOCABULARY
    && IsUnsigned(Get(e, "completed_ns"))
  }

  function Ints(values: seq<int>): Json {
    List(seq(|values|, i requires 0 <= i < |values| => Int(values[i])))
  }

  predicate RequestFields(e: Fields, admission: Fields, tokens: seq<int>, timestamps: seq<int>) {
    && Exact(Get(e, "admitted"), Bool(true))
    && Exact(Get(e, "state"), Str("Completed"))
    && Exact(Get(e, "cancelled_ns"), Null)
    && Exact(Get(e, "prompt_token_count"), Int(128))
    && Exact(Get(e, "prompt_tokens"), Get(admission, "prompt_tokens"))
    && Exact(Get(e, "generated_tokens"), Ints(tokens))
    && Exact(Get(e, "output_timestamps_ns"), Ints(timestamps))
    && Exact(Get(e, "cached_prefix_tokens"), Int(0))
  }

  // ---- the language: 268 events in fixed slots

  datatype Slot =
    | ReadySlot | QueuedSlot | AdmissionSlot | BatchSlot(batch: nat) | TokenSlot(index: nat) | RequestSlot | StoppedSlot

  /** ready, queued, admission, batches 1 to 7, then token k and batch k + 8 for k
      from 0 to 127, request, stopped. */
  function SlotOf(i: nat): Slot
    requires i < CORE
  {
    if i == 0 then ReadySlot
    else if i == 1 then QueuedSlot
    else if i == 2 then AdmissionSlot
    else if i < 10 then BatchSlot(i - 2)
    else if i < 266 then if i % 2 == 0 then TokenSlot((i - 10) / 2) else BatchSlot((i - 11) / 2 + 8)
    else if i == 266 then RequestSlot
    else StoppedSlot
  }

  function TokenCount(n: nat): nat {
    if n <= 10 then 0 else if n <= 266 then (n - 9) / 2 else 128
  }

  function Column(core: seq<Json>, key: string): seq<int>
    requires |core| <= CORE
  {
    seq(TokenCount(|core|), k requires 0 <= k < TokenCount(|core|) => IntOf(core[10 + 2 * k], key))
  }

  predicate AllDicts(core: seq<Json>) {
    forall i :: 0 <= i < |core| ==> core[i].Dict?
  }

  /** The event `e` fits right after the events `core`. */
  predicate Fits(core: seq<Json>, e: Json, decodePackets: int) {
    && |core| < CORE && AllDicts(core) && IsLive(e)
    && match SlotOf(|core|)
       case ReadySlot => Kind(e, "ready")
       case QueuedSlot => Kind(e, "queued") && QueuedFields(e.fields)
       case AdmissionSlot => Kind(e, "admission") && SameRequest(e.fields, core[1].fields) && AdmissionFields(e.fields)
       case BatchSlot(batch) =>
         && Kind(e, "batch") && BatchFields(e.fields, batch, decodePackets)
         && (8 <= batch ==> IsUnsigned(Get(e.fields, "completed_ns"))
                            && IntOf(e, "completed_ns") == IntOf(core[|core| - 1], "completed_ns"))
       case TokenSlot(k) =>
         && Kind(e, "token") && SameRequest(e.fields, core[1].fields) && TokenFields(e.fields, k)
         && (0 < k ==> IntOf(core[|core| - 2], "completed_ns") <= IntOf(e, "completed_ns"))
       case RequestSlot =>
         && Kind(e, "request") && SameRequest(e.fields, core[1].fields)
         && RequestFields(e.fields, core[2].fields, Column(core, "token"), Column(core, "completed_ns"))
       case StoppedSlot => Kind(e, "stopped") && StoppedFields(e.fields)
  }

  predicate WellSlotted(core: seq<Json>, decodePackets: int) {
    |core| <= CORE && forall i :: 0 <= i < |core| ==> Fits(core[..i], core[i], decodePackets)
  }

  /** The events without the one at position `d`. */
  function Without(events: seq<Json>, d: nat): seq<Json>
    requires d < |events|
  {
    events[..d] + events[d + 1..]
  }

  predicate DrainsAt(events: seq<Json>, d: nat) {
    d < |events| && Kind(events[d], "draining") && DrainFields(events[d].fields)
  }

  /** One drain after ready and before stopped, and every other event in its slot. */
  ghost predicate IsWorkload(events: seq<Json>, decodePackets: int) {
    && |events| == CORE + 1
    && exists d :: 1 <= d < CORE && DrainsAt(events, d) && WellSlotted(Without(events, d), decodePackets)
  }

  // ---- the slot automaton

  datatype Seen = Seen(core: seq<Json>, drained: bool)

  function Extend(seen: Seen, e: Json, decodePackets: int): Option<Seen> {
    if Kind(e, "draining") then
      if 1 <= |seen.core| < CORE && !seen.drained && DrainFields(e.fields) then Some(seen.(drained := true)) else None
    else if Fits(seen.core, e, decodePackets) && (|seen.core| == CORE - 1 ==> seen.drained)
    then Some(seen.(core := seen.core + [e]))
    else None
  }

  function Follow(events: seq<Json>, decodePackets: int): Option<Seen> {
    if events == [] then Some(Seen([], false))
    else
      var before := Follow(events[..|events| - 1], decodePackets);
      if before.None? then None else Extend(before.value, events[|events| - 1], decodePackets)
  }

  /** The events passed so far, split by where the drain stood. */
  predicate Splits(events: seq<Json>, seen: Seen, d: nat) {
    if seen.drained then DrainsAt(events, d) && 1 <= d && seen.core == Without(events, d)
    else seen.core == events
  }

  lemma {:induction false} FollowSound(events: seq<Json>, decodePackets: int) returns (d: nat)
    requires Follow(events, decodePackets).Some?
    ensures var seen := Follow(events, decodePackets).value;
            && WellSlotted(seen.core, decodePackets)
            && Splits(events, seen, d)
            && (seen.drained ==> d < CORE)
            && (|seen.core| == CORE ==> seen.drained)
  {
    hide Fits, Kind, WellSlotted, DrainFields;
    d := 0;
    EmptyIsSlotted(decodePackets);
    if events != [] {
      var n := |events| - 1;
      var front, e := events[..n], events[n];
      d := FollowSound(front, decodePackets);
      var before, seen := Follow(front, decodePackets).value, Follow(events, decodePackets).value;
      if Kind(e, "draining") {
        d := n;
        assert Without(events, n) == front;
      } else {
        SlotsExtend(before.core, e, decodePackets);
        if seen.drained {
          assert Without(events, d) == Without(front, d) + [e];
          assert events[d] == front[d];
        } else {
          assert events == front + [e];
        }
      }
    }
  }

  lemma EmptyIsSlotted(decodePackets: int)
    ensures WellSlotted([], decodePackets)
  {
  }

  lemma SlotsExtend(core: seq<Json>, e: Json, decodePackets: int)
    requires WellSlotted(core, decodePackets) && Fits(core, e, decodePackets)
    ensures WellSlotted(core + [e], decodePackets)
  {
    var longer := core + [e];
    forall i | 0 <= i < |longer| ensures Fits(longer[..i], longer[i], decodePackets) {
      if i < |core| { assert longer[..i] == core[..i]; } else { assert longer[..i] == core; }
    }
  }

  /** A drain is in no slot. */
  lemma SlotIsNotDrain(core: seq<Json>, e: Json, decodePackets: int)
    requires Fits(core, e, decodePackets)
    ensures !Kind(e, "draining")
  {
  }

  lemma {:induction false} FollowComplete(events: seq<Json>, d: nat, n: nat, decodePackets: int)
    requires |events| == CORE + 1 && 1 <= d < CORE && n <= |events|
    requires DrainsAt(events, d) && WellSlotted(Without(events, d), decodePackets)
    ensures Follow(events[..n], decodePackets)
            == Some(if n <= d then Seen(events[..n], false) else Seen(Without(events, d)[..n - 1], true))
    decreases n
  {
    hide Fits, Kind, DrainFields;
    var core := Without(events, d);
    if n != 0 {
      FollowComplete(events, d, n - 1, decodePackets);
      assert events[..n][..n - 1] == events[..n - 1];
      if n <= d {
        assert core[n - 1] == events[n - 1] && core[..n - 1] == events[..n - 1];
        assert Fits(core[..n - 1], core[n - 1], decodePackets);
        SlotIsNotDrain(core[..n - 1], core[n - 1], decodePackets);
        assert events[..n - 1] + [events[n - 1]] == events[..n];
      } else if n == d + 1 {
        assert core[..d] == events[..d];
      } else {
        assert core[n - 2] == events[n - 1];
        assert Fits(core[..n - 2], core[n - 2], decodePackets);
        SlotIsNotDrain(core[..n - 2], core[n - 2], decodePackets);
        assert core[..n - 2] + [core[n - 2]] == core[..n - 1];
      }
    }
  }

  /** The automaton ends with all slots filled exactly on the language. */
  lemma FollowIsWorkload(events: seq<Json>, decodePackets: int)
    ensures (Follow(events, decodePackets).Some? && |Follow(events, decodePackets).value.core| == CORE)
            <==> IsWorkload(events, decodePackets)
  {
    if Follow(events, decodePackets).Some? && |Follow(events, decodePackets).value.core| == CORE {
      var d := FollowSound(events, decodePackets);
    }
    if IsWorkload(events, decodePackets) {
      var d :| 1 <= d < CORE && DrainsAt(events, d) && WellSlotted(Without(events, d), decodePackets);
      FollowComplete(events, d, |events|, decodePackets);
      assert events[..|events|] == events;
      assert Without(events, d)[..CORE] == Without(events, d);
    }
  }

  // ---- the machine

  /** The variables of the validation loop. */
  datatype Machine = Machine(
    queued: Option<Fields>, admitted: Option<Fields>, completed: Option<Fields>,
    tokens: seq<int>, timestamps: seq<int>,
    batches: int, ready: int, drains: int, stops: int, pending: Option<int>)

  function BatchCount(n: nat): int {
    if n <= 3 then 0 else if n <= 10 then n - 3 else if n <= 266 then 7 + (n - 10) / 2 else 135
  }

  function FieldsAt(core: seq<Json>, i: nat): Option<Fields> {
    if i < |core| && core[i].Dict? then Some(core[i].fields) else None
  }

  /** The value of every variable after the events `seen`. */
  function StateOf(seen: Seen): Machine
    requires |seen.core| <= CORE
  {
    var core, n := seen.core, |seen.core|;
    Machine(
      FieldsAt(core, 1), FieldsAt(core, 2), FieldsAt(core, 266),
      Column(core, "token"), Column(core, "completed_ns"),
      BatchCount(n), if n == 0 then 0 else 1, if seen.drained then 1 else 0, if n == CORE then 1 else 0,
      if 10 < n < 266 && n % 2 == 1 then Some(IntOf(core[n - 1], "completed_ns")) else None)
  }

  predicate Reachable(seen: Seen) {
    && |seen.core| <= CORE && AllDicts(seen.core)
    && (seen.drained ==> 1 <= |seen.core|) && (|seen.core| == CORE ==> seen.drained)
  }

  /** What a branch must return: the next state when the event extends the run. */
  function Expected(seen: Seen, e: Json, decodePackets: int): Option<Machine>
    requires Reachable(seen)
  {
    var next := Extend(seen, e, decodePackets);
    if next.None? then None else Some(StateOf(next.value))
  }

  lemma ColumnKeeps(core: seq<Json>, e: Json, key: string)
    requires |core| < CORE
    ensures Column(core + [e], key)
            == if SlotOf(|core|).TokenSlot? then Column(core, key) + [IntOf(e, key)] else Column(core, key)
  {
    var longer := core + [e];
    assert forall k :: 0 <= k < TokenCount(|core|) ==> longer[10 + 2 * k] == core[10 + 2 * k];
    if SlotOf(|core|).TokenSlot? {
      assert TokenCount(|longer|) == TokenCount(|core|) + 1;
      assert 10 + 2 * TokenCount(|core|) == |core|;
    }
  }

  lemma FieldsAtKeeps(core: seq<Json>, e: Json, i: nat)
    requires e.Dict? && AllDicts(core)
    ensures FieldsAt(core + [e], i) == if i == |core| then Some(e.fields) else FieldsAt(core, i)
  {
  }

  lemma StateKeeps(seen: Seen, e: Json)
    requires |seen.core| < CORE && e.Dict? && AllDicts(seen.core)
    ensures var m, n := StateOf(seen), |seen.core|;
            var next := StateOf(seen.(core := seen.core + [e]));
            && next.queued == (if n == 1 then Some(e.fields) else m.queued)
            && next.admitted == (if n == 2 then Some(e.fields) else m.admitted)
            && next.completed == (if n == 266 then Some(e.fields) else m.completed)
            && next.tokens == (if SlotOf(n).TokenSlot? then m.tokens + [IntOf(e, "token")] else m.tokens)
            && next.timestamps
               == (if SlotOf(n).TokenSlot? then m.timestamps + [IntOf(e, "completed_ns")] else m.timestamps)
            && next.batches == (if SlotOf(n).BatchSlot? then m.batches + 1 else m.batches)
            && next.ready == 1 && next.drains == m.drains
            && next.stops == (if n == 267 then 1 else 0)
            && next.pending == (if SlotOf(n).TokenSlot? then Some(IntOf(e, "completed_ns")) else None)
  {
    FieldsAtKeeps(seen.core, e, 1);
    FieldsAtKeeps(seen.core, e, 2);
    FieldsAtKeeps(seen.core, e, 266);
    ColumnKeeps(seen.core, e, "token");
    ColumnKeeps(seen.core, e, "completed_ns");
  }

  /** The `batch` branch. */
  method OnBatch(m: Machine, e: Json, decodePackets: int, ghost seen: Seen) returns (r: Option<Machine>)
    requires Reachable(seen) && m == StateOf(seen) && Kind(e, "batch") && m.stops == 0
    ensures r == Expected(seen, e, decodePackets)
  {
    hide BatchFields, Column;
    StateKeeps(seen, e);
    if !(m.admitted.Some? && m.completed.None? && m.batches < 135) {
      return None;
    }
    var batches := m.batches + 1;
    var outputs := if batches < 8 then 0 else 1;
    if !BatchFields(e.fields, batches, decodePackets) {
      return None;
    }
    if outputs == 1 {
      var completed := Get(e.fields, "completed_ns");
      if !IsUnsigned(completed) || m.pending != Some(completed.n) {
        return None;
      }
    } else if m.pending.Some? {
      return None;
    }
    r := Some(m.(batches := batches, pending := None));
  }

  method OnQueued(m: Machine, e: Json, decodePackets: int, ghost seen: Seen) returns (r: Option<Machine>)
    requires Reachable(seen) && m == StateOf(seen) && Kind(e, "queued") && m.stops == 0
    ensures r == Expected(seen, e, decodePackets)
  {
    hide QueuedFields, Column;
    StateKeeps(seen, e);
    if m.ready != 1 || !(m.queued.None? && m.admitted.None? && m.batches == 0) || !QueuedFields(e.fields) {
      return None;
    }
    r := Some(m.(queued := Some(e.fields)));
  }

  method OnAdmission(m: Machine, e: Json, decodePackets: int, ghost seen: Seen) returns (r: Option<Machine>)
    requires Reachable(seen) && m == StateOf(seen) && Kind(e, "admission") && m.stops == 0
    ensures r == Expected(seen, e, decodePackets)
  {
    hide AdmissionFields, SameRequest, Column;
    StateKeeps(seen, e);
    if m.ready != 1 || !(m.queued.Some? && m.completed.None?) || !SameRequest(e.fields, m.queued.value) {
      return None;
    }
    if !(m.admitted.None? && m.batches == 0) || !AdmissionFields(e.fields) {
      return None;
    }
    r := Some(m.(admitted := Some(e.fields)));
  }

  /** The guard of the token branch holds exactly in a token slot, and there the
      last timestamp is that of the previous token. */
  lemma TokenTurn(seen: Seen)
    requires Reachable(seen) && |seen.core| < CORE
    ensures var m, n := StateOf(seen), |seen.core|;
            && ((m.admitted.Some? && |m.tokens| < 128 && m.pending.None? && m.batches == |m.tokens| + 7)
                <==> SlotOf(n).TokenSlot?)
            && (SlotOf(n).TokenSlot? ==>
                  && SlotOf(n).index == |m.tokens| == |m.timestamps|
                  && (|m.tokens| > 0 ==> m.timestamps[|m.tokens| - 1] == IntOf(seen.core[n - 2], "completed_ns")))
  {
  }

  method OnToken(m: Machine, e: Json, decodePackets: int, ghost seen: Seen) returns (r: Option<Machine>)
    requires Reachable(seen) && m == StateOf(seen) && Kind(e, "token") && m.stops == 0
    ensures r == Expected(seen, e, decodePackets)
  {
    hide SameRequest, Column, TokenCount, BatchCount, Exact;
    StateKeeps(seen, e);
    TokenTurn(seen);
    if m.ready != 1 || !(m.queued.Some? && m.completed.None?) || !SameRequest(e.fields, m.queued.value) {
      return None;
    }
    if !(m.admitted.Some? && |m.tokens| < 128 && m.pending.None? && m.batches == |m.tokens| + 7) {
      return None;
    }
    if !TokenFields(e.fields, |m.tokens|) {
      return None;
    }
    var completed := Get(e.fields, "completed_ns").n;
    if m.timestamps != [] && m.timestamps[|m.timestamps| - 1] > completed {
      return None;
    }
    r := Some(m.(tokens := m.tokens + [Get(e.fields, "token").n], timestamps := m.timestamps + [completed],
                 pending := Some(completed)));
  }

  method OnRequest(m: Machine, e: Json, decodePackets: int, ghost seen: Seen) returns (r: Option<Machine>)
    requires Reachable(seen) && m == StateOf(seen) && Kind(e, "request") && m.stops == 0
    ensures r == Expected(seen, e, decodePackets)
  {
    hide SameRequest, RequestFields, Column;
    StateKeeps(seen, e);
    if m.ready != 1 || !(m.queued.Some? && m.completed.None?) || !SameRequest(e.fields, m.queued.value) {
      return None;
    }
    TokensComplete(seen);
    if !(m.admitted.Some? && m.batches == 135 && |m.tokens| == 128 && m.pending.None?) {
      return None;
    }
    if !RequestFields(e.fields, m.admitted.value, m.tokens, m.timestamps) {
      return None;
    }
    r := Some(m.(completed := Some(e.fields)));
  }

  lemma TokensComplete(seen: Seen)
    requires |seen.core| <= CORE
    ensures |StateOf(seen).tokens| == TokenCount(|seen.core|)
  {
  }

  /** Ready, draining, stopped, or an event that no branch admits. */
  method OnControl(m: Machine, position: nat, e: Json, decodePackets: int, ghost seen: Seen) returns (r: Option<Machine>)
    requires Reachable(seen) && m == StateOf(seen) && IsLive(e) && m.stops == 0
    requires position == |seen.core| + if seen.drained then 1 else 0
    requires !Kind(e, "batch") && !Kind(e, "queued") && !Kind(e, "admission") && !Kind(e, "token") && !Kind(e, "request")
    ensures r == Expected(seen, e, decodePackets)
  {
    hide Column;
    StateKeeps(seen, e);
    var kind := Get(e.fields, "event");
    if kind == Str("ready") {
      if !(position == 0 && m.ready == 0) {
        return None;
      }
      return Some(m.(ready := m.ready + 1));
    }
    if kind == Str("draining") {
      if !(m.ready == 1 && m.drains == 0 && DrainFields(e.fields)) {
        return None;
      }
      return Some(m.(drains := m.drains + 1));
    }
    if kind == Str("stopped") {
      if !(m.completed.Some? && m.drains == 1 && StoppedFields(e.fields)) {
        return None;
      }
      return Some(m.(stops := m.stops + 1));
    }
    r := None;
  }

  method OnEvent(m: Machine, position: nat, e: Json, decodePackets: int, ghost seen: Seen) returns (r: Option<Machine>)
    requires Reachable(seen) && m == StateOf(seen)
    requires position == |seen.core| + if seen.drained then 1 else 0
    ensures r == Expected(seen, e, decodePackets)
  {
    if !IsLive(e) || m.stops != 0 {
      return None;
    }
    var kind := Get(e.fields, "event");
    if kind == Str("batch") {
      r := OnBatch(m, e, decodePackets, seen);
    } else if kind == Str("queued") {
      r := OnQueued(m, e, decodePackets, seen);
    } else if kind == Str("admission") {
      r := OnAdmission(m, e, decodePackets, seen);
    } else if kind == Str("token") {
      r := OnToken(m, e, decodePackets, seen);
    } else if kind == Str("request") {
      r := OnRequest(m, e, decodePackets, seen);
    } else {
      r := OnControl(m, position, e, decodePackets, seen);
    }
  }

  lemma {:induction false} RejectionStays(events: seq<Json>, k: nat, decodePackets: int)
    requires k <= |events| && Follow(events[..k], decodePackets).None?
    ensures Follow(events, decodePackets).None?
    decreases |events|
  {
    if k < |events| {
      assert events[..|events| - 1][..k] == events[..k];
      RejectionStays(events[..|events| - 1], k, decodePackets);
    } else {
      assert events[..k] == events;
    }
  }

  lemma ExtendStaysReachable(seen: Seen, e: Json, decodePackets: int)
    requires Reachable(seen) && Extend(seen, e, decodePackets).Some?
    ensures var next := Extend(seen, e, decodePackets).value;
            && Reachable(next)
            && |next.core| + (if next.drained then 1 else 0) == |seen.core| + (if seen.drained then 1 else 0) + 1
  {
  }

  lemma FinalState(seen: Seen)
    requires Reachable(seen)
    ensures var m := StateOf(seen);
            (m.ready == 1 && m.drains == 1 && m.stops == 1 && m.completed.Some?) <==> |seen.core| == CORE
  {
  }

  lemma InitialState()
    ensures StateOf(Seen([], false)) == Machine(None, None, None, [], [], 0, 0, 0, 0, None)
  {
  }

  /** The loop over the events between setup and close. */
  method ValidateEvents(events: seq<Json>, decodePackets: int) returns (accepted: bool)
    ensures accepted <==> IsWorkload(events, decodePackets)
  {
    hide Fits, StateOf, IsWorkload, Extend;
    FollowIsWorkload(events, decodePackets);
    var m := Machine(None, None, None, [], [], 0, 0, 0, 0, None);
    ghost var seen := Seen([], false);
    InitialState();
    for position := 0 to |events|
      invariant Follow(events[..position], decodePackets) == Some(seen)
      invariant Reachable(seen) && m == StateOf(seen)
      invariant position == |seen.core| + if seen.drained then 1 else 0
    {
      assert events[..position + 1][..position] == events[..position];
      var next := OnEvent(m, position, events[position], decodePackets, seen);
      if next.None? {
        RejectionStays(events, position + 1, decodePackets);
        return false;
      }
      ExtendStaysReachable(seen, events[position], decodePackets);
      seen := Extend(seen, events[position], decodePackets).value;
      m := next.value;
    }
    assert events[..|events|] == events;
    FinalState(seen);
    accepted := m.ready == 1 && m.drains == 1 && m.stops == 1 && m.completed.Some?;
  }

  /** `validate_workload` accepts a transcript exactly when its first and last
      records are the setup and close objects and the events between them are a
      workload in the declared language. */
  method ValidateWorkload(transcript: seq<Json>, setup: Json, closed: Json, decodePackets: int) returns (accepted: bool)
    ensures accepted <==>
            && 2 <= |transcript|
            && Exact(transcript[0], setup) && Exact(transcript[|transcript| - 1], closed)
            && IsWorkload(transcript[1..|transcript| - 1], decodePackets)
  {
    if |transcript| < 2 || !Exact(transcript[0], setup) || !Exact(transcript[|transcript| - 1], closed) {
      return false;
    }
    accepted := ValidateEvents(transcript[1..|transcript| - 1], decodePackets);
  }
}
