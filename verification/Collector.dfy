/** The collection order of benches/m1/d10_collect.rs and the sample-identity and
    order checks that benches/m1/d10_observations.rs makes on the collected rows. */
module Collector {
  import opened Outcomes

  const CASE_ROSTER: seq<string> :=
    ["flash-attention-prefill", "gemm-gemv", "gqa-paged-decode", "logits-argmax",
     "rmsnorm-residual", "rope-paged-kv", "swiglu-projection"]
  const IMPLEMENTATIONS: seq<string> := ["ferric-reference", "ferric", "vendor"]
  const WARMUPS: nat := 10
  const RECORDED: nat := 30

  datatype Member = Member(id: string, sha256: string)

  datatype Order = Order(warmupSha256: string, recordedSha256: string)

  /** A measurement command; `held` says that the executable with this digest could be opened. */
  datatype Command = Command(binary: string, protocol: string, arguments: seq<string>, held: bool)

  datatype Budget = Budget(amount: nat, unit: string)

  /** What the policy pins for the three implementations of one case. */
  datatype Pins = Pins(binaries: seq<Option<string>>, configs: seq<Option<string>>, resources: string, inspection: string)

  /** The validated policy: holdout roster, vendor applicability, order digests and pins
      by case, and the identities that hold for all cases.  The collector checks
      `environment` against the telemetry policy and writes it into the document, where
      the validator finds it. */
  datatype Policy = Policy(members: seq<Member>, vendorApplicable: seq<bool>, orders: seq<Order>, pins: seq<Pins>,
                           referenceProtocol: string, measurementRoster: string, environment: string, bindings: string,
                           ferricBudget: Budget, vendorBudget: Budget, isSha: string -> bool, digest: Command -> string)

  /** A policy that its own validator accepted; digests are SHA-256. */
  ghost predicate ValidPolicy(policy: Policy) {
    Shaped(policy) && forall command :: policy.isSha(policy.digest(command))
  }

  /** Vendor digests are pinned exactly when the vendor is applicable, the other two always. */
  predicate PinsOk(pins: Pins, vendorApplicable: bool) {
    && |pins.binaries| == |IMPLEMENTATIONS| && |pins.configs| == |IMPLEMENTATIONS|
    && forall i :: 0 <= i < |IMPLEMENTATIONS| ==>
         (pins.binaries[i].Some? <==> IMPLEMENTATIONS[i] != "vendor" || vendorApplicable)
         && (pins.configs[i].Some? <==> IMPLEMENTATIONS[i] != "vendor" || vendorApplicable)
  }

  /** The policy documents have one entry for every case. */
  predicate Shaped(policy: Policy) {
    && |policy.vendorApplicable| == |CASE_ROSTER| && |policy.orders| == |CASE_ROSTER| && |policy.pins| == |CASE_ROSTER|
    && forall c :: 0 <= c < |policy.pins| ==> PinsOk(policy.pins[c], policy.vendorApplicable[c])
  }

  /** One line of an order projection; its digest is an arbitrary function. */
  datatype Projection = Projection(member: Option<Member>, implementation: string, sampleIds: seq<string>)

  type Identity = seq<Projection> -> string

  datatype Fault =
    | RosterDrifted | MemberNotAdmitted | ImplementationDrifted | OrderDrifted
    | CommandDrifted | ResourcesDrifted | InspectionFailed | ProvenanceDrifted
    | MeasurementFailed | SampleCountDrifted | SequenceDrifted | UnsafeId | RepeatedId | MemberNotShared

  /** `name != "vendor" || vendor_applicable`. */
  predicate Applicable(policy: Policy, c: nat, i: nat)
    requires c < |policy.vendorApplicable| && i < |IMPLEMENTATIONS|
  {
    IMPLEMENTATIONS[i] != "vendor" || policy.vendorApplicable[c]
  }

  // ---- identifiers

  predicate SafeChar(c: char) {
    'a' <= c <= 'z' || '0' <= c <= '9' || c == '.' || c == '-'
  }

  predicate SafeId(s: string) {
    s != [] && |s| <= 160 && forall c :: c in s ==> SafeChar(c)
  }

  function Digit(n: nat): (c: char)
    requires n < 10
    ensures '0' <= c <= '9' && c as int - '0' as int == n
  {
    '0' + n as char
  }

  function Decimal(n: nat): string {
    if n < 10 then [Digit(n)] else Decimal(n / 10) + [Digit(n % 10)]
  }

  /** The format `{:02}`. */
  function Padded(n: nat): string {
    if n < 10 then "0" + Decimal(n) else Decimal(n)
  }

  function SampleId(caseId: string, implementation: string, phase: string, sequence: nat): string {
    caseId + "." + implementation + "." + phase + "." + Padded(sequence)
  }

  function SampleIds(caseId: string, implementation: string, phase: string, count: nat): seq<string> {
    seq(count, sequence requires 0 <= sequence => SampleId(caseId, implementation, phase, sequence))
  }

  predicate DotFree(s: string) {
    '.' !in s
  }

  predicate Digits(s: string) {
    forall c :: c in s ==> '0' <= c <= '9'
  }

  function Value(s: string): int {
    if s == [] then 0 else 10 * Value(s[..|s| - 1]) + (s[|s| - 1] as int - '0' as int)
  }

  lemma {:induction false} DecimalValue(n: nat)
    ensures Value(Decimal(n)) == n && Digits(Decimal(n)) && 1 <= |Decimal(n)|
  {
    if n < 10 {
      assert Decimal(n)[..0] == [];
    } else {
      DecimalValue(n / 10);
      assert Decimal(n)[..|Decimal(n)| - 1] == Decimal(n / 10);
    }
  }

  lemma PaddedValue(n: nat)
    ensures Value(Padded(n)) == n && Digits(Padded(n)) && DotFree(Padded(n))
    ensures n < 100 ==> |Padded(n)| == 2
  {
    DecimalValue(n);
    if n < 10 {
      assert Padded(n)[..1] == "0" && "0"[..0] == [];
    } else if n < 100 {
      assert Decimal(n / 10) == [Digit(n / 10)];
    }
  }

  /** Text up to the first dot is determined. */
  lemma FirstPart(a: string, rest: string, a': string, rest': string)
    requires DotFree(a) && DotFree(a') && a + "." + rest == a' + "." + rest'
    ensures a == a' && rest == rest'
  {
    var all := a + "." + rest;
    assert all == a' + "." + rest';
    assert all[|a|] == '.' && all[|a'|] == '.';
    assert forall k :: 0 <= k < |a| ==> all[k] == a[k] && a[k] in a;
    assert forall k :: 0 <= k < |a'| ==> all[k] == a'[k] && a'[k] in a';
    assert |a| == |a'|;
    assert a == all[..|a|] && a' == all[..|a|] && rest == all[|a| + 1..] && rest' == all[|a| + 1..];
  }

  /** Identifiers of dot-free parts are injective, for every sequence number. */
  lemma SampleIdIsInjective(c: string, i: string, p: string, s: nat, c': string, i': string, p': string, s': nat)
    requires DotFree(c) && DotFree(i) && DotFree(p) && DotFree(c') && DotFree(i') && DotFree(p')
    requires SampleId(c, i, p, s) == SampleId(c', i', p', s')
    ensures c == c' && i == i' && p == p' && s == s'
  {
    hide Padded, DotFree;
    var x, x' := Padded(s), Padded(s');
    assert SampleId(c, i, p, s) == c + "." + (i + "." + (p + "." + x));
    assert SampleId(c', i', p', s') == c' + "." + (i' + "." + (p' + "." + x'));
    FirstPart(c, i + "." + (p + "." + x), c', i' + "." + (p' + "." + x'));
    FirstPart(i, p + "." + x, i', p' + "." + x');
    FirstPart(p, x, p', x');
    PaddedValue(s);
    PaddedValue(s');
  }

  /** Safe identifiers may hold dots, and then two different samples can share an
      identifier: the roster being dot-free is what makes the format injective. */
  lemma SafePartsAreNotEnough()
    ensures SafeId("a") && SafeId("a.b") && SafeId("b.c") && SafeId("c")
    ensures forall p, s :: SampleId("a.b", "c", p, s) == SampleId("a", "b.c", p, s)
  {
    hide Padded;
    assert "a.b" + "." + "c" == "a" + "." + "b.c";
  }

  // ---- the plan

  datatype Implementation = Implementation(name: string, config: string, command: Command)

  /** One case of the manifest; `resources` is the digest of its expected resources and
      `resourcesOk` says that they are well formed. */
  datatype ManifestCase = ManifestCase(caseId: string, memberId: string, resources: string, resourcesOk: bool,
                                       inspector: Command, implementations: seq<Option<Implementation>>)

  datatype CasePlan = CasePlan(caseId: string, member: Member, inspector: Command,
                               implementations: seq<Option<Implementation>>)

  function Matching(members: seq<Member>, id: string): (r: seq<Member>)
    ensures forall m :: m in r ==> m in members && m.id == id
  {
    if members == [] then []
    else (if members[0].id == id then [members[0]] else []) + Matching(members[1..], id)
  }

  function SelectMember(members: seq<Member>, id: string): Result<Member, Fault> {
    if !SafeId(id) then Err(UnsafeId)
    else
      var matches := Matching(members, id);
      if |matches| != 1 then Err(MemberNotAdmitted) else Ok(matches[0])
  }

  const MAX_ARGUMENTS: nat := 128
  const MAX_ARGUMENT_BYTES: nat := 64 * 1024

  predicate ArgumentOk(argument: string) {
    |argument| <= MAX_ARGUMENT_BYTES && forall c :: c in argument ==> 0 < c as int < 128
  }

  /** `parse_command`. */
  predicate CommandOk(policy: Policy, command: Command, protocol: Option<string>) {
    && policy.isSha(command.binary) && policy.isSha(command.protocol)
    && (protocol.Some? ==> protocol.value == command.protocol)
    && |command.arguments| <= MAX_ARGUMENTS
    && (forall i :: 0 <= i < |command.arguments| ==> ArgumentOk(command.arguments[i]))
    && command.held
  }

  /** The implementation slot `i` of case `c` is what the policy calls for. */
  predicate SlotOk(policy: Policy, c: nat, i: nat, slot: Option<Implementation>)
    requires c < |CASE_ROSTER| && i < |IMPLEMENTATIONS| && Shaped(policy)
  {
    if !Applicable(policy, c, i) then slot.None?
    else
      && slot.Some? && slot.value.name == IMPLEMENTATIONS[i]
      && Some(slot.value.config) == policy.pins[c].configs[i]
      && CommandOk(policy, slot.value.command, if i == 0 then Some(policy.referenceProtocol) else None)
      && Some(slot.value.command.binary) == policy.pins[c].binaries[i]
  }

  predicate SlotsOk(policy: Policy, c: nat, slots: seq<Option<Implementation>>)
    requires c < |CASE_ROSTER| && Shaped(policy)
  {
    |slots| == |IMPLEMENTATIONS| && forall i :: 0 <= i < |slots| ==> SlotOk(policy, c, i, slots[i])
  }

  /** What a parsed plan promises about one case. */
  predicate PlannedCase(policy: Policy, c: nat, plan: CasePlan)
    requires c < |CASE_ROSTER| && Shaped(policy)
  {
    && plan.caseId == CASE_ROSTER[c]
    && plan.member in policy.members && SafeId(plan.member.id)
    && SlotsOk(policy, c, plan.implementations)
  }

  predicate Planned(policy: Policy, plan: seq<CasePlan>)
    requires Shaped(policy)
  {
    |plan| == |CASE_ROSTER| && forall c :: 0 <= c < |plan| ==> PlannedCase(policy, c, plan[c])
  }

  predicate AdmittedCase(policy: Policy, c: nat, m: ManifestCase)
    requires c < |CASE_ROSTER| && Shaped(policy)
  {
    && m.caseId == CASE_ROSTER[c] && SelectMember(policy.members, m.memberId).Ok?
    && m.resourcesOk && m.resources == policy.pins[c].resources
    && CommandOk(policy, m.inspector, Some(policy.pins[c].inspection))
    && SlotsOk(policy, c, m.implementations)
  }

  predicate PlanOf(policy: Policy, m: ManifestCase, plan: CasePlan) {
    plan.caseId == m.caseId && SelectMember(policy.members, m.memberId) == Ok(plan.member)
    && plan.inspector == m.inspector && plan.implementations == m.implementations
  }

  method ParseImplementations(policy: Policy, c: nat, slots: seq<Option<Implementation>>)
    returns (r: Result<seq<Option<Implementation>>, Fault>)
    requires c < |CASE_ROSTER| && Shaped(policy)
    ensures r.Ok? <==> SlotsOk(policy, c, slots)
    ensures r.Ok? ==> r.value == slots
  {
    hide CommandOk;
    if |slots| != |IMPLEMENTATIONS| {
      return Err(ImplementationDrifted);
    }
    var implementations := [];
    for i := 0 to |slots|
      invariant implementations == slots[..i]
      invariant forall k :: 0 <= k < i ==> SlotOk(policy, c, k, slots[k])
    {
      if IMPLEMENTATIONS[i] == "vendor" && !policy.vendorApplicable[c] {
        if slots[i].Some? {
          return Err(ImplementationDrifted);
        }
        implementations := implementations + [None];
      } else {
        if slots[i].None? || slots[i].value.name != IMPLEMENTATIONS[i] {
          return Err(ImplementationDrifted);
        }
        var implementation := slots[i].value;
        if Some(implementation.config) != policy.pins[c].configs[i] {
          return Err(ImplementationDrifted);
        }
        if !CommandOk(policy, implementation.command, if i == 0 then Some(policy.referenceProtocol) else None) {
          return Err(CommandDrifted);
        }
        if Some(implementation.command.binary) != policy.pins[c].binaries[i] {
          return Err(ImplementationDrifted);
        }
        implementations := implementations + [Some(implementation)];
      }
    }
    assert slots[..|slots|] == slots;
    r := Ok(implementations);
  }

  /** `parse_manifest` as far as it fixes the cases. */
  method ParsePlan(policy: Policy, manifest: seq<ManifestCase>) returns (r: Result<seq<CasePlan>, Fault>)
    requires Shaped(policy)
    ensures r.Ok? <==> |manifest| == |CASE_ROSTER| && forall c :: 0 <= c < |manifest| ==> AdmittedCase(policy, c, manifest[c])
    ensures r.Ok? ==> Planned(policy, r.value) && forall c :: 0 <= c < |manifest| ==> PlanOf(policy, manifest[c], r.value[c])
  {
    hide SelectMember, CommandOk, SlotsOk;
    if |manifest| != |CASE_ROSTER| {
      return Err(RosterDrifted);
    }
    var plan := [];
    for c := 0 to |manifest|
      invariant |plan| == c
      invariant forall k :: 0 <= k < c ==> AdmittedCase(policy, k, manifest[k])
      invariant forall k :: 0 <= k < c ==> PlanOf(policy, manifest[k], plan[k])
      invariant forall k :: 0 <= k < c ==> PlannedCase(policy, k, plan[k])
    {
      if manifest[c].caseId != CASE_ROSTER[c] {
        return Err(RosterDrifted);
      }
      var member := SelectMember(policy.members, manifest[c].memberId);
      if member.Err? {
        return Err(member.error);
      }
      SelectedMember(policy.members, manifest[c].memberId);
      if !manifest[c].resourcesOk || manifest[c].resources != policy.pins[c].resources {
        return Err(ResourcesDrifted);
      }
      if !CommandOk(policy, manifest[c].inspector, Some(policy.pins[c].inspection)) {
        return Err(CommandDrifted);
      }
      var implementations := ParseImplementations(policy, c, manifest[c].implementations);
      if implementations.Err? {
        return Err(implementations.error);
      }
      plan := plan + [CasePlan(CASE_ROSTER[c], member.value, manifest[c].inspector, implementations.value)];
    }
    r := Ok(plan);
  }

  lemma SelectedMember(members: seq<Member>, id: string)
    requires SelectMember(members, id).Ok?
    ensures SelectMember(members, id).value in members && SafeId(SelectMember(members, id).value.id)
  {
    assert Matching(members, id)[0] in Matching(members, id);
  }

  // ---- preflight

  /** The projection line the collector announces for slot `i`. */
  function Announced(plan: CasePlan, caseId: string, i: nat, phase: string, count: nat): Projection
    requires i < |plan.implementations| && i < |IMPLEMENTATIONS|
  {
    if plan.implementations[i].Some?
    then Projection(Some(plan.member), IMPLEMENTATIONS[i], SampleIds(caseId, IMPLEMENTATIONS[i], phase, count))
    else Projection(None, IMPLEMENTATIONS[i], [])
  }

  function Least(a: nat, b: nat): nat {
    if a < b then a else b
  }

  function Announcement(plan: CasePlan, caseId: string, phase: string, count: nat): seq<Projection> {
    seq(Least(|plan.implementations|, |IMPLEMENTATIONS|),
        i requires 0 <= i < |plan.implementations| && i < |IMPLEMENTATIONS| => Announced(plan, caseId, i, phase, count))
  }

  predicate OrderMatches(plan: CasePlan, caseId: string, order: Order, identity: Identity) {
    && plan.caseId == caseId
    && order.warmupSha256 == identity(Announcement(plan, caseId, "warmup", WARMUPS))
    && order.recordedSha256 == identity(Announcement(plan, caseId, "recorded", RECORDED))
  }

  predicate Preflighted(policy: Policy, plan: seq<CasePlan>, identity: Identity) {
    forall c :: 0 <= c < |plan| && c < |policy.orders| && c < |CASE_ROSTER| ==>
      OrderMatches(plan[c], CASE_ROSTER[c], policy.orders[c], identity)
  }

  method Announce(plan: CasePlan, caseId: string) returns (warmups: seq<Projection>, recorded: seq<Projection>)
    ensures warmups == Announcement(plan, caseId, "warmup", WARMUPS)
    ensures recorded == Announcement(plan, caseId, "recorded", RECORDED)
  {
    hide SampleIds;
    warmups, recorded := [], [];
    for i := 0 to Least(|plan.implementations|, |IMPLEMENTATIONS|)
      invariant warmups == Announcement(plan, caseId, "warmup", WARMUPS)[..i]
      invariant recorded == Announcement(plan, caseId, "recorded", RECORDED)[..i]
    {
      var name, applicable := IMPLEMENTATIONS[i], plan.implementations[i].Some?;
      var member := if applicable then Some(plan.member) else None;
      warmups := warmups
        + [Projection(member, name, if applicable then SampleIds(caseId, name, "warmup", WARMUPS) else [])];
      recorded := recorded
        + [Projection(member, name, if applicable then SampleIds(caseId, name, "recorded", RECORDED) else [])];
    }
  }

  method PreflightOrderBindings(policy: Policy, plan: seq<CasePlan>, identity: Identity) returns (r: Result<(), Fault>)
    ensures r.Ok? <==> Preflighted(policy, plan, identity)
  {
    hide Announcement;
    for c := 0 to Least(Least(|plan|, |policy.orders|), |CASE_ROSTER|)
      invariant forall k :: 0 <= k < c ==> OrderMatches(plan[k], CASE_ROSTER[k], policy.orders[k], identity)
    {
      if plan[c].caseId != CASE_ROSTER[c] {
        return Err(RosterDrifted);
      }
      var warmups, recorded := Announce(plan[c], CASE_ROSTER[c]);
      if policy.orders[c].warmupSha256 != identity(warmups) || policy.orders[c].recordedSha256 != identity(recorded) {
        return Err(OrderDrifted);
      }
    }
    r := Ok(());
  }

  // ---- collection

  datatype Sample = Sample(sampleId: string, sequence: nat)

  /** The identity fields of a row. */
  datatype Provenance = Provenance(implementation: Option<string>, binary: Option<string>, config: Option<string>,
                                   environment: Option<string>, baseCommand: Option<string>, protocol: Option<string>,
                                   measurementRoster: Option<string>, budget: Option<Budget>, bindings: string)

  datatype Row = Row(applicable: bool, implementation: string, member: Option<Member>, provenance: Provenance,
                     warmups: seq<Sample>, recorded: seq<Sample>)

  datatype CaseRows = CaseRows(caseId: string, rows: seq<Row>)

  function Samples(caseId: string, implementation: string, phase: string, count: nat): seq<Sample> {
    seq(count, k requires 0 <= k => Sample(SampleId(caseId, implementation, phase, k), k))
  }

  /** The identity fields that the collector writes for an implementation. */
  function ProvenanceOf(policy: Policy, implementation: Implementation): Provenance {
    var digest, name := Some(implementation.command.binary), implementation.name;
    Provenance(digest, digest, Some(implementation.config), Some(policy.environment),
               Some(policy.digest(implementation.command)), Some(implementation.command.protocol),
               if name == "ferric-reference" then Some(policy.measurementRoster) else None,
               if name == "ferric-reference" then None
               else if name == "ferric" then Some(policy.ferricBudget) else Some(policy.vendorBudget),
               policy.bindings)
  }

  function InapplicableVendor(policy: Policy): Row {
    Row(false, "vendor", None, Provenance(None, None, None, None, None, None, None, None, policy.bindings), [], [])
  }

  function RowOf(policy: Policy, plan: CasePlan, i: nat): Row
    requires i < |plan.implementations|
  {
    match plan.implementations[i]
    case None => InapplicableVendor(policy)
    case Some(implementation) =>
      Row(true, implementation.name, Some(plan.member), ProvenanceOf(policy, implementation),
          Samples(plan.caseId, implementation.name, "warmup", WARMUPS),
          Samples(plan.caseId, implementation.name, "recorded", RECORDED))
  }

  function RowsOf(policy: Policy, plan: CasePlan): CaseRows {
    CaseRows(plan.caseId, seq(|plan.implementations|, i requires 0 <= i < |plan.implementations| => RowOf(policy, plan, i)))
  }

  function Collected(policy: Policy, plan: seq<CasePlan>): seq<CaseRows> {
    seq(|plan|, c requires 0 <= c < |plan| => RowsOf(policy, plan[c]))
  }

  /** Every sample that the plan calls for could be measured. */
  predicate Measured(caseId: string, name: string, phase: string, count: nat, measure: string -> bool) {
    forall k :: 0 <= k < count ==> measure(SampleId(caseId, name, phase, k))
  }

  predicate SlotMeasured(plan: CasePlan, i: nat, measure: string -> bool)
    requires i < |plan.implementations| && i < |IMPLEMENTATIONS|
  {
    plan.implementations[i].Some? ==>
      && plan.implementations[i].value.name == IMPLEMENTATIONS[i]
      && Measured(plan.caseId, IMPLEMENTATIONS[i], "warmup", WARMUPS, measure)
      && Measured(plan.caseId, IMPLEMENTATIONS[i], "recorded", RECORDED, measure)
  }

  predicate CaseMeasured(plan: CasePlan, inspect: Command -> bool, measure: string -> bool)
    requires |plan.implementations| == |IMPLEMENTATIONS|
  {
    inspect(plan.inspector) && forall i :: 0 <= i < |plan.implementations| ==> SlotMeasured(plan, i, measure)
  }

  method CollectSamples(caseId: string, name: string, phase: string, count: nat, measure: string -> bool)
    returns (r: Result<seq<Sample>, Fault>)
    ensures r == if Measured(caseId, name, phase, count, measure) then Ok(Samples(caseId, name, phase, count))
                 else Err(MeasurementFailed)
  {
    var samples := [];
    for k := 0 to count
      invariant samples == Samples(caseId, name, phase, k)
      invariant Measured(caseId, name, phase, k, measure)
    {
      var id := SampleId(caseId, name, phase, k);
      if !measure(id) {
        return Err(MeasurementFailed);
      }
      samples := samples + [Sample(id, k)];
    }
    r := Ok(samples);
  }

  /** One case: the resource inspection first, then every implementation. */
  method CollectCase(policy: Policy, plan: CasePlan, inspect: Command -> bool, measure: string -> bool)
    returns (r: Result<CaseRows, Fault>)
    requires |plan.implementations| == |IMPLEMENTATIONS|
    ensures r.Ok? <==> CaseMeasured(plan, inspect, measure)
    ensures r.Ok? ==> r.value == RowsOf(policy, plan)
  {
    hide SampleId, Measured, ProvenanceOf;
    if !inspect(plan.inspector) {
      return Err(InspectionFailed);
    }
    var rows := [];
    for i := 0 to |IMPLEMENTATIONS|
      invariant rows == RowsOf(policy, plan).rows[..i]
      invariant forall k :: 0 <= k < i ==> SlotMeasured(plan, k, measure)
    {
      var name := IMPLEMENTATIONS[i];
      assert CaseMeasured(plan, inspect, measure) ==> SlotMeasured(plan, i, measure);
      if plan.implementations[i].None? {
        rows := rows + [InapplicableVendor(policy)];
        continue;
      }
      var implementation := plan.implementations[i].value;
      if implementation.name != name {
        return Err(ImplementationDrifted);
      }
      var warmups := CollectSamples(plan.caseId, name, "warmup", WARMUPS, measure);
      if warmups.Err? {
        return Err(warmups.error);
      }
      var recorded := CollectSamples(plan.caseId, name, "recorded", RECORDED, measure);
      if recorded.Err? {
        return Err(recorded.error);
      }
      rows := rows + [Row(true, name, Some(plan.member), ProvenanceOf(policy, implementation), warmups.value, recorded.value)];
      assert rows[i] == RowOf(policy, plan, i);
    }
    r := Ok(CaseRows(plan.caseId, rows));
  }

  method CollectObservations(policy: Policy, plan: seq<CasePlan>, inspect: Command -> bool, measure: string -> bool)
    returns (r: Result<seq<CaseRows>, Fault>)
    requires Shaped(policy) && Planned(policy, plan)
    ensures r.Ok? <==> forall c :: 0 <= c < |plan| ==> CaseMeasured(plan[c], inspect, measure)
    ensures r.Ok? ==> r.value == Collected(policy, plan)
  {
    hide CaseMeasured, RowsOf;
    var cases := [];
    for c := 0 to |plan|
      invariant cases == Collected(policy, plan)[..c]
      invariant forall k :: 0 <= k < c ==> CaseMeasured(plan[k], inspect, measure)
    {
      assert PlannedCase(policy, c, plan[c]);
      var rows := CollectCase(policy, plan[c], inspect, measure);
      if rows.Err? {
        return Err(rows.error);
      }
      cases := cases + [rows.value];
    }
    r := Ok(cases);
  }

  // ---- validation of collected rows

  function Ids(samples: seq<Sample>): seq<string> {
    seq(|samples|, k requires 0 <= k < |samples| => samples[k].sampleId)
  }

  /** Each identifier is new: neither in `seen` nor repeated. */
  predicate AllNew(ids: seq<string>, seen: set<string>) {
    && (forall i :: 0 <= i < |ids| ==> ids[i] !in seen)
    && (forall i, j :: 0 <= i < j < |ids| ==> ids[i] != ids[j])
  }

  function Elements(ids: seq<string>): set<string> {
    set id | id in ids
  }

  lemma AllNewSplits(a: seq<string>, b: seq<string>, seen: set<string>)
    ensures AllNew(a + b, seen) <==> AllNew(a, seen) && AllNew(b, seen + Elements(a))
    ensures Elements(a + b) == Elements(a) + Elements(b)
  {
    var all := a + b;
    assert forall i :: 0 <= i < |a| ==> all[i] == a[i];
    assert forall j :: 0 <= j < |b| ==> all[|a| + j] == b[j];
    if AllNew(all, seen) {
      forall j | 0 <= j < |b| ensures b[j] !in seen + Elements(a) {
        assert all[|a| + j] == b[j];
      }
      forall i, j | 0 <= i < j < |b| ensures b[i] != b[j] {
        assert all[|a| + i] == b[i] && all[|a| + j] == b[j];
      }
    }
    if AllNew(a, seen) && AllNew(b, seen + Elements(a)) {
      forall i, j | 0 <= i < j < |all| ensures all[i] != all[j] {
        if i < |a| <= j { assert a[i] in Elements(a) && all[j] == b[j - |a|]; }
      }
    }
  }

  predicate SampleOk(s: Sample, sequence: nat) {
    s.sequence == sequence && SafeId(s.sampleId)
  }

  predicate SamplesOk(samples: seq<Sample>) {
    forall k :: 0 <= k < |samples| ==> SampleOk(samples[k], k)
  }

  /** One phase of one row: sequence numbers, safe identifiers, global uniqueness. */
  method InsertSampleIds(samples: seq<Sample>, seen: set<string>) returns (r: Result<seq<string>, Fault>, seen': set<string>)
    ensures r.Ok? <==> SamplesOk(samples) && AllNew(Ids(samples), seen)
    ensures r.Ok? ==> r.value == Ids(samples) && seen' == seen + Elements(Ids(samples))
  {
    hide SafeId;
    var ids := [];
    seen' := seen;
    for k := 0 to |samples|
      invariant ids == Ids(samples)[..k]
      invariant forall j :: 0 <= j < k ==> SampleOk(samples[j], j)
      invariant AllNew(ids, seen) && seen' == seen + Elements(ids)
    {
      var id := samples[k].sampleId;
      assert Ids(samples)[k] == id;
      if samples[k].sequence != k {
        return Err(SequenceDrifted), seen';
      }
      if !SafeId(id) {
        return Err(UnsafeId), seen';
      }
      if id in seen' {
        assert id in seen || id in ids;
        return Err(RepeatedId), seen';
      }
      AllNewSplits(ids, [id], seen);
      ids := ids + [id];
      seen' := seen' + {id};
    }
    r := Ok(ids);
  }

  /** An optional digest is there exactly when applicable. */
  predicate OptionalSha(policy: Policy, applicable: bool, digest: Option<string>) {
    if applicable then digest.Some? && policy.isSha(digest.value) else digest.None?
  }

  /** The budget that the policy pins for an implementation. */
  function BudgetFor(policy: Policy, name: string, applicable: bool): Option<Budget> {
    if name == "ferric-reference" || !applicable then None
    else Some(if name == "ferric" then policy.ferricBudget else policy.vendorBudget)
  }

  /** The identity fields are the ones that the policy pins. */
  predicate ProvenanceOk(policy: Policy, c: nat, i: nat, p: Provenance)
    requires c < |CASE_ROSTER| && i < |IMPLEMENTATIONS| && Shaped(policy)
  {
    var name, applicable := IMPLEMENTATIONS[i], Applicable(policy, c, i);
    && p.implementation == policy.pins[c].binaries[i]
    && OptionalSha(policy, applicable, p.baseCommand) && OptionalSha(policy, applicable, p.protocol)
    && p.binary == policy.pins[c].binaries[i]
    && p.environment == (if applicable then Some(policy.environment) else None)
    && p.config == policy.pins[c].configs[i]
    && p.bindings == policy.bindings
    && p.measurementRoster == (if name == "ferric-reference" && applicable then Some(policy.measurementRoster) else None)
    && p.budget == BudgetFor(policy, name, applicable)
  }

  /** What a row must be, uniqueness apart. */
  predicate RowOk(policy: Policy, c: nat, i: nat, row: Row)
    requires c < |CASE_ROSTER| && i < |IMPLEMENTATIONS| && Shaped(policy)
  {
    var applicable := Applicable(policy, c, i);
    && row.implementation == IMPLEMENTATIONS[i] && row.applicable == applicable
    && ProvenanceOk(policy, c, i, row.provenance)
    && (if applicable
        then && row.member.Some? && row.member.value in policy.members && SafeId(row.member.value.id)
             && |row.warmups| == WARMUPS && |row.recorded| == RECORDED
             && SamplesOk(row.warmups) && SamplesOk(row.recorded)
        else row.member.None? && row.warmups == [] && row.recorded == [])
  }

  function RowIds(row: Row): seq<string> {
    Ids(row.warmups) + Ids(row.recorded)
  }

  method ValidateImplementation(policy: Policy, c: nat, i: nat, row: Row, seen: set<string>)
    returns (r: Result<(seq<string>, seq<string>), Fault>, seen': set<string>)
    requires c < |CASE_ROSTER| && i < |IMPLEMENTATIONS| && Shaped(policy)
    ensures r.Ok? <==> RowOk(policy, c, i, row) && AllNew(RowIds(row), seen)
    ensures r.Ok? ==> r.value == (Ids(row.warmups), Ids(row.recorded)) && seen' == seen + Elements(RowIds(row))
  {
    hide SafeId, AllNew, SamplesOk, ProvenanceOk;
    seen' := seen;
    var applicable := Applicable(policy, c, i);
    if row.implementation != IMPLEMENTATIONS[i] || row.applicable != applicable {
      return Err(ImplementationDrifted), seen';
    }
    if !ProvenanceOk(policy, c, i, row.provenance) {
      return Err(ProvenanceDrifted), seen';
    }
    if !applicable && row.member.Some? {
      return Err(MemberNotAdmitted), seen';
    }
    if applicable && (row.member.None? || row.member.value !in policy.members) {
      return Err(MemberNotAdmitted), seen';
    }
    if applicable && !SafeId(row.member.value.id) {
      return Err(UnsafeId), seen';
    }
    if !applicable {
      if row.warmups != [] || row.recorded != [] {
        return Err(SampleCountDrifted), seen';
      }
      assert AllNew([], seen) by { NothingIsNew(seen); }
      assert RowIds(row) == [] && Ids(row.warmups) == [] && Ids(row.recorded) == [];
      return Ok(([], [])), seen';
    }
    if |row.warmups| != WARMUPS || |row.recorded| != RECORDED {
      return Err(SampleCountDrifted), seen';
    }
    AllNewSplits(Ids(row.warmups), Ids(row.recorded), seen);
    var warmups;
    warmups, seen' := InsertSampleIds(row.warmups, seen');
    if warmups.Err? {
      return Err(warmups.error), seen';
    }
    var recorded;
    recorded, seen' := InsertSampleIds(row.recorded, seen');
    if recorded.Err? {
      return Err(recorded.error), seen';
    }
    r := Ok((warmups.value, recorded.value));
  }

  lemma NothingIsNew(seen: set<string>)
    ensures AllNew([], seen)
  {}

  function RowsIds(rows: seq<Row>): seq<string> {
    if rows == [] then [] else RowsIds(rows[..|rows| - 1]) + RowIds(rows[|rows| - 1])
  }

  /** All applicable rows name one member. */
  predicate MemberShared(rows: seq<Row>) {
    forall i, j :: 0 <= i < |rows| && 0 <= j < |rows| && rows[i].member.Some? && rows[j].member.Some? ==>
      rows[i].member == rows[j].member
  }

  function Lines(rows: seq<Row>, phase: Row -> seq<Sample>): seq<Projection>
    requires |rows| <= |IMPLEMENTATIONS|
  {
    seq(|rows|, i requires 0 <= i < |rows| => Projection(rows[i].member, IMPLEMENTATIONS[i], Ids(phase(rows[i]))))
  }

  function WarmupLines(rows: seq<Row>): seq<Projection>
    requires |rows| <= |IMPLEMENTATIONS|
  {
    Lines(rows, (r: Row) => r.warmups)
  }

  function RecordedLines(rows: seq<Row>): seq<Projection>
    requires |rows| <= |IMPLEMENTATIONS|
  {
    Lines(rows, (r: Row) => r.recorded)
  }

  predicate RowsOk(policy: Policy, c: nat, rows: seq<Row>)
    requires c < |CASE_ROSTER| && Shaped(policy) && |rows| <= |IMPLEMENTATIONS|
  {
    forall i :: 0 <= i < |rows| ==> RowOk(policy, c, i, rows[i])
  }

  /** What a case must be, uniqueness of identifiers apart. */
  predicate CaseOk(policy: Policy, c: nat, rows: CaseRows, identity: Identity)
    requires c < |CASE_ROSTER| && Shaped(policy)
  {
    && rows.caseId == CASE_ROSTER[c] && |rows.rows| == |IMPLEMENTATIONS|
    && RowsOk(policy, c, rows.rows) && MemberShared(rows.rows)
    && policy.orders[c].warmupSha256 == identity(WarmupLines(rows.rows))
    && policy.orders[c].recordedSha256 == identity(RecordedLines(rows.rows))
  }

  /** The member shared by the first `i` rows, as the loop tracks it. */
  predicate Shared(rows: seq<Row>, member: Option<Member>) {
    && (forall k :: 0 <= k < |rows| && rows[k].member.Some? ==> rows[k].member == member)
    && (member.Some? ==> exists k :: 0 <= k < |rows| && rows[k].member == member)
  }

  lemma {:induction false} FailsLater(rows: seq<Row>, k: nat, seen: set<string>)
    requires k <= |rows| && !AllNew(RowsIds(rows[..k]), seen)
    ensures !AllNew(RowsIds(rows), seen)
    decreases |rows|
  {
    hide AllNew;
    if k == |rows| {
      assert rows[..k] == rows;
    } else {
      var front := rows[..|rows| - 1];
      assert front[..k] == rows[..k];
      FailsLater(front, k, seen);
      AllNewSplits(RowsIds(front), RowIds(rows[|rows| - 1]), seen);
    }
  }

  lemma EmptyRows(seen: set<string>)
    ensures WarmupLines([]) == [] && RecordedLines([]) == [] && Shared([], None)
    ensures AllNew(RowsIds([]), seen) && seen == seen + Elements(RowsIds([]))
  {}

  lemma AppendLine(rows: seq<Row>, row: Row, phase: Row -> seq<Sample>)
    requires |rows| < |IMPLEMENTATIONS|
    ensures Lines(rows + [row], phase)
         == Lines(rows, phase) + [Projection(row.member, IMPLEMENTATIONS[|rows|], Ids(phase(row)))]
  {
    hide Ids;
  }

  /** Appending one row, for each thing the loop over rows tracks. */
  lemma AppendRow(policy: Policy, c: nat, rows: seq<Row>, row: Row)
    requires c < |CASE_ROSTER| && Shaped(policy) && |rows| < |IMPLEMENTATIONS|
    ensures WarmupLines(rows + [row])
         == WarmupLines(rows) + [Projection(row.member, IMPLEMENTATIONS[|rows|], Ids(row.warmups))]
    ensures RecordedLines(rows + [row])
         == RecordedLines(rows) + [Projection(row.member, IMPLEMENTATIONS[|rows|], Ids(row.recorded))]
    ensures RowsOk(policy, c, rows + [row]) <==>
            RowsOk(policy, c, rows) && RowOk(policy, c, |rows|, row)
    ensures RowsIds(rows + [row]) == RowsIds(rows) + RowIds(row)
  {
    hide RowOk, Ids, RowIds, Lines;
    AppendLine(rows, row, (r: Row) => r.warmups);
    AppendLine(rows, row, (r: Row) => r.recorded);
    AppendOk(policy, c, rows, row);
    var all := rows + [row];
    assert all[..|all| - 1] == rows && all[|all| - 1] == row;
  }

  lemma AppendOk(policy: Policy, c: nat, rows: seq<Row>, row: Row)
    requires c < |CASE_ROSTER| && Shaped(policy) && |rows| < |IMPLEMENTATIONS|
    ensures RowsOk(policy, c, rows + [row]) <==>
            RowsOk(policy, c, rows) && RowOk(policy, c, |rows|, row)
  {
    hide RowOk, Applicable;
    var all := rows + [row];
    assert all[|rows|] == row && forall i :: 0 <= i < |rows| ==> all[i] == rows[i];
  }

  lemma AppendMember(rows: seq<Row>, row: Row, shared: Option<Member>)
    requires Shared(rows, shared)
    ensures row.member.None? ==> Shared(rows + [row], shared)
    ensures row.member.Some? && (shared.None? || shared == row.member) ==> Shared(rows + [row], row.member)
    ensures row.member.Some? && shared.Some? && shared != row.member ==> !MemberShared(rows + [row])
  {
    var all := rows + [row];
    assert all[|rows|] == row && forall i :: 0 <= i < |rows| ==> all[i] == rows[i];
  }

  lemma SharedMembers(rows: seq<Row>, shared: Option<Member>, k: nat)
    requires k <= |rows|
    ensures Shared(rows, shared) ==> MemberShared(rows)
    ensures MemberShared(rows) ==> MemberShared(rows[..k])
  {
  }

  method ValidateRows(policy: Policy, c: nat, rows: CaseRows, identity: Identity, seen: set<string>)
    returns (r: Result<(), Fault>, seen': set<string>)
    requires c < |CASE_ROSTER| && Shaped(policy)
    ensures r.Ok? <==> CaseOk(policy, c, rows, identity) && AllNew(RowsIds(rows.rows), seen)
    ensures r.Ok? ==> seen' == seen + Elements(RowsIds(rows.rows))
  {
    hide AllNew, RowOk, RowIds, RowsIds, Ids, Shared, MemberShared, WarmupLines, RecordedLines, Elements;
    seen' := seen;
    if rows.caseId != CASE_ROSTER[c] {
      return Err(RosterDrifted), seen';
    }
    if |rows.rows| != |IMPLEMENTATIONS| {
      return Err(ImplementationDrifted), seen';
    }
    var warmups, recorded, shared := [], [], None;
    EmptyRows(seen);
    for i := 0 to |IMPLEMENTATIONS|
      invariant warmups == WarmupLines(rows.rows[..i]) && recorded == RecordedLines(rows.rows[..i])
      invariant RowsOk(policy, c, rows.rows[..i])
      invariant Shared(rows.rows[..i], shared)
      invariant AllNew(RowsIds(rows.rows[..i]), seen) && seen' == seen + Elements(RowsIds(rows.rows[..i]))
    {
      var name, row := IMPLEMENTATIONS[i], rows.rows[i];
      ghost var before, after := rows.rows[..i], rows.rows[..i + 1];
      assert after == before + [row];
      AppendRow(policy, c, before, row);
      AppendMember(before, row, shared);
      SharedMembers(rows.rows, shared, i + 1);
      AllNewSplits(RowsIds(before), RowIds(row), seen);
      if !AllNew(RowsIds(after), seen) { FailsLater(rows.rows, i + 1, seen); }
      var ids;
      ids, seen' := ValidateImplementation(policy, c, i, row, seen');
      if ids.Err? {
        return Err(ids.error), seen';
      }
      if row.member.Some? {
        if shared.Some? {
          if row.member != shared {
            return Err(MemberNotShared), seen';
          }
        } else {
          shared := row.member;
        }
      }
      warmups := warmups + [Projection(row.member, name, ids.value.0)];
      recorded := recorded + [Projection(row.member, name, ids.value.1)];
    }
    assert rows.rows[..|IMPLEMENTATIONS|] == rows.rows;
    SharedMembers(rows.rows, shared, 0);
    if policy.orders[c].warmupSha256 != identity(warmups) || policy.orders[c].recordedSha256 != identity(recorded) {
      return Err(OrderDrifted), seen';
    }
    r := Ok(());
  }

  function CasesIds(cases: seq<CaseRows>): seq<string> {
    if cases == [] then [] else CasesIds(cases[..|cases| - 1]) + RowsIds(cases[|cases| - 1].rows)
  }

  /** The declarative acceptance condition: every case in order, and no identifier twice anywhere. */
  predicate Accepted(policy: Policy, cases: seq<CaseRows>, identity: Identity)
    requires Shaped(policy)
  {
    && |cases| == |CASE_ROSTER|
    && (forall c :: 0 <= c < |cases| ==> CaseOk(policy, c, cases[c], identity))
    && AllNew(CasesIds(cases), {})
  }

  lemma {:induction false} CaseFailsLater(cases: seq<CaseRows>, k: nat)
    requires k <= |cases| && !AllNew(CasesIds(cases[..k]), {})
    ensures !AllNew(CasesIds(cases), {})
    decreases |cases|
  {
    hide AllNew;
    if k == |cases| {
      assert cases[..k] == cases;
    } else {
      var front := cases[..|cases| - 1];
      assert front[..k] == cases[..k];
      CaseFailsLater(front, k);
      AllNewSplits(CasesIds(front), RowsIds(cases[|cases| - 1].rows), {});
    }
  }

  method ValidateCollected(policy: Policy, cases: seq<CaseRows>, identity: Identity) returns (r: Result<(), Fault>)
    requires Shaped(policy)
    ensures r.Ok? <==> Accepted(policy, cases, identity)
  {
    hide AllNew, CaseOk, RowsIds;
    if |cases| != |CASE_ROSTER| {
      return Err(RosterDrifted);
    }
    var seen := {};
    NothingIsNew({});
    for c := 0 to |cases|
      invariant forall k :: 0 <= k < c ==> CaseOk(policy, k, cases[k], identity)
      invariant AllNew(CasesIds(cases[..c]), {}) && seen == Elements(CasesIds(cases[..c]))
    {
      var ids := CasesIds(cases[..c]);
      assert cases[..c + 1][..c] == cases[..c];
      AllNewSplits(ids, RowsIds(cases[c].rows), {});
      if !AllNew(CasesIds(cases[..c + 1]), {}) { CaseFailsLater(cases, c + 1); }
      var ok;
      assert seen == {} + Elements(ids);
      ok, seen := ValidateRows(policy, c, cases[c], identity, seen);
      if ok.Err? {
        return Err(ok.error);
      }
    }
    assert cases[..|cases|] == cases;
    r := Ok(());
  }

  // ---- the collector and the validator agree

  /** A part of an identifier: dot-free, safe and short. */
  predicate Part(s: string) {
    s != [] && |s| <= 23 && DotFree(s) && forall c :: c in s ==> SafeChar(c)
  }

  lemma RosterParts(c: nat)
    requires c < |CASE_ROSTER|
    ensures Part(CASE_ROSTER[c])
  {
    assert forall i :: 0 <= i < |CASE_ROSTER[c]| ==> SafeChar(CASE_ROSTER[c][i]) && CASE_ROSTER[c][i] != '.';
  }

  lemma ImplementationParts(i: nat)
    requires i < |IMPLEMENTATIONS|
    ensures Part(IMPLEMENTATIONS[i])
  {
    assert forall k :: 0 <= k < |IMPLEMENTATIONS[i]| ==> SafeChar(IMPLEMENTATIONS[i][k]) && IMPLEMENTATIONS[i][k] != '.';
  }

  lemma PhaseParts()
    ensures Part("warmup") && Part("recorded")
  {
    assert forall k :: 0 <= k < 6 ==> SafeChar("warmup"[k]) && "warmup"[k] != '.';
    assert forall k :: 0 <= k < 8 ==> SafeChar("recorded"[k]) && "recorded"[k] != '.';
  }

  lemma RosterIsDistinct(a: nat, b: nat)
    requires a < b < |CASE_ROSTER|
    ensures CASE_ROSTER[a] != CASE_ROSTER[b]
  {
    assert |CASE_ROSTER[a]| != |CASE_ROSTER[b]| || CASE_ROSTER[a][0] != CASE_ROSTER[b][0];
  }

  lemma ImplementationsAreDistinct(a: nat, b: nat)
    requires a < b < |IMPLEMENTATIONS|
    ensures IMPLEMENTATIONS[a] != IMPLEMENTATIONS[b]
  {
    assert |IMPLEMENTATIONS[a]| != |IMPLEMENTATIONS[b]| || IMPLEMENTATIONS[a][0] != IMPLEMENTATIONS[b][0];
  }

  lemma SampleIdIsSafe(c: string, i: string, p: string, s: nat)
    requires Part(c) && Part(i) && Part(p) && s < 100
    ensures SafeId(SampleId(c, i, p, s))
  {
    PaddedValue(s);
  }

  /** Where an identifier comes from. */
  ghost predicate From(id: string, caseId: string, name: string) {
    exists p, s: nat :: Part(p) && id == SampleId(caseId, name, p, s)
  }

  lemma OriginIsUnique(id: string, c: string, i: string, c': string, i': string)
    requires Part(c) && Part(i) && Part(c') && Part(i') && From(id, c, i) && From(id, c', i')
    ensures c == c' && i == i'
  {
    var p, s: nat :| Part(p) && id == SampleId(c, i, p, s);
    var p', s': nat :| Part(p') && id == SampleId(c', i', p', s');
    SampleIdIsInjective(c, i, p, s, c', i', p', s');
  }

  lemma PhaseIds(c: string, i: string, p: string, count: nat)
    requires Part(c) && Part(i) && Part(p)
    ensures Ids(Samples(c, i, p, count)) == SampleIds(c, i, p, count)
    ensures AllNew(SampleIds(c, i, p, count), {})
    ensures forall id :: id in SampleIds(c, i, p, count) ==> From(id, c, i)
  {
    var ids := SampleIds(c, i, p, count);
    forall j, k | 0 <= j < k < count ensures ids[j] != ids[k] {
      if ids[j] == ids[k] { SampleIdIsInjective(c, i, p, j, c, i, p, k); }
    }
  }

  lemma NewApart(ids: seq<string>, seen: set<string>)
    requires AllNew(ids, {}) && forall id :: id in ids ==> id !in seen
    ensures AllNew(ids, seen)
  {}

  lemma PlannedRow(policy: Policy, c: nat, plan: CasePlan, i: nat)
    requires c < |CASE_ROSTER| && ValidPolicy(policy) && PlannedCase(policy, c, plan) && i < |IMPLEMENTATIONS|
    ensures RowOk(policy, c, i, RowOf(policy, plan, i))
    ensures AllNew(RowIds(RowOf(policy, plan, i)), {})
    ensures forall id :: id in RowIds(RowOf(policy, plan, i)) ==> From(id, CASE_ROSTER[c], IMPLEMENTATIONS[i])
    ensures Ids(RowOf(policy, plan, i).warmups) == Announced(plan, CASE_ROSTER[c], i, "warmup", WARMUPS).sampleIds
    ensures Ids(RowOf(policy, plan, i).recorded) == Announced(plan, CASE_ROSTER[c], i, "recorded", RECORDED).sampleIds
  {
    hide SampleId, Part, From, ProvenanceOk, ProvenanceOf, CommandOk, Shaped;
    PlannedProvenance(policy, c, plan, i);
    var row := RowOf(policy, plan, i);
    assert SlotOk(policy, c, i, plan.implementations[i]);
    if plan.implementations[i].Some? {
      var caseId, name := CASE_ROSTER[c], IMPLEMENTATIONS[i];
      RosterParts(c);
      ImplementationParts(i);
      PhaseParts();
      PhaseIds(caseId, name, "warmup", WARMUPS);
      PhaseIds(caseId, name, "recorded", RECORDED);
      PhasesAreApart(caseId, name);
      PlannedSamples(caseId, name, "warmup", WARMUPS);
      PlannedSamples(caseId, name, "recorded", RECORDED);
      var warmups, recorded := Ids(row.warmups), Ids(row.recorded);
      NewApart(recorded, Elements(warmups));
      AllNewSplits(warmups, recorded, {});
      assert {} + Elements(warmups) == Elements(warmups);
    } else {
      assert RowIds(row) == [];
    }
  }

  /** What the collector writes about an implementation is what the policy pins. */
  lemma PlannedProvenance(policy: Policy, c: nat, plan: CasePlan, i: nat)
    requires c < |CASE_ROSTER| && ValidPolicy(policy) && PlannedCase(policy, c, plan) && i < |IMPLEMENTATIONS|
    ensures ProvenanceOk(policy, c, i, RowOf(policy, plan, i).provenance)
  {
    assert SlotOk(policy, c, i, plan.implementations[i]);
    assert PinsOk(policy.pins[c], policy.vendorApplicable[c]);
  }

  lemma PlannedSamples(caseId: string, name: string, phase: string, count: nat)
    requires Part(caseId) && Part(name) && Part(phase) && count <= 100
    ensures SamplesOk(Samples(caseId, name, phase, count))
  {
    hide SampleId, SafeId, Part;
    forall k | 0 <= k < count ensures SampleOk(Samples(caseId, name, phase, count)[k], k) {
      SampleIdIsSafe(caseId, name, phase, k);
    }
  }

  lemma PhasesAreApart(caseId: string, name: string)
    requires Part(caseId) && Part(name)
    ensures forall id :: id in SampleIds(caseId, name, "recorded", RECORDED) ==>
              id !in Elements(SampleIds(caseId, name, "warmup", WARMUPS))
  {
    PhaseParts();
    assert |"recorded"| != |"warmup"|;
    forall j, k | 0 <= j < RECORDED && 0 <= k < WARMUPS
      ensures SampleId(caseId, name, "recorded", j) != SampleId(caseId, name, "warmup", k)
    {
      if SampleId(caseId, name, "recorded", j) == SampleId(caseId, name, "warmup", k) {
        SampleIdIsInjective(caseId, name, "recorded", j, caseId, name, "warmup", k);
      }
    }
  }

  ghost predicate FromRows(id: string, caseId: string, k: nat)
    requires k <= |IMPLEMENTATIONS|
  {
    exists j: nat :: j < k && From(id, caseId, IMPLEMENTATIONS[j])
  }

  lemma {:induction false} PlannedRows(policy: Policy, c: nat, plan: CasePlan, k: nat)
    requires c < |CASE_ROSTER| && ValidPolicy(policy) && PlannedCase(policy, c, plan) && k <= |IMPLEMENTATIONS|
    ensures var ids := RowsIds(RowsOf(policy, plan).rows[..k]);
            AllNew(ids, {}) && forall id :: id in ids ==> FromRows(id, CASE_ROSTER[c], k)
  {
    hide RowOk, RowIds, Part, From, Announced, RowOf, AllNew;
    if k == 0 {
      NothingIsNew({});
    } else {
      var rows := RowsOf(policy, plan).rows;
      var before, ids := RowsIds(rows[..k - 1]), RowIds(rows[k - 1]);
      assert rows[..k][..k - 1] == rows[..k - 1];
      PlannedRows(policy, c, plan, k - 1);
      PlannedRow(policy, c, plan, k - 1);
      forall id | id in ids ensures id !in Elements(before) {
        if id in before { RowsAreApart(id, c, k - 1); }
      }
      NewApart(ids, Elements(before));
      AllNewSplits(before, ids, {});
      assert {} + Elements(before) == Elements(before);
      forall id | id in RowsIds(rows[..k]) ensures FromRows(id, CASE_ROSTER[c], k) {
        if id in before { assert FromRows(id, CASE_ROSTER[c], k - 1); }
      }
    }
  }

  /** One identifier cannot come from an earlier row and from this one. */
  lemma RowsAreApart(id: string, c: nat, k: nat)
    requires c < |CASE_ROSTER| && k < |IMPLEMENTATIONS|
    requires FromRows(id, CASE_ROSTER[c], k)
    ensures !From(id, CASE_ROSTER[c], IMPLEMENTATIONS[k])
  {
    hide Part, From;
    var j: nat :| j < k && From(id, CASE_ROSTER[c], IMPLEMENTATIONS[j]);
    RosterParts(c);
    ImplementationParts(j);
    ImplementationParts(k);
    ImplementationsAreDistinct(j, k);
    if From(id, CASE_ROSTER[c], IMPLEMENTATIONS[k]) {
      OriginIsUnique(id, CASE_ROSTER[c], IMPLEMENTATIONS[j], CASE_ROSTER[c], IMPLEMENTATIONS[k]);
    }
  }

  ghost predicate FromCases(id: string, k: nat)
    requires k <= |CASE_ROSTER|
  {
    exists c: nat :: c < k && FromRows(id, CASE_ROSTER[c], |IMPLEMENTATIONS|)
  }

  lemma CasesAreApart(id: string, k: nat)
    requires k < |CASE_ROSTER| && FromCases(id, k)
    ensures !FromRows(id, CASE_ROSTER[k], |IMPLEMENTATIONS|)
  {
    hide Part, From;
    var c: nat :| c < k && FromRows(id, CASE_ROSTER[c], |IMPLEMENTATIONS|);
    var i: nat :| i < |IMPLEMENTATIONS| && From(id, CASE_ROSTER[c], IMPLEMENTATIONS[i]);
    RosterParts(c);
    RosterParts(k);
    RosterIsDistinct(c, k);
    ImplementationParts(i);
    forall j | 0 <= j < |IMPLEMENTATIONS| ensures !From(id, CASE_ROSTER[k], IMPLEMENTATIONS[j]) {
      ImplementationParts(j);
      if From(id, CASE_ROSTER[k], IMPLEMENTATIONS[j]) {
        OriginIsUnique(id, CASE_ROSTER[c], IMPLEMENTATIONS[i], CASE_ROSTER[k], IMPLEMENTATIONS[j]);
      }
    }
  }

  /** No identifier the collector writes repeats, over all cases, rows and phases. */
  lemma {:induction false} CollectedIdsAreDistinct(policy: Policy, plan: seq<CasePlan>, k: nat)
    requires ValidPolicy(policy) && Planned(policy, plan) && k <= |plan|
    ensures var ids := CasesIds(Collected(policy, plan)[..k]);
            AllNew(ids, {}) && forall id :: id in ids ==> FromCases(id, k)
  {
    hide RowsIds, RowsOf, AllNew, FromRows;
    if k == 0 {
      NothingIsNew({});
    } else {
      var cases := Collected(policy, plan);
      var before, ids := CasesIds(cases[..k - 1]), RowsIds(cases[k - 1].rows);
      assert cases[..k][..k - 1] == cases[..k - 1];
      CollectedIdsAreDistinct(policy, plan, k - 1);
      assert PlannedCase(policy, k - 1, plan[k - 1]);
      PlannedCaseIds(policy, k - 1, plan[k - 1]);
      forall id | id in ids ensures id !in Elements(before) {
        if id in before { CasesAreApart(id, k - 1); }
      }
      NewApart(ids, Elements(before));
      AllNewSplits(before, ids, {});
      assert {} + Elements(before) == Elements(before);
      forall id | id in CasesIds(cases[..k]) ensures FromCases(id, k) {
        if id in before { assert FromCases(id, k - 1); }
      }
    }
  }

  lemma PlannedCaseIds(policy: Policy, c: nat, plan: CasePlan)
    requires c < |CASE_ROSTER| && ValidPolicy(policy) && PlannedCase(policy, c, plan)
    ensures AllNew(RowsIds(RowsOf(policy, plan).rows), {})
    ensures forall id :: id in RowsIds(RowsOf(policy, plan).rows) ==> FromRows(id, CASE_ROSTER[c], |IMPLEMENTATIONS|)
  {
    hide RowOf, AllNew, FromRows, RowsIds;
    PlannedRows(policy, c, plan, |IMPLEMENTATIONS|);
    assert RowsOf(policy, plan).rows[..|IMPLEMENTATIONS|] == RowsOf(policy, plan).rows;
  }

  /** The projections recomputed from collected rows are the ones preflight digested. */
  lemma ProjectionsAgree(policy: Policy, c: nat, plan: CasePlan)
    requires c < |CASE_ROSTER| && ValidPolicy(policy) && PlannedCase(policy, c, plan)
    ensures WarmupLines(RowsOf(policy, plan).rows) == Announcement(plan, CASE_ROSTER[c], "warmup", WARMUPS)
    ensures RecordedLines(RowsOf(policy, plan).rows) == Announcement(plan, CASE_ROSTER[c], "recorded", RECORDED)
  {
    hide RowOk, AllNew, From, SampleIds, RowIds;
    forall i | 0 <= i < |IMPLEMENTATIONS|
      ensures WarmupLines(RowsOf(policy, plan).rows)[i] == Announcement(plan, CASE_ROSTER[c], "warmup", WARMUPS)[i]
      ensures RecordedLines(RowsOf(policy, plan).rows)[i] == Announcement(plan, CASE_ROSTER[c], "recorded", RECORDED)[i]
    {
      PlannedRow(policy, c, plan, i);
      assert SlotOk(policy, c, i, plan.implementations[i]);
    }
  }

  lemma PlannedCaseIsOk(policy: Policy, c: nat, plan: CasePlan, identity: Identity)
    requires c < |CASE_ROSTER| && ValidPolicy(policy) && PlannedCase(policy, c, plan)
    ensures CaseOk(policy, c, RowsOf(policy, plan), identity) <==> OrderMatches(plan, CASE_ROSTER[c], policy.orders[c], identity)
  {
    hide RowOk, AllNew, From, SampleIds, RowIds, Announcement, WarmupLines, RecordedLines;
    ProjectionsAgree(policy, c, plan);
    forall i | 0 <= i < |IMPLEMENTATIONS|
      ensures RowOk(policy, c, i, RowsOf(policy, plan).rows[i])
    {
      PlannedRow(policy, c, plan, i);
    }
    assert forall i :: 0 <= i < |IMPLEMENTATIONS| && RowOf(policy, plan, i).member.Some? ==>
                         RowOf(policy, plan, i).member == Some(plan.member);
  }

  /** The collector and the validator agree: rows collected under a parsed plan
      are accepted exactly when preflight passed, so no collected row is ever
      refused for its identity, its sequence, its member or its order. */
  lemma CollectedRowsAreAccepted(policy: Policy, plan: seq<CasePlan>, identity: Identity)
    requires ValidPolicy(policy) && Planned(policy, plan)
    ensures Accepted(policy, Collected(policy, plan), identity) <==> Preflighted(policy, plan, identity)
  {
    hide CaseOk, OrderMatches, AllNew, RowsOf, CasesIds;
    var cases := Collected(policy, plan);
    CollectedIdsAreDistinct(policy, plan, |plan|);
    assert cases[..|plan|] == cases;
    forall c | 0 <= c < |plan|
      ensures CaseOk(policy, c, cases[c], identity) <==> OrderMatches(plan[c], CASE_ROSTER[c], policy.orders[c], identity)
    {
      PlannedCaseIsOk(policy, c, plan[c], identity);
    }
  }

  /** What accepted rows look like: seven named cases of three named implementations, ten
      warmups and thirty recorded samples for each applicable one, numbered from zero. */
  lemma AcceptedRowsAreComplete(policy: Policy, cases: seq<CaseRows>, identity: Identity, c: nat, i: nat)
    requires Shaped(policy) && Accepted(policy, cases, identity) && c < 7 && i < 3
    ensures |cases| == 7 && |cases[c].rows| == 3 && cases[c].caseId == CASE_ROSTER[c]
    ensures var row := cases[c].rows[i];
            && row.implementation == ["ferric-reference", "ferric", "vendor"][i]
            && row.applicable == (i < 2 || policy.vendorApplicable[c])
            && |row.warmups| == (if row.applicable then 10 else 0) && |row.recorded| == (if row.applicable then 30 else 0)
            && (forall k :: 0 <= k < |row.warmups| ==> row.warmups[k].sequence == k)
            && (forall k :: 0 <= k < |row.recorded| ==> row.recorded[k].sequence == k)
            && row.member.Some? == row.applicable && (row.applicable ==> row.member.value in policy.members)
            && (row.applicable ==>
                  && row.provenance.binary == policy.pins[c].binaries[i] == row.provenance.implementation
                  && row.provenance.config == policy.pins[c].configs[i] && row.provenance.environment == Some(policy.environment))
            && row.provenance.measurementRoster == (if i == 0 then Some(policy.measurementRoster) else None)
            && row.provenance.budget == (if i == 1 then Some(policy.ferricBudget)
                                         else if i == 2 && row.applicable then Some(policy.vendorBudget) else None)
            && row.provenance.bindings == policy.bindings
    ensures forall j :: 0 <= j < 3 && cases[c].rows[i].applicable && cases[c].rows[j].applicable ==>
              cases[c].rows[j].member == cases[c].rows[i].member
  {
    hide AllNew, WarmupLines, RecordedLines, SafeId;
    var rows := cases[c].rows;
    assert CaseOk(policy, c, cases[c], identity);
    assert |"vendor"| != |"ferric-reference"| && "vendor"[0] != "ferric"[0];
    forall j | 0 <= j < 3 ensures RowOk(policy, c, j, rows[j]) {}
  }

  /** How the collector names its samples, and what it was told to run. */
  lemma CollectedSamplesAreNamed(policy: Policy, plan: seq<CasePlan>, c: nat, i: nat, k: nat)
    requires Shaped(policy) && Planned(policy, plan) && c < 7 && i < 3 && (i < 2 || policy.vendorApplicable[c]) && k < 30
    ensures |plan| == 7 && |plan[c].implementations| == 3 && plan[c].implementations[i].Some?
    ensures var row, text := Collected(policy, plan)[c].rows[i], CASE_ROSTER[c] + "." + IMPLEMENTATIONS[i];
            && |row.warmups| == 10 && |row.recorded| == 30
            && (k < 10 ==> row.warmups[k].sampleId == text + "." + "warmup" + "." + [Digit(k / 10), Digit(k % 10)])
            && row.recorded[k].sampleId == text + "." + "recorded" + "." + [Digit(k / 10), Digit(k % 10)]
    ensures var command := plan[c].implementations[i].value.command;
            && Some(command.binary) == policy.pins[c].binaries[i] && policy.isSha(command.protocol) && command.held
            && (i == 0 ==> command.protocol == policy.referenceProtocol)
            && |command.arguments| <= 128
            && (forall a, x :: a in command.arguments && x in a ==> |a| <= 65536 && 0 < x as int < 128)
  {
    hide ProvenanceOf;
    assert PlannedCase(policy, c, plan[c]) && SlotOk(policy, c, i, plan[c].implementations[i]);
    assert |"vendor"| != |"ferric-reference"| && "vendor"[0] != "ferric"[0];
    assert Padded(k) == [Digit(k / 10), Digit(k % 10)] by { TwoDigits(k); }
    var command := plan[c].implementations[i].value.command;
    forall a | a in command.arguments ensures ArgumentOk(a) {
      var j :| 0 <= j < |command.arguments| && command.arguments[j] == a;
    }
  }

  lemma TwoDigits(n: nat)
    requires n < 100
    ensures Padded(n) == [Digit(n / 10), Digit(n % 10)]
  {
    if n >= 10 { assert Decimal(n / 10) == [Digit(n / 10)]; } else { assert "0"[0] == Digit(0); }
  }
}
