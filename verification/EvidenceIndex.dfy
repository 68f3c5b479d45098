/** The structural passes of proofs/check-m1-evidence-index.py over an evidence
    index: artifacts, sources, TCB entries, bindings and obligations. */
module EvidenceIndex {
  import opened Outcomes
  import opened Strings

  const RECEIPT_ID := "artifact.qualification.m1"
  const SOURCE_KIND := "SourceClosure"
  const TCB_KIND := "TcbReport"
  const RECEIPT_KIND := "QualificationReceipt"
  const TCB_IDS := ["tcb.compiler", "tcb.hardware", "tcb.runtime"]
  const SOURCE_IDS := ["source.fe2o3", "source.ferric"]

  /** The artifact kind that an evidence kind calls for. */
  const EVIDENCE_ARTIFACT_KINDS: map<string, string> := map[
    "artifact-identity" := "ArtifactIdentityReport",
    "canonical-structure-check" := "CheckerTranscript",
    "external-contract" := "ContractDocument",
    "fe2o3-contract" := "ContractDocument",
    "hardware-test" := "HardwareTranscript",
    "independent-validator" := "ValidatorTranscript",
    "negative-mutation" := "MutationTranscript",
    "performance-gate" := "PerformanceReport",
    "tcb-report" := "TcbReport",
    "unsupported-rationale" := "UnsupportedRationale",
    "verus-theorem" := "TheoremTranscript"]

  const TCB_KINDS: map<string, string> := map[
    "tcb.compiler" := "Compiler", "tcb.hardware" := "Hardware", "tcb.runtime" := "Runtime"]

  // ---- records

  datatype Artifact = Artifact(id: string, kind: string, path: string, sha: string, size: int)
  datatype Source = Source(id: string, artifact: string)
  datatype Tcb = Tcb(id: string, kind: string, artifact: string, identity: string)

  datatype Key = Key(cls: string, id: string)

  datatype Binding = Binding(id: string, key: Key, profile: string, kind: string, path: string, source: string,
                             statement: string, tcbIds: seq<string>, artifact: string, sha: string)

  /** The fields that depend on the class and status of an obligation. */
  datatype Extra =
    | Roadmap(dependencies: seq<string>, receipt: string)
    | Proved(mutations: seq<string>, proofs: seq<string>)
    | Validated(validators: seq<string>, validatorTcb: seq<string>)
    | Unsupported(nonclaimTcb: seq<string>, rationale: string, rationales: seq<string>)

  datatype Obligation = Obligation(key: Key, status: string, statement: string, tcbIds: seq<string>,
                                   paths: seq<string>, evidence: seq<string>, extra: Extra)

  datatype Spec = Spec(key: Key, status: string, profiles: seq<string>, paths: seq<string>, statement: string,
                       dependencies: seq<string>)

  /** The requirements manifest; `resolutions` gives the source of each resolved path. */
  datatype Requirements = Requirements(specs: seq<Spec>, profiles: map<string, seq<string>>,
                                       classes: map<string, seq<string>>, resolutions: map<string, string>)

  datatype Index = Index(artifacts: seq<Artifact>, sources: seq<Source>, tcb: seq<Tcb>, bindings: seq<Binding>,
                         obligations: seq<Obligation>)

  /** What lies outside the index: lexical checks, digests, files and repositories. */
  datatype World = World(recordOk: Artifact -> bool, sourceOk: Source -> bool, safeId: string -> bool, isSha: string -> bool,
                         statementDigest: string -> string, bindingDigest: Binding -> string)

  // ---- small list functions

  /** The roster equals its own sorted form. */
  predicate Canonical(ids: seq<string>) {
    forall i, j :: 0 <= i < j < |ids| ==> !Before(ids[j], ids[i])
  }

  predicate Distinct(ids: seq<string>) {
    forall i, j :: 0 <= i < j < |ids| ==> ids[i] != ids[j]
  }

  function ArtifactIds(artifacts: seq<Artifact>): seq<string> {
    seq(|artifacts|, i requires 0 <= i < |artifacts| => artifacts[i].id)
  }

  function BindingIds(bindings: seq<Binding>): seq<string> {
    seq(|bindings|, i requires 0 <= i < |bindings| => bindings[i].id)
  }

  // ---- artifacts

  predicate KnownKind(kind: string) {
    kind in EVIDENCE_ARTIFACT_KINDS.Values || kind == RECEIPT_KIND || kind == SOURCE_KIND
  }

  predicate ArtifactOk(a: Artifact, w: World) {
    w.safeId(a.id) && KnownKind(a.kind) && 0 < a.size && w.isSha(a.sha) && w.recordOk(a)
  }

  predicate ArtifactsOk(artifacts: seq<Artifact>, w: World) {
    && artifacts != []
    && (forall i :: 0 <= i < |artifacts| ==> ArtifactOk(artifacts[i], w))
    && UniqueIds(artifacts)
    && (forall i, j :: 0 <= i < j < |artifacts| ==> artifacts[i].path != artifacts[j].path)
    && Canonical(ArtifactIds(artifacts))
  }

  /** The dictionary by id. */
  function ById(artifacts: seq<Artifact>): map<string, Artifact> {
    if artifacts == [] then map[]
    else ById(artifacts[..|artifacts| - 1])[artifacts[|artifacts| - 1].id := artifacts[|artifacts| - 1]]
  }

  predicate UniqueIds(artifacts: seq<Artifact>) {
    forall i, j :: 0 <= i < j < |artifacts| ==> artifacts[i].id != artifacts[j].id
  }

  /** With unique ids the dictionary is the roster. */
  lemma {:induction false} ByIdHolds(artifacts: seq<Artifact>)
    requires UniqueIds(artifacts)
    ensures forall id :: id in ById(artifacts) ==> ById(artifacts)[id] in artifacts && ById(artifacts)[id].id == id
    ensures forall a :: a in artifacts ==> a.id in ById(artifacts) && ById(artifacts)[a.id] == a
  {
    if artifacts != [] {
      var n := |artifacts| - 1;
      var front, last := artifacts[..n], artifacts[n];
      ByIdHolds(front);
      assert artifacts == front + [last];
      forall a | a in front ensures a.id != last.id {
        var i :| 0 <= i < n && front[i] == a;
        assert artifacts[i] == a;
      }
    }
  }

  method ValidateArtifacts(artifacts: seq<Artifact>, w: World) returns (r: Option<map<string, Artifact>>)
    ensures r == if ArtifactsOk(artifacts, w) then Some(ById(artifacts)) else None
  {
    hide ArtifactOk, Canonical;
    if artifacts == [] {
      return None;
    }
    var seen: map<string, Artifact> := map[];
    var paths: set<string> := {};
    for i := 0 to |artifacts|
      invariant seen == ById(artifacts[..i])
      invariant seen.Keys == set k | 0 <= k < i :: artifacts[k].id
      invariant paths == set k | 0 <= k < i :: artifacts[k].path
      invariant forall k :: 0 <= k < i ==> ArtifactOk(artifacts[k], w)
      invariant forall k, l :: 0 <= k < l < i ==> artifacts[k].id != artifacts[l].id && artifacts[k].path != artifacts[l].path
    {
      var a := artifacts[i];
      assert artifacts[..i + 1][..i] == artifacts[..i];
      if a.id in seen || a.path in paths || !ArtifactOk(a, w) {
        return None;
      }
      seen := seen[a.id := a];
      paths := paths + {a.path};
    }
    assert artifacts[..|artifacts|] == artifacts;
    if !Canonical(ArtifactIds(artifacts)) {
      return None;
    }
    r := Some(seen);
  }

  // ---- sources and TCB entries

  predicate HasKind(artifacts: map<string, Artifact>, id: string, kind: string) {
    id in artifacts && artifacts[id].kind == kind
  }

  predicate SourcesOk(sources: seq<Source>, artifacts: map<string, Artifact>, w: World) {
    && |sources| == |SOURCE_IDS|
    && forall i :: 0 <= i < |sources| ==>
         sources[i].id == SOURCE_IDS[i] && HasKind(artifacts, sources[i].artifact, SOURCE_KIND) && w.sourceOk(sources[i])
  }

  predicate TcbEntryOk(t: Tcb, artifacts: map<string, Artifact>, w: World) {
    && t.id in TCB_KINDS && TCB_KINDS[t.id] == t.kind
    && HasKind(artifacts, t.artifact, TCB_KIND)
    && w.isSha(t.identity) && t.identity == artifacts[t.artifact].sha
  }

  predicate TcbOk(tcb: seq<Tcb>, artifacts: map<string, Artifact>, w: World) {
    && |tcb| == |TCB_IDS|
    && (forall i :: 0 <= i < |tcb| ==> tcb[i].id == TCB_IDS[i] && TcbEntryOk(tcb[i], artifacts, w))
    && (forall i, j :: 0 <= i < j < |tcb| ==> tcb[i].artifact != tcb[j].artifact && tcb[i].identity != tcb[j].identity)
  }

  function SourceArtifacts(sources: seq<Source>): set<string> { set s | s in sources :: s.artifact }
  function TcbArtifacts(tcb: seq<Tcb>): set<string> { set t | t in tcb :: t.artifact }

  method ValidateSources(sources: seq<Source>, artifacts: map<string, Artifact>, w: World, used: set<string>)
    returns (ok: bool, used': set<string>)
    ensures ok <==> SourcesOk(sources, artifacts, w)
    ensures ok ==> used' == used + SourceArtifacts(sources)
  {
    used' := used;
    if |sources| != |SOURCE_IDS| {
      return false, used';
    }
    for i := 0 to |sources|
      invariant used' == used + set k | 0 <= k < i :: sources[k].artifact
      invariant forall k :: 0 <= k < i ==>
                  sources[k].id == SOURCE_IDS[k] && HasKind(artifacts, sources[k].artifact, SOURCE_KIND) && w.sourceOk(sources[k])
    {
      if sources[i].id != SOURCE_IDS[i] || !HasKind(artifacts, sources[i].artifact, SOURCE_KIND) || !w.sourceOk(sources[i]) {
        return false, used';
      }
      used' := used' + {sources[i].artifact};
    }
    ok := true;
  }

  method ValidateTcb(tcb: seq<Tcb>, artifacts: map<string, Artifact>, w: World, used: set<string>)
    returns (ok: bool, used': set<string>)
    ensures ok <==> TcbOk(tcb, artifacts, w)
    ensures ok ==> used' == used + TcbArtifacts(tcb)
  {
    hide TcbEntryOk;
    used' := used;
    if |tcb| != |TCB_IDS| {
      return false, used';
    }
    var artifactIds: set<string>, identities: set<string> := {}, {};
    for i := 0 to |tcb|
      invariant artifactIds == set k | 0 <= k < i :: tcb[k].artifact
      invariant identities == set k | 0 <= k < i :: tcb[k].identity
      invariant used' == used + artifactIds
      invariant forall k :: 0 <= k < i ==> tcb[k].id == TCB_IDS[k] && TcbEntryOk(tcb[k], artifacts, w)
      invariant forall k, l :: 0 <= k < l < i ==> tcb[k].artifact != tcb[l].artifact && tcb[k].identity != tcb[l].identity
    {
      var t := tcb[i];
      if t.id != TCB_IDS[i] || !TcbEntryOk(t, artifacts, w) || t.artifact in artifactIds || t.identity in identities {
        return false, used';
      }
      artifactIds := artifactIds + {t.artifact};
      identities := identities + {t.identity};
      used' := used' + {t.artifact};
    }
    ok := true;
  }

  // ---- bindings

  /** `spec_by_key.get`. */
  function SpecFor(specs: seq<Spec>, key: Key): Option<Spec> {
    if specs == [] then None
    else if specs[|specs| - 1].key == key then Some(specs[|specs| - 1])
    else SpecFor(specs[..|specs| - 1], key)
  }

  predicate BindingOk(b: Binding, req: Requirements, artifacts: map<string, Artifact>, w: World) {
    && w.safeId(b.id)
    && var spec := SpecFor(req.specs, b.key);
    && spec.Some?
    && b.profile in spec.value.profiles && b.profile in req.profiles && b.kind in req.profiles[b.profile]
    && b.kind in req.classes && b.key.cls in req.classes[b.kind]
    && b.path in spec.value.paths && b.path in req.resolutions && b.source == req.resolutions[b.path]
    && b.statement == w.statementDigest(spec.value.statement)
    && b.tcbIds == TCB_IDS
    && b.kind in EVIDENCE_ARTIFACT_KINDS && HasKind(artifacts, b.artifact, EVIDENCE_ARTIFACT_KINDS[b.kind])
    && b.sha == w.bindingDigest(b.(sha := ""))
  }

  function Triplet(b: Binding): (Key, string, string, string) {
    (b.key, b.profile, b.kind, b.path)
  }

  predicate NoRepeats(bindings: seq<Binding>) {
    forall i, j :: 0 <= i < j < |bindings| ==>
      && bindings[i].id != bindings[j].id
      && bindings[i].artifact != bindings[j].artifact
      && Triplet(bindings[i]) != Triplet(bindings[j])
  }

  /** The ids of the bindings of one obligation, in order. */
  function Group(bindings: seq<Binding>, key: Key): seq<string> {
    if bindings == [] then []
    else
      var front := Group(bindings[..|bindings| - 1], key);
      if bindings[|bindings| - 1].key == key then front + [bindings[|bindings| - 1].id] else front
  }

  function ExpectedPairs(spec: Spec, req: Requirements): set<(string, string)> {
    set p, k | p in spec.profiles && p in req.profiles && k in req.profiles[p]
               && k in req.classes && spec.key.cls in req.classes[k] :: (p, k)
  }

  function ObservedPairs(bindings: seq<Binding>, key: Key): set<(string, string)> {
    set b | b in bindings && b.key == key :: (b.profile, b.kind)
  }

  function ObservedPaths(bindings: seq<Binding>, key: Key): set<string> {
    set b | b in bindings && b.key == key :: b.path
  }

  /** Every profile, kind and path that the obligation calls for has evidence. */
  predicate Closed(bindings: seq<Binding>, spec: Spec, req: Requirements) {
    && ObservedPairs(bindings, spec.key) == ExpectedPairs(spec, req)
    && ObservedPaths(bindings, spec.key) == set p | p in spec.paths
  }

  predicate BindingsOk(bindings: seq<Binding>, req: Requirements, artifacts: map<string, Artifact>, w: World) {
    && bindings != []
    && (forall i :: 0 <= i < |bindings| ==> BindingOk(bindings[i], req, artifacts, w))
    && NoRepeats(bindings)
    && Canonical(BindingIds(bindings))
    && (forall i :: 0 <= i < |req.specs| ==> Closed(bindings, req.specs[i], req))
  }

  /** `grouped` as a dictionary with an empty default. */
  function Lookup(grouped: map<Key, seq<string>>, key: Key): seq<string> {
    if key in grouped then grouped[key] else []
  }

  predicate IsGrouped(grouped: map<Key, seq<string>>, bindings: seq<Binding>, key: Key) {
    Lookup(grouped, key) == Group(bindings, key)
  }

  lemma GroupedStep(grouped: map<Key, seq<string>>, bindings: seq<Binding>, b: Binding,
                    grouped': map<Key, seq<string>>, bindings': seq<Binding>)
    requires forall key :: IsGrouped(grouped, bindings, key)
    requires grouped' == grouped[b.key := Lookup(grouped, b.key) + [b.id]] && bindings' == bindings + [b]
    ensures forall key :: IsGrouped(grouped', bindings', key)
  {
    forall key ensures IsGrouped(grouped', bindings', key) {
      assert IsGrouped(grouped, bindings, key);
      assert bindings'[..|bindings|] == bindings;
    }
  }

  function IdSet(bindings: seq<Binding>): set<string> { set b | b in bindings :: b.id }
  function Taken(bindings: seq<Binding>): set<string> { set b | b in bindings :: b.artifact }
  function Triplets(bindings: seq<Binding>): set<(Key, string, string, string)> { set b | b in bindings :: Triplet(b) }

  lemma SetsStep(bindings: seq<Binding>, b: Binding)
    ensures IdSet(bindings + [b]) == IdSet(bindings) + {b.id}
    ensures Taken(bindings + [b]) == Taken(bindings) + {b.artifact}
    ensures Triplets(bindings + [b]) == Triplets(bindings) + {Triplet(b)}
  {
  }

  lemma NoRepeatsStep(bindings: seq<Binding>, b: Binding)
    requires NoRepeats(bindings)
    ensures NoRepeats(bindings + [b]) <==>
            b.id !in IdSet(bindings) && b.artifact !in Taken(bindings) && Triplet(b) !in Triplets(bindings)
  {
    var more := bindings + [b];
    forall i | 0 <= i < |bindings| ensures more[i] == bindings[i] && bindings[i] in bindings {}
    if NoRepeats(more) {
      forall a | a in bindings ensures a.id != b.id && a.artifact != b.artifact && Triplet(a) != Triplet(b) {
        var i :| 0 <= i < |bindings| && bindings[i] == a;
        assert more[i] == a && more[|bindings|] == b;
      }
    }
  }

  lemma NoRepeatsPrefix(bindings: seq<Binding>, n: nat)
    requires NoRepeats(bindings) && n <= |bindings|
    ensures NoRepeats(bindings[..n])
  {
  }

  /** The loop of `validate_bindings`: record by record. */
  method CollectBindings(bindings: seq<Binding>, req: Requirements, artifacts: map<string, Artifact>, w: World, used: set<string>)
    returns (ok: bool, grouped: map<Key, seq<string>>, used': set<string>)
    ensures ok <==> (forall i :: 0 <= i < |bindings| ==> BindingOk(bindings[i], req, artifacts, w)) && NoRepeats(bindings)
    ensures ok ==> used' == used + Taken(bindings)
    ensures ok ==> forall key :: IsGrouped(grouped, bindings, key)
  {
    hide BindingOk, NoRepeats, IdSet, Taken, Triplets, IsGrouped;
    grouped, used' := map[], used;
    var ids: set<string>, triplets: set<(Key, string, string, string)>, taken: set<string> := {}, {}, {};
    NothingCollected();
    assert bindings[..0] == [];
    for i := 0 to |bindings|
      invariant ids == IdSet(bindings[..i]) && triplets == Triplets(bindings[..i]) && taken == Taken(bindings[..i])
      invariant used' == used + taken
      invariant NoRepeats(bindings[..i])
      invariant forall k :: 0 <= k < i ==> BindingOk(bindings[k], req, artifacts, w)
      invariant forall key :: IsGrouped(grouped, bindings[..i], key)
    {
      var b := bindings[i];
      assert bindings[..i + 1] == bindings[..i] + [b];
      SetsStep(bindings[..i], b);
      NoRepeatsStep(bindings[..i], b);
      if NoRepeats(bindings) { NoRepeatsPrefix(bindings, i + 1); }
      if b.id in ids || Triplet(b) in triplets || b.artifact in taken || !BindingOk(b, req, artifacts, w) {
        return false, grouped, used';
      }
      GroupedStep(grouped, bindings[..i], b, grouped[b.key := Lookup(grouped, b.key) + [b.id]], bindings[..i + 1]);
      ids := ids + {b.id};
      triplets := triplets + {Triplet(b)};
      taken := taken + {b.artifact};
      used' := used' + {b.artifact};
      grouped := grouped[b.key := Lookup(grouped, b.key) + [b.id]];
    }
    assert bindings[..|bindings|] == bindings;
    ok := true;
  }

  lemma NothingCollected()
    ensures NoRepeats([]) && IdSet([]) == {} && Taken([]) == {} && Triplets([]) == {}
    ensures forall key :: IsGrouped(map[], [], key)
  {
  }

  method ValidateBindings(bindings: seq<Binding>, req: Requirements, artifacts: map<string, Artifact>, w: World, used: set<string>)
    returns (ok: bool, grouped: map<Key, seq<string>>, used': set<string>)
    ensures ok <==> BindingsOk(bindings, req, artifacts, w)
    ensures ok ==> used' == used + Taken(bindings)
    ensures ok ==> forall key :: IsGrouped(grouped, bindings, key)
  {
    hide BindingOk, NoRepeats, Closed, Taken, IsGrouped, Canonical;
    if bindings == [] {
      return false, map[], used;
    }
    ok, grouped, used' := CollectBindings(bindings, req, artifacts, w, used);
    if !ok {
      return;
    }
    if !Canonical(BindingIds(bindings)) {
      return false, grouped, used';
    }
    for i := 0 to |req.specs|
      invariant forall k :: 0 <= k < i ==> Closed(bindings, req.specs[k], req)
    {
      if !Closed(bindings, req.specs[i], req) {
        return false, grouped, used';
      }
    }
    ok := true;
  }

  // ---- obligations

  /** `binding_artifacts_for_kind`. */
  function ArtifactsForKind(bindings: seq<Binding>, key: Key, kind: string): seq<string> {
    Sorted(PickArtifacts(bindings, key, kind))
  }

  function PickArtifacts(bindings: seq<Binding>, key: Key, kind: string): seq<string> {
    if bindings == [] then []
    else
      var rest := PickArtifacts(bindings[1..], key, kind);
      if bindings[0].key == key && bindings[0].kind == kind then [bindings[0].artifact] + rest else rest
  }

  predicate ReceiptOk(receipt: string, artifacts: map<string, Artifact>, allowMissing: bool) {
    if receipt !in artifacts && allowMissing then receipt == RECEIPT_ID else HasKind(artifacts, receipt, RECEIPT_KIND)
  }

  predicate ExtraOk(o: Obligation, spec: Spec, bindings: seq<Binding>, artifacts: map<string, Artifact>, allowMissing: bool) {
    if spec.key.cls == "Roadmap" then
      o.extra.Roadmap? && o.extra.dependencies == spec.dependencies && ReceiptOk(o.extra.receipt, artifacts, allowMissing)
    else if spec.status == "Proved" then
      var proofs := ArtifactsForKind(bindings, spec.key, "verus-theorem");
      var mutations := ArtifactsForKind(bindings, spec.key, "negative-mutation");
      o.extra.Proved? && proofs != [] && o.extra.proofs == proofs && mutations != [] && o.extra.mutations == mutations
    else if spec.status == "Validated" then
      var validators := ArtifactsForKind(bindings, spec.key, "independent-validator");
      o.extra.Validated? && validators != [] && o.extra.validators == validators && o.extra.validatorTcb == TCB_IDS
    else
      var rationales := ArtifactsForKind(bindings, spec.key, "unsupported-rationale");
      && spec.status == "Unsupported" && o.extra.Unsupported? && o.extra.rationale == spec.statement
      && o.extra.rationales != [] && Distinct(o.extra.rationales) && o.extra.rationales == rationales
      && o.extra.nonclaimTcb == TCB_IDS
  }

  predicate ObligationOk(o: Obligation, spec: Spec, group: seq<string>, bindings: seq<Binding>,
                         artifacts: map<string, Artifact>, w: World, allowMissing: bool) {
    && o.key == spec.key && o.status == spec.status && o.statement == w.statementDigest(spec.statement)
    && o.tcbIds == TCB_IDS && o.paths == spec.paths
    && o.evidence != [] && Distinct(o.evidence) && o.evidence == group
    && ExtraOk(o, spec, bindings, artifacts, allowMissing)
  }

  function Receipts(obligations: seq<Obligation>): set<string> {
    set o | o in obligations && o.extra.Roadmap? :: o.extra.receipt
  }

  /** The ids that the obligations refer to, in order. */
  function Referenced(obligations: seq<Obligation>): seq<string> {
    if obligations == [] then [] else Referenced(obligations[..|obligations| - 1]) + obligations[|obligations| - 1].evidence
  }

  /** All checks of `validate_obligations`: besides each record and the single receipt,
      no binding is referenced twice and none is left unreferenced. */
  predicate ObligationsOk(obligations: seq<Obligation>, specs: seq<Spec>, bindings: seq<Binding>,
                          artifacts: map<string, Artifact>, w: World, allowMissing: bool) {
    && |obligations| == |specs|
    && RecordsOk(obligations, specs, bindings, artifacts, w, allowMissing, |specs|)
    && SetOf(Referenced(obligations)) == SetOf(BindingIds(bindings))
    && |Receipts(obligations)| == 1
  }

  /** The first n records fit their specifications, and each brings a new key and
      only bindings that no earlier record refers to. */
  predicate RecordsOk(obligations: seq<Obligation>, specs: seq<Spec>, bindings: seq<Binding>,
                      artifacts: map<string, Artifact>, w: World, allowMissing: bool, n: nat)
    requires n <= |specs| == |obligations|
  {
    n == 0 ||
    (var o := obligations[n - 1];
     && RecordsOk(obligations, specs, bindings, artifacts, w, allowMissing, n - 1)
     && ObligationOk(o, specs[n - 1], Group(bindings, o.key), bindings, artifacts, w, allowMissing)
     && o.key !in Keys(obligations[..n - 1])
     && Disjoint(o.evidence, Referenced(obligations[..n - 1])))
  }

  function SetOf(ids: seq<string>): set<string> {
    set id | id in ids
  }

  function Keys(obligations: seq<Obligation>): set<Key> {
    set o | o in obligations :: o.key
  }

  lemma {:induction false} RecordsPrefix(obligations: seq<Obligation>, specs: seq<Spec>, bindings: seq<Binding>,
                                         artifacts: map<string, Artifact>, w: World, allowMissing: bool, n: nat, m: nat)
    requires n <= m <= |specs| == |obligations| && RecordsOk(obligations, specs, bindings, artifacts, w, allowMissing, m)
    ensures RecordsOk(obligations, specs, bindings, artifacts, w, allowMissing, n)
    decreases m
  {
    hide ObligationOk;
    if n < m { RecordsPrefix(obligations, specs, bindings, artifacts, w, allowMissing, n, m - 1); }
  }

  lemma {:induction false} ReferencesStay(obligations: seq<Obligation>, i: nat, n: nat)
    requires i < n <= |obligations|
    ensures forall id :: id in obligations[i].evidence ==> id in Referenced(obligations[..n])
    decreases n
  {
    ReferencedStep(obligations, n - 1);
    if i < n - 1 { ReferencesStay(obligations, i, n - 1); }
  }

  predicate Disjoint(a: seq<string>, b: seq<string>) {
    forall x :: x in a ==> x !in b
  }

  method ValidateObligations(obligations: seq<Obligation>, specs: seq<Spec>, bindings: seq<Binding>,
                             grouped: map<Key, seq<string>>, artifacts: map<string, Artifact>, w: World, allowMissing: bool,
                             used: set<string>)
    returns (ok: bool, used': set<string>)
    requires forall key :: IsGrouped(grouped, bindings, key)
    ensures ok <==> ObligationsOk(obligations, specs, bindings, artifacts, w, allowMissing)
    ensures ok ==> used' == used + (Receipts(obligations) * artifacts.Keys)
  {
    hide ObligationOk, Group, Keys, Receipts, SetOf, Referenced;
    used' := used;
    if |obligations| != |specs| {
      return false, used';
    }
    var seen: set<Key>, referenced: set<string>, receipts: set<string> := {}, {}, {};
    EmptyLoop(obligations);
    for i := 0 to |specs|
      invariant seen == Keys(obligations[..i])
      invariant referenced == SetOf(Referenced(obligations[..i]))
      invariant receipts == Receipts(obligations[..i])
      invariant used' == used + (receipts * artifacts.Keys)
      invariant RecordsOk(obligations, specs, bindings, artifacts, w, allowMissing, i)
    {
      var o, spec := obligations[i], specs[i];
      LoopStep(obligations, i, used, artifacts.Keys);
      if RecordsOk(obligations, specs, bindings, artifacts, w, allowMissing, |specs|) {
        RecordsPrefix(obligations, specs, bindings, artifacts, w, allowMissing, i + 1, |specs|);
      }
      assert IsGrouped(grouped, bindings, o.key);
      if o.key in seen || !ObligationOk(o, spec, Lookup(grouped, o.key), bindings, artifacts, w, allowMissing) {
        return false, used';
      }
      MemberOfSet(Referenced(obligations[..i]));
      if exists id :: id in o.evidence && id in referenced {
        return false, used';
      }
      referenced := referenced + SetOf(o.evidence);
      if o.extra.Roadmap? {
        receipts := receipts + {o.extra.receipt};
        if o.extra.receipt in artifacts {
          used' := used' + {o.extra.receipt};
        }
      }
      seen := seen + {o.key};
    }
    assert obligations[..|specs|] == obligations;
    if referenced != SetOf(BindingIds(bindings)) || |receipts| != 1 {
      return false, used';
    }
    ok := true;
  }

  lemma EmptyLoop(obligations: seq<Obligation>)
    ensures Keys(obligations[..0]) == {} && SetOf(Referenced(obligations[..0])) == {} && Receipts(obligations[..0]) == {}
  {
    assert obligations[..0] == [];
  }

  lemma MemberOfSet(ids: seq<string>)
    ensures forall id :: id in ids <==> id in SetOf(ids)
  {
  }

  /** How the sets of the loop grow by one record. */
  lemma LoopStep(obligations: seq<Obligation>, i: nat, used: set<string>, present: set<string>)
    requires i < |obligations|
    ensures var o := obligations[i];
            var receipts := Receipts(obligations[..i]);
            var added := if o.extra.Roadmap? then {o.extra.receipt} else {};
            && Keys(obligations[..i + 1]) == Keys(obligations[..i]) + {o.key}
            && SetOf(Referenced(obligations[..i + 1])) == SetOf(Referenced(obligations[..i])) + SetOf(o.evidence)
            && Receipts(obligations[..i + 1]) == receipts + added
            && used + ((receipts + added) * present) == (used + (receipts * present)) + (added * present)
  {
    assert obligations[..i + 1] == obligations[..i] + [obligations[i]];
    ReferencedStep(obligations, i);
    ReceiptsStep(obligations, i);
  }

  lemma ReferencedStep(obligations: seq<Obligation>, i: nat)
    requires i < |obligations|
    ensures Referenced(obligations[..i + 1]) == Referenced(obligations[..i]) + obligations[i].evidence
  {
    assert obligations[..i + 1][..i] == obligations[..i];
  }

  lemma ReceiptsStep(obligations: seq<Obligation>, i: nat)
    requires i < |obligations|
    ensures Receipts(obligations[..i + 1])
            == Receipts(obligations[..i]) + if obligations[i].extra.Roadmap? then {obligations[i].extra.receipt} else {}
  {
    assert obligations[..i + 1] == obligations[..i] + [obligations[i]];
  }

  lemma {:induction false} ReferencedByEarlier(obligations: seq<Obligation>, i: nat, id: string)
    requires i <= |obligations| && id in Referenced(obligations[..i])
    ensures exists k :: 0 <= k < i && id in obligations[k].evidence
  {
    if i != 0 {
      ReferencedStep(obligations, i - 1);
      if id !in obligations[i - 1].evidence { ReferencedByEarlier(obligations, i - 1, id); }
    }
  }

  // ---- the whole index

  function PresentReceipts(index: Index): set<string> {
    Receipts(index.obligations) * ById(index.artifacts).Keys
  }

  function UsedArtifacts(index: Index): set<string> {
    SourceArtifacts(index.sources) + TcbArtifacts(index.tcb) + Taken(index.bindings) + PresentReceipts(index)
  }

  /** The structural stages of `validate_evidence_index`; `preReceipt` is the mode for
      a candidate that does not have its qualification receipt yet. */
  predicate Accepts(index: Index, req: Requirements, w: World, preReceipt: bool) {
    var artifacts := ById(index.artifacts);
    && ArtifactsOk(index.artifacts, w)
    && (preReceipt ==> RECEIPT_ID !in artifacts)
    && SourcesOk(index.sources, artifacts, w)
    && TcbOk(index.tcb, artifacts, w)
    && BindingsOk(index.bindings, req, artifacts, w)
    && ObligationsOk(index.obligations, req.specs, index.bindings, artifacts, w, preReceipt)
    && UsedArtifacts(index) == artifacts.Keys
  }

  method ValidateIndex(index: Index, req: Requirements, w: World, preReceipt: bool) returns (ok: bool)
    ensures ok <==> Accepts(index, req, w, preReceipt)
  {
    hide ArtifactsOk, SourcesOk, TcbOk, BindingsOk, ObligationsOk, ById, IsGrouped, SourceArtifacts, TcbArtifacts, Taken;
    var artifacts := ValidateArtifacts(index.artifacts, w);
    if artifacts.None? || (preReceipt && RECEIPT_ID in artifacts.value) {
      return false;
    }
    var used: set<string> := {};
    ok, used := ValidateSources(index.sources, artifacts.value, w, used);
    if !ok { return; }
    ok, used := ValidateTcb(index.tcb, artifacts.value, w, used);
    if !ok { return; }
    var grouped;
    ok, grouped, used := ValidateBindings(index.bindings, req, artifacts.value, w, used);
    if !ok { return; }
    ok, used := ValidateObligations(index.obligations, req.specs, index.bindings, grouped, artifacts.value, w, preReceipt, used);
    if !ok { return; }
    ok := used == artifacts.value.Keys;
  }

  // ---- an accepted index is an exact cover

  lemma {:induction false} GroupMembers(bindings: seq<Binding>, key: Key, id: string)
    ensures id in Group(bindings, key) <==> exists b :: b in bindings && b.key == key && b.id == id
  {
    if bindings != [] {
      var n := |bindings| - 1;
      GroupMembers(bindings[..n], key, id);
      assert bindings == bindings[..n] + [bindings[n]];
    }
  }

  /** The final `sort` of each group changes nothing: the roster is canonical, so every
      group is already in order. */
  lemma {:induction false} GroupIsAlreadySorted(bindings: seq<Binding>, key: Key)
    requires Canonical(BindingIds(bindings))
    ensures Canonical(Group(bindings, key))
  {
    if bindings != [] {
      var n := |bindings| - 1;
      var front, last, ids := bindings[..n], bindings[n], BindingIds(bindings);
      forall i, j | 0 <= i < j < n ensures !Before(BindingIds(front)[j], BindingIds(front)[i]) {
        assert BindingIds(front)[i] == ids[i] && BindingIds(front)[j] == ids[j];
      }
      GroupIsAlreadySorted(front, key);
      forall i | 0 <= i < |Group(front, key)| ensures !Before(last.id, Group(front, key)[i]) {
        GroupMembers(front, key, Group(front, key)[i]);
        var b :| b in front && b.key == key && b.id == Group(front, key)[i];
        var k :| 0 <= k < n && front[k] == b;
        assert ids[k] == b.id && ids[n] == last.id;
      }
    }
  }

  lemma SameIdSameBinding(bindings: seq<Binding>, a: Binding, b: Binding)
    requires NoRepeats(bindings) && a in bindings && b in bindings
    requires a.id == b.id || a.artifact == b.artifact || Triplet(a) == Triplet(b)
    ensures a == b
  {
    var i :| 0 <= i < |bindings| && bindings[i] == a;
    var j :| 0 <= j < |bindings| && bindings[j] == b;
    assert i == j;
  }

  predicate DistinctSpecs(specs: seq<Spec>) {
    forall i, j :: 0 <= i < j < |specs| ==> specs[i].key != specs[j].key
  }

  lemma {:induction false} SpecForFinds(specs: seq<Spec>, key: Key)
    requires SpecFor(specs, key).Some?
    ensures exists i :: 0 <= i < |specs| && specs[i].key == key
  {
    var n := |specs| - 1;
    if specs[n].key != key {
      SpecForFinds(specs[..n], key);
      var i :| 0 <= i < n && specs[..n][i].key == key;
      assert specs[i].key == key;
    }
  }

  /** The record-by-record roster comparison with the groups alone. */
  predicate RostersMatch(obligations: seq<Obligation>, specs: seq<Spec>, bindings: seq<Binding>) {
    && |obligations| == |specs|
    && forall i :: 0 <= i < |specs| ==>
         obligations[i].key == specs[i].key && obligations[i].evidence == Group(bindings, obligations[i].key)
  }

  lemma {:induction false} ReferencedIsGrouped(obligations: seq<Obligation>, specs: seq<Spec>, bindings: seq<Binding>, n: nat,
                                               id: string)
    requires RostersMatch(obligations, specs, bindings) && n <= |obligations|
    ensures id in Referenced(obligations[..n]) <==>
            exists b :: b in bindings && b.id == id && exists k :: 0 <= k < n && obligations[k].key == b.key
  {
    if n == 0 {
      assert obligations[..0] == [];
    } else {
      ReferencedStep(obligations, n - 1);
      ReferencedIsGrouped(obligations, specs, bindings, n - 1, id);
      GroupMembers(bindings, obligations[n - 1].key, id);
    }
  }

  /** Roster equality already implies the two later checks: no binding is referenced by
      two obligations, and none is left unreferenced. */
  lemma RosterEqualityIsCover(obligations: seq<Obligation>, req: Requirements, bindings: seq<Binding>,
                              artifacts: map<string, Artifact>, w: World, n: nat)
    requires RostersMatch(obligations, req.specs, bindings) && DistinctSpecs(req.specs)
    requires BindingsOk(bindings, req, artifacts, w) && n < |obligations|
    ensures Disjoint(obligations[n].evidence, Referenced(obligations[..n]))
    ensures SetOf(Referenced(obligations)) == SetOf(BindingIds(bindings))
  {
    hide BindingOk, Closed, Canonical, Group, Referenced;
    forall id | id in obligations[n].evidence ensures id !in Referenced(obligations[..n]) {
      GroupMembers(bindings, obligations[n].key, id);
      ReferencedIsGrouped(obligations, req.specs, bindings, n, id);
      var a :| a in bindings && a.key == obligations[n].key && a.id == id;
      OneKeyPerId(obligations, req.specs, bindings, n, a);
    }
    forall id ensures id in Referenced(obligations) <==> id in BindingIds(bindings) {
      AllReferenced(obligations, req, bindings, artifacts, w, id);
    }
  }

  /** The obligation that a binding belongs to is the only one with its key. */
  lemma OneKeyPerId(obligations: seq<Obligation>, specs: seq<Spec>, bindings: seq<Binding>, n: nat, a: Binding)
    requires RostersMatch(obligations, specs, bindings) && DistinctSpecs(specs) && NoRepeats(bindings) && n < |obligations|
    requires a in bindings && a.key == obligations[n].key
    ensures forall b :: b in bindings && b.id == a.id ==> forall k :: 0 <= k < n ==> obligations[k].key != b.key
  {
    hide Group;
    forall b, k | b in bindings && b.id == a.id && 0 <= k < n ensures obligations[k].key != b.key {
      SameIdSameBinding(bindings, a, b);
      assert specs[k].key != specs[n].key;
    }
  }

  lemma BindingHasSpec(b: Binding, req: Requirements, artifacts: map<string, Artifact>, w: World)
    requires BindingOk(b, req, artifacts, w)
    ensures SpecFor(req.specs, b.key).Some?
  {}

  lemma AllReferenced(obligations: seq<Obligation>, req: Requirements, bindings: seq<Binding>,
                      artifacts: map<string, Artifact>, w: World, id: string)
    requires RostersMatch(obligations, req.specs, bindings) && BindingsOk(bindings, req, artifacts, w)
    ensures id in Referenced(obligations) <==> id in BindingIds(bindings)
  {
    hide Closed, Canonical, Group, Referenced, NoRepeats, BindingOk, SpecFor;
    ReferencedIsGrouped(obligations, req.specs, bindings, |obligations|, id);
    assert obligations[..|obligations|] == obligations;
    if id in BindingIds(bindings) {
      var i :| 0 <= i < |bindings| && BindingIds(bindings)[i] == id;
      assert SpecFor(req.specs, bindings[i].key).Some? by { BindingHasSpec(bindings[i], req, artifacts, w); }
      SpecForFinds(req.specs, bindings[i].key);
      var k :| 0 <= k < |req.specs| && req.specs[k].key == bindings[i].key;
      assert obligations[k].key == bindings[i].key && bindings[i] in bindings;
    }
    if id in Referenced(obligations) {
      var b :| b in bindings && b.id == id;
      var i :| 0 <= i < |bindings| && bindings[i] == b;
      assert BindingIds(bindings)[i] == id;
    }
  }

  /** Global evidence kinds bind to no obligation class, as the requirements manifest is
      checked to say. */
  predicate TcbReportsAreGlobal(req: Requirements) {
    "tcb-report" in req.classes ==> req.classes["tcb-report"] == []
  }

  predicate Refers(o: Obligation, b: Binding) { b.id in o.evidence }

  lemma RecordsMatch(obligations: seq<Obligation>, specs: seq<Spec>, bindings: seq<Binding>,
                     artifacts: map<string, Artifact>, w: World, allowMissing: bool, i: nat)
    requires |specs| == |obligations| && i < |specs|
    requires RecordsOk(obligations, specs, bindings, artifacts, w, allowMissing, |specs|)
    ensures ObligationOk(obligations[i], specs[i], Group(bindings, obligations[i].key), bindings, artifacts, w, allowMissing)
    ensures Disjoint(obligations[i].evidence, Referenced(obligations[..i]))
  {
    hide ObligationOk;
    RecordsPrefix(obligations, specs, bindings, artifacts, w, allowMissing, i + 1, |specs|);
  }

  /** Each binding belongs to exactly one obligation, the one whose key it names. */
  lemma EachBindingHasOneObligation(index: Index, req: Requirements, w: World, preReceipt: bool, b: Binding)
    requires Accepts(index, req, w, preReceipt) && b in index.bindings
    ensures exists k :: 0 <= k < |index.obligations| && Refers(index.obligations[k], b)
    ensures forall k, l :: 0 <= k < l < |index.obligations| ==>
              !(Refers(index.obligations[k], b) && Refers(index.obligations[l], b))
    ensures forall k :: 0 <= k < |index.obligations| && Refers(index.obligations[k], b) ==>
              index.obligations[k].key == b.key
  {
    hide ArtifactsOk, SourcesOk, TcbOk, BindingOk, Closed, Canonical, RecordsOk, Referenced, Group, ExtraOk;
    var artifacts, obligations := ById(index.artifacts), index.obligations;
    var i :| 0 <= i < |index.bindings| && index.bindings[i] == b;
    assert BindingIds(index.bindings)[i] == b.id;
    assert b.id in SetOf(Referenced(obligations));
    assert obligations[..|obligations|] == obligations;
    ReferencedByEarlier(obligations, |obligations|, b.id);
    forall k, l | 0 <= k < l < |obligations| ensures !(Refers(obligations[k], b) && Refers(obligations[l], b)) {
      RecordsMatch(obligations, req.specs, index.bindings, artifacts, w, preReceipt, l);
      ReferencesStay(obligations, k, l);
    }
    forall k | 0 <= k < |obligations| && Refers(obligations[k], b) ensures obligations[k].key == b.key {
      RecordsMatch(obligations, req.specs, index.bindings, artifacts, w, preReceipt, k);
      GroupMembers(index.bindings, obligations[k].key, b.id);
      var a :| a in index.bindings && a.key == obligations[k].key && a.id == b.id;
      SameIdSameBinding(index.bindings, a, b);
    }
  }

  lemma ReceiptsAreReceipts(index: Index, req: Requirements, w: World, preReceipt: bool, id: string)
    requires Accepts(index, req, w, preReceipt) && id in PresentReceipts(index)
    ensures HasKind(ById(index.artifacts), id, RECEIPT_KIND)
  {
    hide ArtifactsOk, SourcesOk, TcbOk, BindingsOk, RecordsOk, Referenced, Group, ById, ArtifactsForKind;
    var o :| o in index.obligations && o.extra.Roadmap? && o.extra.receipt == id;
    var i :| 0 <= i < |index.obligations| && index.obligations[i] == o;
    RecordsMatch(index.obligations, req.specs, index.bindings, ById(index.artifacts), w, preReceipt, i);
  }

  lemma BindingKind(index: Index, req: Requirements, w: World, preReceipt: bool, b: Binding)
    requires Accepts(index, req, w, preReceipt) && b in index.bindings && TcbReportsAreGlobal(req)
    ensures b.artifact in ById(index.artifacts)
    ensures ById(index.artifacts)[b.artifact].kind !in {SOURCE_KIND, TCB_KIND, RECEIPT_KIND}
  {
    hide ArtifactsOk, SourcesOk, TcbOk, Closed, Canonical, NoRepeats, ObligationsOk, ById, BindingOk;
    var i :| 0 <= i < |index.bindings| && index.bindings[i] == b;
    BindingHasKind(b, req, ById(index.artifacts), w);
    EvidenceKindIsOwn(b.kind);
  }

  lemma BindingHasKind(b: Binding, req: Requirements, artifacts: map<string, Artifact>, w: World)
    requires BindingOk(b, req, artifacts, w) && TcbReportsAreGlobal(req)
    ensures b.kind in EVIDENCE_ARTIFACT_KINDS && HasKind(artifacts, b.artifact, EVIDENCE_ARTIFACT_KINDS[b.kind])
    ensures b.kind != "tcb-report"
  {
    hide SpecFor;
  }

  lemma EvidenceKindIsOwn(kind: string)
    requires kind in EVIDENCE_ARTIFACT_KINDS && kind != "tcb-report"
    ensures EVIDENCE_ARTIFACT_KINDS[kind] !in {SOURCE_KIND, TCB_KIND, RECEIPT_KIND}
  {}

  /** Every artifact has exactly one role: closure of a source, report of a TCB entry,
      evidence of a binding, or qualification receipt.  Bindings and TCB entries map
      one to one to their artifacts. */
  lemma EachArtifactHasOneRole(index: Index, req: Requirements, w: World, preReceipt: bool)
    requires Accepts(index, req, w, preReceipt) && TcbReportsAreGlobal(req)
    ensures var sources, tcb := SourceArtifacts(index.sources), TcbArtifacts(index.tcb);
            var evidence, receipts := Taken(index.bindings), PresentReceipts(index);
            && ById(index.artifacts).Keys == sources + tcb + evidence + receipts
            && sources !! tcb && sources !! evidence && sources !! receipts
            && tcb !! evidence && tcb !! receipts && evidence !! receipts
    ensures forall a, b :: a in index.bindings && b in index.bindings && a.artifact == b.artifact ==> a == b
    ensures forall i, j :: 0 <= i < j < |index.tcb| ==> index.tcb[i].artifact != index.tcb[j].artifact
  {
    hide ArtifactsOk, BindingsOk, ObligationsOk, Receipts, ById;
    var artifacts := ById(index.artifacts);
    forall id | id in Taken(index.bindings)
      ensures id in artifacts && artifacts[id].kind !in {SOURCE_KIND, TCB_KIND, RECEIPT_KIND}
    {
      var b :| b in index.bindings && b.artifact == id;
      BindingKind(index, req, w, preReceipt, b);
    }
    forall id | id in PresentReceipts(index) ensures HasKind(artifacts, id, RECEIPT_KIND) {
      ReceiptsAreReceipts(index, req, w, preReceipt, id);
    }
    forall id | id in SourceArtifacts(index.sources) ensures HasKind(artifacts, id, SOURCE_KIND) {}
    forall id | id in TcbArtifacts(index.tcb) ensures HasKind(artifacts, id, TCB_KIND) {}
    forall a, b | a in index.bindings && b in index.bindings && a.artifact == b.artifact ensures a == b {
      BindingsDoNotRepeat(index.bindings, req, artifacts, w);
      SameIdSameBinding(index.bindings, a, b);
    }
  }

  lemma BindingsDoNotRepeat(bindings: seq<Binding>, req: Requirements, artifacts: map<string, Artifact>, w: World)
    requires BindingsOk(bindings, req, artifacts, w)
    ensures NoRepeats(bindings)
  {
  }

  // ---- dropping the receipt

  function WithoutAt(artifacts: seq<Artifact>, r: nat): seq<Artifact>
    requires r < |artifacts|
  {
    artifacts[..r] + artifacts[r + 1..]
  }

  /** The position in the full roster of position i of the shortened one. */
  function Back(i: nat, r: nat): nat { if i < r then i else i + 1 }

  lemma WithoutIsOk(artifacts: seq<Artifact>, w: World, r: nat)
    requires ArtifactsOk(artifacts, w) && r < |artifacts| && 2 <= |artifacts|
    ensures ArtifactsOk(WithoutAt(artifacts, r), w)
  {
    hide ArtifactOk, Before;
    var rest := WithoutAt(artifacts, r);
    forall i | 0 <= i < |rest| ensures rest[i] == artifacts[Back(i, r)] {}
    forall i, j | 0 <= i < j < |rest|
      ensures rest[i].id != rest[j].id && rest[i].path != rest[j].path && !Before(rest[j].id, rest[i].id)
    {
      assert Back(i, r) < Back(j, r);
      assert ArtifactIds(artifacts)[Back(i, r)] == rest[i].id && ArtifactIds(artifacts)[Back(j, r)] == rest[j].id;
    }
    forall i, j | 0 <= i < j < |rest| ensures !Before(ArtifactIds(rest)[j], ArtifactIds(rest)[i]) {
      assert ArtifactIds(rest)[i] == rest[i].id && ArtifactIds(rest)[j] == rest[j].id;
    }
  }

  lemma WithoutMembers(artifacts: seq<Artifact>, r: nat)
    requires UniqueIds(artifacts) && r < |artifacts|
    ensures UniqueIds(WithoutAt(artifacts, r))
    ensures forall a :: a in WithoutAt(artifacts, r) <==> a in artifacts && a.id != artifacts[r].id
  {
    var rest := WithoutAt(artifacts, r);
    forall i | 0 <= i < |rest| ensures rest[i] == artifacts[Back(i, r)] {}
    forall i, j | 0 <= i < j < |rest| ensures rest[i].id != rest[j].id { assert Back(i, r) < Back(j, r); }
    forall a | a in artifacts && a.id != artifacts[r].id ensures a in rest {
      var i :| 0 <= i < |artifacts| && artifacts[i] == a;
      assert rest[if i < r then i else i - 1] == a;
    }
    forall a | a in rest ensures a in artifacts && a.id != artifacts[r].id {
      var i :| 0 <= i < |rest| && rest[i] == a;
      assert artifacts[Back(i, r)] == a && Back(i, r) != r;
    }
  }

  lemma WithoutById(artifacts: seq<Artifact>, r: nat)
    requires UniqueIds(artifacts) && r < |artifacts|
    ensures ById(WithoutAt(artifacts, r)) == ById(artifacts) - {artifacts[r].id}
  {
    hide ById, WithoutAt, UniqueIds;
    WithoutMembers(artifacts, r);
    var all, rest, gone := ById(artifacts), ById(WithoutAt(artifacts, r)), artifacts[r].id;
    ByIdHolds(artifacts);
    ByIdHolds(WithoutAt(artifacts, r));
    forall id ensures id in rest <==> id in all && id != gone {
      if id in rest { assert rest[id] in artifacts; }
      if id in all && id != gone { assert all[id] in WithoutAt(artifacts, r); }
    }
  }

  /** Two dictionaries that agree on everything but one receipt. */
  predicate DiffersByReceipt(all: map<string, Artifact>, rest: map<string, Artifact>, receipt: string) {
    HasKind(all, receipt, RECEIPT_KIND) && rest == all - {receipt}
  }

  lemma OtherKindsSurvive(all: map<string, Artifact>, rest: map<string, Artifact>, receipt: string, id: string, kind: string)
    requires DiffersByReceipt(all, rest, receipt) && kind != RECEIPT_KIND
    ensures HasKind(rest, id, kind) <==> HasKind(all, id, kind)
    ensures HasKind(rest, id, kind) ==> rest[id] == all[id]
  {
  }

  lemma SourcesSurvive(sources: seq<Source>, all: map<string, Artifact>, rest: map<string, Artifact>, receipt: string, w: World)
    requires DiffersByReceipt(all, rest, receipt)
    ensures SourcesOk(sources, rest, w) <==> SourcesOk(sources, all, w)
  {
    forall i | 0 <= i < |sources|
      ensures HasKind(rest, sources[i].artifact, SOURCE_KIND) <==> HasKind(all, sources[i].artifact, SOURCE_KIND)
    {
      OtherKindsSurvive(all, rest, receipt, sources[i].artifact, SOURCE_KIND);
    }
  }

  lemma TcbSurvives(tcb: seq<Tcb>, all: map<string, Artifact>, rest: map<string, Artifact>, receipt: string, w: World)
    requires DiffersByReceipt(all, rest, receipt)
    ensures TcbOk(tcb, rest, w) <==> TcbOk(tcb, all, w)
  {
    forall i | 0 <= i < |tcb| ensures TcbEntryOk(tcb[i], rest, w) <==> TcbEntryOk(tcb[i], all, w) {
      OtherKindsSurvive(all, rest, receipt, tcb[i].artifact, TCB_KIND);
    }
  }

  lemma EvidenceKindIsNotReceipt(kind: string)
    requires kind in EVIDENCE_ARTIFACT_KINDS
    ensures EVIDENCE_ARTIFACT_KINDS[kind] != RECEIPT_KIND
  {
  }

  lemma BindingsSurvive(bindings: seq<Binding>, req: Requirements, all: map<string, Artifact>, rest: map<string, Artifact>,
                        receipt: string, w: World)
    requires DiffersByReceipt(all, rest, receipt)
    ensures BindingsOk(bindings, req, rest, w) <==> BindingsOk(bindings, req, all, w)
  {
    hide NoRepeats, Canonical, Closed, SpecFor;
    forall i | 0 <= i < |bindings| ensures BindingOk(bindings[i], req, rest, w) <==> BindingOk(bindings[i], req, all, w) {
      var b := bindings[i];
      if b.kind in EVIDENCE_ARTIFACT_KINDS {
        EvidenceKindIsNotReceipt(b.kind);
        OtherKindsSurvive(all, rest, receipt, b.artifact, EVIDENCE_ARTIFACT_KINDS[b.kind]);
      }
    }
  }

  /** Obligations keep their verdict exactly when the missing receipt has its canonical name. */
  lemma ExtraSurvives(o: Obligation, spec: Spec, bindings: seq<Binding>, all: map<string, Artifact>,
                      rest: map<string, Artifact>, receipt: string)
    requires DiffersByReceipt(all, rest, receipt) && ExtraOk(o, spec, bindings, all, false)
    requires o.extra.Roadmap? ==> o.extra.receipt == receipt
    ensures ExtraOk(o, spec, bindings, rest, true) <==> (o.extra.Roadmap? ==> receipt == RECEIPT_ID)
  {
    hide ArtifactsForKind;
  }

  lemma {:induction false} RecordsSurvive(index: Index, specs: seq<Spec>, all: map<string, Artifact>,
                                          rest: map<string, Artifact>, receipt: string, w: World, n: nat)
    requires DiffersByReceipt(all, rest, receipt) && n <= |specs| == |index.obligations|
    requires RecordsOk(index.obligations, specs, index.bindings, all, w, false, n)
    requires Receipts(index.obligations) == {receipt}
    ensures receipt == RECEIPT_ID ==> RecordsOk(index.obligations, specs, index.bindings, rest, w, true, n)
    ensures receipt != RECEIPT_ID && RecordsOk(index.obligations, specs, index.bindings, rest, w, true, n) ==>
              forall k :: 0 <= k < n ==> !index.obligations[k].extra.Roadmap?
  {
    hide Group, Referenced, Keys, ExtraOk;
    if n != 0 {
      var o := index.obligations[n - 1];
      RecordsSurvive(index, specs, all, rest, receipt, w, n - 1);
      assert o in index.obligations;
      if o.extra.Roadmap? { assert o.extra.receipt in Receipts(index.obligations); }
      ExtraSurvives(o, specs[n - 1], index.bindings, all, rest, receipt);
    }
  }

  lemma ObligationsSurvive(index: Index, specs: seq<Spec>, all: map<string, Artifact>, rest: map<string, Artifact>,
                           receipt: string, w: World)
    requires DiffersByReceipt(all, rest, receipt) && Receipts(index.obligations) == {receipt}
    requires ObligationsOk(index.obligations, specs, index.bindings, all, w, false)
    ensures ObligationsOk(index.obligations, specs, index.bindings, rest, w, true) <==> receipt == RECEIPT_ID
  {
    hide RecordsOk, Referenced;
    RecordsSurvive(index, specs, all, rest, receipt, w, |specs|);
    assert receipt in Receipts(index.obligations);
    var o :| o in index.obligations && o.extra.Roadmap? && o.extra.receipt == receipt;
    var k :| 0 <= k < |index.obligations| && index.obligations[k] == o;
  }

  /** Take an accepted index and drop its qualification receipt.  What remains is a
      candidate that the pre-receipt stages accept exactly when the receipt carried
      its canonical id. */
  lemma DroppingTheReceipt(index: Index, req: Requirements, w: World, r: nat)
    requires Accepts(index, req, w, false) && r < |index.artifacts| && index.artifacts[r].id in Receipts(index.obligations)
    ensures Accepts(index.(artifacts := WithoutAt(index.artifacts, r)), req, w, true)
            <==> index.artifacts[r].id == RECEIPT_ID
  {
    hide ArtifactsOk, SourcesOk, TcbOk, BindingsOk, ObligationsOk, ById, Receipts, WithoutAt;
    var receipt, rest := index.artifacts[r].id, WithoutAt(index.artifacts, r);
    var all, fewer := ById(index.artifacts), ById(rest);
    OneReceipt(index, req, w, receipt);
    RosterFacts(index.artifacts, w, r);
    WithoutById(index.artifacts, r);
    ReceiptsAreReceipts(index, req, w, false, receipt);
    SourceIsOther(index, w, all, receipt);
    WithoutIsOk(index.artifacts, w, r);
    SourcesSurvive(index.sources, all, fewer, receipt, w);
    TcbSurvives(index.tcb, all, fewer, receipt, w);
    BindingsSurvive(index.bindings, req, all, fewer, receipt, w);
    ObligationsSurvive(index, req.specs, all, fewer, receipt, w);
    UsedWithout(index, req, w, rest, receipt);
  }

  lemma OneReceipt(index: Index, req: Requirements, w: World, receipt: string)
    requires Accepts(index, req, w, false) && receipt in Receipts(index.obligations)
    ensures Receipts(index.obligations) == {receipt}
  {
    hide ArtifactsOk, SourcesOk, TcbOk, BindingsOk, RecordsOk, Receipts;
    var only :| only in Receipts(index.obligations);
    assert |Receipts(index.obligations) - {receipt}| == 0;
  }

  lemma RosterFacts(artifacts: seq<Artifact>, w: World, r: nat)
    requires ArtifactsOk(artifacts, w) && r < |artifacts|
    ensures UniqueIds(artifacts) && artifacts[r].id in ById(artifacts)
  {
    ByIdHolds(artifacts);
  }

  /** A source closure is another artifact, so the roster has at least two. */
  lemma SourceIsOther(index: Index, w: World, all: map<string, Artifact>, receipt: string)
    requires ArtifactsOk(index.artifacts, w) && all == ById(index.artifacts)
    requires SourcesOk(index.sources, all, w) && HasKind(all, receipt, RECEIPT_KIND)
    ensures 2 <= |index.artifacts|
  {
    hide ById, Canonical, ArtifactOk;
    ByIdHolds(index.artifacts);
    var source := index.sources[0].artifact;
    assert HasKind(all, source, SOURCE_KIND);
    assert all[source] in index.artifacts && all[receipt] in index.artifacts && all[source] != all[receipt];
  }

  lemma UsedWithout(index: Index, req: Requirements, w: World, rest: seq<Artifact>, receipt: string)
    requires Accepts(index, req, w, false) && Receipts(index.obligations) == {receipt}
    requires ById(rest) == ById(index.artifacts) - {receipt} && HasKind(ById(index.artifacts), receipt, RECEIPT_KIND)
    ensures UsedArtifacts(index.(artifacts := rest)) == ById(rest).Keys
  {
    hide ArtifactsOk, ObligationsOk, ById, Receipts, Closed, Canonical, NoRepeats, SpecFor;
    var all := ById(index.artifacts);
    forall id | id in SourceArtifacts(index.sources) ensures HasKind(all, id, SOURCE_KIND) {}
    forall id | id in TcbArtifacts(index.tcb) ensures HasKind(all, id, TCB_KIND) {}
    forall id | id in Taken(index.bindings) ensures id in all && all[id].kind != RECEIPT_KIND {
      var b :| b in index.bindings && b.artifact == id;
      var i :| 0 <= i < |index.bindings| && index.bindings[i] == b;
      assert BindingOk(b, req, all, w);
      EvidenceKindIsNotReceipt(b.kind);
    }
    assert receipt !in SourceArtifacts(index.sources) + TcbArtifacts(index.tcb) + Taken(index.bindings);
  }
}
