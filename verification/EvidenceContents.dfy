/** What an accepted evidence index of proofs/check-m1-evidence-index.py holds for each
    obligation and each binding, said with the kinds written out. */
module EvidenceContents {
  import opened Outcomes
  import opened Strings
  import opened EvidenceIndex

  /** The artifacts bound as evidence of one kind for one obligation. */
  function Evidence(bindings: seq<Binding>, key: Key, kind: string): set<string> {
    set b | b in bindings && b.key == key && b.kind == kind :: b.artifact
  }

  lemma {:induction false} PickedIsEvidence(bindings: seq<Binding>, key: Key, kind: string)
    ensures SetOf(PickArtifacts(bindings, key, kind)) == Evidence(bindings, key, kind)
  {
    if bindings != [] {
      PickedIsEvidence(bindings[1..], key, kind);
      var b, rest := bindings[0], PickArtifacts(bindings[1..], key, kind);
      assert bindings == [b] + bindings[1..];
      assert SetOf([b.artifact] + rest) == {b.artifact} + SetOf(rest);
    }
  }

  lemma SortedIsEvidence(bindings: seq<Binding>, key: Key, kind: string)
    ensures SetOf(ArtifactsForKind(bindings, key, kind)) == Evidence(bindings, key, kind)
    ensures InOrder(ArtifactsForKind(bindings, key, kind))
  {
    var picked := PickArtifacts(bindings, key, kind);
    PickedIsEvidence(bindings, key, kind);
    SortedSorts(picked);
    forall x ensures x in Sorted(picked) <==> x in picked {
      assert x in multiset(Sorted(picked)) <==> x in multiset(picked);
    }
  }

  /** The list names exactly the evidence of this kind, in order, and there is some. */
  predicate Lists(ids: seq<string>, bindings: seq<Binding>, key: Key, kind: string) {
    ids != [] && InOrder(ids) && SetOf(ids) == Evidence(bindings, key, kind)
  }

  /** What an accepted obligation record says, by class and status. */
  predicate Says(o: Obligation, spec: Spec, index: Index, preReceipt: bool) {
    if spec.key.cls == "Roadmap" then
      && o.extra.Roadmap? && o.extra.dependencies == spec.dependencies
      && (if o.extra.receipt in ById(index.artifacts)
          then ById(index.artifacts)[o.extra.receipt].kind == "QualificationReceipt"
          else preReceipt && o.extra.receipt == "artifact.qualification.m1")
    else if spec.status == "Proved" then
      && o.extra.Proved?
      && Lists(o.extra.proofs, index.bindings, spec.key, "verus-theorem")
      && Lists(o.extra.mutations, index.bindings, spec.key, "negative-mutation")
    else if spec.status == "Validated" then
      && o.extra.Validated? && Lists(o.extra.validators, index.bindings, spec.key, "independent-validator")
      && o.extra.validatorTcb == ["tcb.compiler", "tcb.hardware", "tcb.runtime"]
    else
      && spec.status == "Unsupported" && o.extra.Unsupported? && o.extra.rationale == spec.statement
      && Lists(o.extra.rationales, index.bindings, spec.key, "unsupported-rationale")
      && o.extra.nonclaimTcb == ["tcb.compiler", "tcb.hardware", "tcb.runtime"]
  }

  lemma ExtraSays(o: Obligation, spec: Spec, index: Index, preReceipt: bool)
    requires ExtraOk(o, spec, index.bindings, ById(index.artifacts), preReceipt)
    ensures Says(o, spec, index, preReceipt)
  {
    hide ArtifactsForKind, ById;
    SortedIsEvidence(index.bindings, spec.key, "verus-theorem");
    SortedIsEvidence(index.bindings, spec.key, "negative-mutation");
    SortedIsEvidence(index.bindings, spec.key, "independent-validator");
    SortedIsEvidence(index.bindings, spec.key, "unsupported-rationale");
  }

  /** In an accepted index every obligation stands at its specification's place, names
      all bindings of its key, and says what its class and status call for. */
  lemma ObligationsSayWhatTheyMust(index: Index, req: Requirements, w: World, preReceipt: bool, k: nat)
    requires Accepts(index, req, w, preReceipt) && k < |index.obligations|
    ensures |req.specs| == |index.obligations|
    ensures var o, spec := index.obligations[k], req.specs[k];
            && o.key == spec.key && o.status == spec.status && o.paths == spec.paths
            && o.statement == w.statementDigest(spec.statement)
            && o.tcbIds == ["tcb.compiler", "tcb.hardware", "tcb.runtime"]
            && o.evidence != [] && (forall id :: id in o.evidence <==> exists b :: b in index.bindings && b.key == o.key && b.id == id)
            && Says(o, spec, index, preReceipt)
  {
    hide ArtifactsOk, SourcesOk, TcbOk, BindingsOk, RecordsOk, ExtraOk, ById, Says, Group;
    RecordsMatch(index.obligations, req.specs, index.bindings, ById(index.artifacts), w, preReceipt, k);
    var o := index.obligations[k];
    ExtraSays(o, req.specs[k], index, preReceipt);
    forall id ensures id in o.evidence <==> exists b :: b in index.bindings && b.key == o.key && b.id == id {
      GroupMembers(index.bindings, o.key, id);
    }
  }

  /** The artifact kind that backs each kind of evidence. */
  function BackedBy(kind: string): string {
    if kind == "verus-theorem" then "TheoremTranscript"
    else if kind == "negative-mutation" then "MutationTranscript"
    else if kind == "independent-validator" then "ValidatorTranscript"
    else if kind == "unsupported-rationale" then "UnsupportedRationale"
    else if kind == "hardware-test" then "HardwareTranscript"
    else if kind == "performance-gate" then "PerformanceReport"
    else if kind == "artifact-identity" then "ArtifactIdentityReport"
    else if kind == "canonical-structure-check" then "CheckerTranscript"
    else if kind in {"external-contract", "fe2o3-contract"} then "ContractDocument"
    else "TcbReport"
  }

  lemma KindsAreBacked(kind: string)
    requires kind in EVIDENCE_ARTIFACT_KINDS
    ensures EVIDENCE_ARTIFACT_KINDS[kind] == BackedBy(kind)
  {
    var kinds := {"artifact-identity", "canonical-structure-check", "external-contract", "fe2o3-contract", "hardware-test",
                  "independent-validator", "negative-mutation", "performance-gate", "tcb-report", "unsupported-rationale",
                  "verus-theorem"};
    assert kind in kinds;
  }

  /** Every binding of an accepted index is evidence that some obligation calls for, at a
      path of that obligation, backed by an artifact of the right kind. */
  lemma BindingsAreCalledFor(index: Index, req: Requirements, w: World, preReceipt: bool, b: Binding)
    requires Accepts(index, req, w, preReceipt) && b in index.bindings
    ensures exists spec :: && spec in req.specs && spec.key == b.key && b.profile in spec.profiles && b.path in spec.paths
                           && b.statement == w.statementDigest(spec.statement)
    ensures b.profile in req.profiles && b.kind in req.profiles[b.profile]
    ensures b.kind in req.classes && b.key.cls in req.classes[b.kind]
    ensures b.path in req.resolutions && b.source == req.resolutions[b.path]
    ensures b.artifact in ById(index.artifacts) && ById(index.artifacts)[b.artifact].kind == BackedBy(b.kind)
  {
    hide ArtifactsOk, SourcesOk, TcbOk, Closed, Canonical, NoRepeats, ObligationsOk, ById, SpecFor, BackedBy;
    var i :| 0 <= i < |index.bindings| && index.bindings[i] == b;
    assert BindingOk(b, req, ById(index.artifacts), w);
    KindsAreBacked(b.kind);
    SpecForIs(req.specs, b.key);
    assert SpecFor(req.specs, b.key).value in req.specs;
  }

  lemma {:induction false} SpecForIs(specs: seq<Spec>, key: Key)
    ensures SpecFor(specs, key).Some? ==> SpecFor(specs, key).value in specs && SpecFor(specs, key).value.key == key
  {
    if specs != [] && specs[|specs| - 1].key != key {
      SpecForIs(specs[..|specs| - 1], key);
      assert forall x :: x in specs[..|specs| - 1] ==> x in specs;
    }
  }

  /** And everything called for is there: every profile and kind of every obligation that
      its class admits, and every path. */
  lemma NothingCalledForIsMissing(index: Index, req: Requirements, w: World, preReceipt: bool, spec: Spec)
    requires Accepts(index, req, w, preReceipt) && spec in req.specs
    ensures forall profile, kind :: profile in spec.profiles && profile in req.profiles && kind in req.profiles[profile]
                                    && kind in req.classes && spec.key.cls in req.classes[kind] ==>
              exists b :: b in index.bindings && b.key == spec.key && b.profile == profile && b.kind == kind
    ensures forall path :: path in spec.paths ==> exists b :: b in index.bindings && b.key == spec.key && b.path == path
  {
    hide ArtifactsOk, SourcesOk, TcbOk, Canonical, NoRepeats, ObligationsOk, ById, BindingOk;
    var i :| 0 <= i < |req.specs| && req.specs[i] == spec;
    assert Closed(index.bindings, spec, req);
    forall profile, kind | profile in spec.profiles && profile in req.profiles && kind in req.profiles[profile]
                           && kind in req.classes && spec.key.cls in req.classes[kind]
      ensures exists b :: b in index.bindings && b.key == spec.key && b.profile == profile && b.kind == kind
    {
      assert (profile, kind) in ExpectedPairs(spec, req);
      assert (profile, kind) in ObservedPairs(index.bindings, spec.key);
    }
    forall path | path in spec.paths ensures exists b :: b in index.bindings && b.key == spec.key && b.path == path {
      assert path in ObservedPaths(index.bindings, spec.key);
    }
  }

  /** The two sources and the three TCB entries, with what backs them. */
  lemma SourcesAndTcbAreBacked(index: Index, req: Requirements, w: World, preReceipt: bool)
    requires Accepts(index, req, w, preReceipt)
    ensures |index.sources| == 2 && index.sources[0].id == "source.fe2o3" && index.sources[1].id == "source.ferric"
    ensures forall s :: s in index.sources ==>
              s.artifact in ById(index.artifacts) && ById(index.artifacts)[s.artifact].kind == "SourceClosure"
    ensures |index.tcb| == 3
    ensures (index.tcb[0].id, index.tcb[0].kind) == ("tcb.compiler", "Compiler")
    ensures (index.tcb[1].id, index.tcb[1].kind) == ("tcb.hardware", "Hardware")
    ensures (index.tcb[2].id, index.tcb[2].kind) == ("tcb.runtime", "Runtime")
    ensures forall t :: t in index.tcb ==>
              && t.artifact in ById(index.artifacts) && ById(index.artifacts)[t.artifact].kind == "TcbReport"
              && t.identity == ById(index.artifacts)[t.artifact].sha
  {
    hide ArtifactsOk, BindingsOk, ObligationsOk, ById;
    assert TcbEntryOk(index.tcb[0], ById(index.artifacts), w) && TcbEntryOk(index.tcb[1], ById(index.artifacts), w);
    assert TcbEntryOk(index.tcb[2], ById(index.artifacts), w);
  }
}
