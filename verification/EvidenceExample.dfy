/** An evidence index that the full mode of proofs/check-m1-evidence-index.py accepts
    although its receipt does not carry the canonical id. */
module EvidenceExample {
  import opened Outcomes
  import opened Strings
  import opened EvidenceIndex

  const EXAMPLE_KEY := Key("Roadmap", "m1.r01")

  const EXAMPLE_WORLD: World :=
    World(a => true, s => true, id => true, sha => true, statement => statement, binding => "digest")

  const EXAMPLE_REQUIREMENTS: Requirements :=
    Requirements([Spec(EXAMPLE_KEY, "Closed", ["profile"], ["path"], "statement", [])],
                 map["profile" := ["hardware-test"]], map["hardware-test" := ["Roadmap"]], map["path" := "source.ferric"])

  const EXAMPLE_ARTIFACTS: seq<Artifact> :=
    [Artifact("a", SOURCE_KIND, "a", "a", 1), Artifact("b", SOURCE_KIND, "b", "b", 1), Artifact("c", TCB_KIND, "c", "c", 1),
     Artifact("d", TCB_KIND, "d", "d", 1), Artifact("e", TCB_KIND, "e", "e", 1),
     Artifact("f", "HardwareTranscript", "f", "f", 1), Artifact("g", RECEIPT_KIND, "g", "g", 1)]

  const EXAMPLE: Index :=
    Index(EXAMPLE_ARTIFACTS, [Source("source.fe2o3", "a"), Source("source.ferric", "b")],
          [Tcb("tcb.compiler", "Compiler", "c", "c"), Tcb("tcb.hardware", "Hardware", "d", "d"), Tcb("tcb.runtime", "Runtime", "e", "e")],
          [Binding("binding", EXAMPLE_KEY, "profile", "hardware-test", "path", "source.ferric", "statement", TCB_IDS, "f", "digest")],
          [Obligation(EXAMPLE_KEY, "Closed", "statement", TCB_IDS, ["path"], ["binding"], Roadmap([], "g"))])

  lemma ExampleIds(i: nat)
    requires i < |EXAMPLE_ARTIFACTS|
    ensures var a := EXAMPLE_ARTIFACTS[i]; |a.id| == 1 && a.id[0] == 'a' + i as char && a.path == a.id
  {}

  lemma ExampleKinds(i: nat)
    requires i < |EXAMPLE_ARTIFACTS|
    ensures ArtifactOk(EXAMPLE_ARTIFACTS[i], EXAMPLE_WORLD)
  {
    assert EVIDENCE_ARTIFACT_KINDS["tcb-report"] == TCB_KIND && EVIDENCE_ARTIFACT_KINDS["hardware-test"] == "HardwareTranscript";
    assert EXAMPLE_ARTIFACTS[i].kind in {SOURCE_KIND, TCB_KIND, "HardwareTranscript", RECEIPT_KIND};
  }

  lemma ExampleRoster()
    ensures ArtifactsOk(EXAMPLE_ARTIFACTS, EXAMPLE_WORLD)
  {
    hide ArtifactOk;
    var s := EXAMPLE_ARTIFACTS;
    forall i | 0 <= i < |s| ensures ArtifactOk(s[i], EXAMPLE_WORLD) { ExampleKinds(i); }
    forall i, j | 0 <= i < j < |s| ensures !Before(s[j].id, s[i].id) && s[i].id != s[j].id && s[i].path != s[j].path {
      ExampleIds(i);
      ExampleIds(j);
    }
  }

  lemma Lookups(s: seq<Artifact>)
    requires UniqueIds(s)
    ensures forall i :: 0 <= i < |s| ==> s[i].id in ById(s) && ById(s)[s[i].id] == s[i]
    ensures ById(s).Keys == set i | 0 <= i < |s| :: s[i].id
  {
    hide ById;
    ByIdHolds(s);
    assert forall i :: 0 <= i < |s| ==> s[i] in s;
    forall id | id in ById(s) ensures exists i :: 0 <= i < |s| && s[i].id == id {
      var i :| 0 <= i < |s| && s[i] == ById(s)[id];
    }
  }

  lemma ExampleArtifacts()
    ensures ArtifactsOk(EXAMPLE_ARTIFACTS, EXAMPLE_WORLD)
    ensures forall i :: 0 <= i < |EXAMPLE_ARTIFACTS| ==>
              && EXAMPLE_ARTIFACTS[i].id in ById(EXAMPLE_ARTIFACTS)
              && ById(EXAMPLE_ARTIFACTS)[EXAMPLE_ARTIFACTS[i].id] == EXAMPLE_ARTIFACTS[i]
    ensures ById(EXAMPLE_ARTIFACTS).Keys == {"a", "b", "c", "d", "e", "f", "g"}
  {
    hide ById, ArtifactOk, Canonical;
    ExampleRoster();
    Lookups(EXAMPLE_ARTIFACTS);
    ExampleKeys();
  }

  lemma ExampleKeys()
    ensures (set i | 0 <= i < |EXAMPLE_ARTIFACTS| :: EXAMPLE_ARTIFACTS[i].id) == {"a", "b", "c", "d", "e", "f", "g"}
  {
    var s := EXAMPLE_ARTIFACTS;
    assert s[0].id == "a" && s[1].id == "b" && s[2].id == "c" && s[3].id == "d" && s[4].id == "e" && s[5].id == "f" && s[6].id == "g";
  }

  lemma ExampleSources()
    ensures SourcesOk(EXAMPLE.sources, ById(EXAMPLE_ARTIFACTS), EXAMPLE_WORLD)
    ensures TcbOk(EXAMPLE.tcb, ById(EXAMPLE_ARTIFACTS), EXAMPLE_WORLD)
  {
    hide ById, ArtifactsOk;
    ExampleArtifacts();
    var s, m := EXAMPLE_ARTIFACTS, ById(EXAMPLE_ARTIFACTS);
    assert m["a"] == s[0] && m["b"] == s[1] && m["c"] == s[2] && m["d"] == s[3] && m["e"] == s[4];
    assert "c"[0] != "d"[0] && "d"[0] != "e"[0] && "c"[0] != "e"[0];
    var t := EXAMPLE.tcb;
    assert TcbEntryOk(t[0], m, EXAMPLE_WORLD) && TcbEntryOk(t[1], m, EXAMPLE_WORLD) && TcbEntryOk(t[2], m, EXAMPLE_WORLD);
  }

  lemma ExampleBindings()
    ensures BindingsOk(EXAMPLE.bindings, EXAMPLE_REQUIREMENTS, ById(EXAMPLE_ARTIFACTS), EXAMPLE_WORLD)
  {
    hide ById, ArtifactsOk;
    ExampleArtifacts();
    var req, b := EXAMPLE_REQUIREMENTS, EXAMPLE.bindings[0];
    assert ById(EXAMPLE_ARTIFACTS)["f"] == EXAMPLE_ARTIFACTS[5];
    assert SpecFor(req.specs, EXAMPLE_KEY) == Some(req.specs[0]);
    assert "profile" in req.specs[0].profiles && "path" in req.specs[0].paths;
    assert "hardware-test" in req.profiles["profile"] && "Roadmap" in req.classes["hardware-test"];
    assert BindingOk(b, req, ById(EXAMPLE_ARTIFACTS), EXAMPLE_WORLD);
    assert ObservedPairs([b], EXAMPLE_KEY) == {("profile", "hardware-test")} == ExpectedPairs(req.specs[0], req) by {
      assert b in [b];
    }
    assert ObservedPaths([b], EXAMPLE_KEY) == {"path"} by { assert b in [b]; }
  }

  lemma ExampleObligations()
    ensures ObligationsOk(EXAMPLE.obligations, EXAMPLE_REQUIREMENTS.specs, EXAMPLE.bindings, ById(EXAMPLE_ARTIFACTS), EXAMPLE_WORLD, false)
    ensures Receipts(EXAMPLE.obligations) == {"g"}
  {
    hide ById, ArtifactsOk;
    ExampleArtifacts();
    var o, b := EXAMPLE.obligations[0], EXAMPLE.bindings[0];
    assert ById(EXAMPLE_ARTIFACTS)["g"] == EXAMPLE_ARTIFACTS[6];
    assert EXAMPLE.bindings[..0] == [] && [o][..0] == [];
    assert Group(EXAMPLE.bindings, EXAMPLE_KEY) == [] + ["binding"] == ["binding"];
    assert Referenced([]) == [] && Referenced([o]) == [] + ["binding"] == ["binding"];
    assert BindingIds([b]) == ["binding"];
    assert o in [o];
    assert Receipts([o]) == {"g"};
    assert ObligationOk(o, EXAMPLE_REQUIREMENTS.specs[0], ["binding"], EXAMPLE.bindings, ById(EXAMPLE_ARTIFACTS), EXAMPLE_WORLD, false);
    assert RecordsOk([o], EXAMPLE_REQUIREMENTS.specs, EXAMPLE.bindings, ById(EXAMPLE_ARTIFACTS), EXAMPLE_WORLD, false, 0);
  }

  /** The full mode accepts a receipt with another id, and the pre-receipt mode then
      refuses the candidate without it. */
  lemma OtherReceiptIdIsAccepted()
    ensures Accepts(EXAMPLE, EXAMPLE_REQUIREMENTS, EXAMPLE_WORLD, false)
    ensures !Accepts(EXAMPLE.(artifacts := WithoutAt(EXAMPLE.artifacts, 6)), EXAMPLE_REQUIREMENTS, EXAMPLE_WORLD, true)
  {
    hide ById, ArtifactsOk, SourcesOk, TcbOk, BindingsOk, ObligationsOk, Receipts;
    ExampleArtifacts();
    ExampleSources();
    ExampleBindings();
    ExampleObligations();
    var s, t, b := EXAMPLE.sources, EXAMPLE.tcb, EXAMPLE.bindings;
    assert SourceArtifacts(s) == {"a", "b"} by { assert s[0] in s && s[1] in s; }
    assert TcbArtifacts(t) == {"c", "d", "e"} by { assert t[0] in t && t[1] in t && t[2] in t; }
    assert Taken(b) == {"f"} by { assert b[0] in b; }
    assert UsedArtifacts(EXAMPLE) == {"a", "b", "c", "d", "e", "f", "g"};
    assert |"g"| != |RECEIPT_ID|;
    DroppingTheReceipt(EXAMPLE, EXAMPLE_REQUIREMENTS, EXAMPLE_WORLD, 6);
  }
}
