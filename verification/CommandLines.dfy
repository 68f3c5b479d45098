/** Command lines written out option by option, and what proofs/check-device-binding.py
    records of them and hashes. */
module CommandLines {
  import opened Octets
  import opened Outcomes
  import opened Strings
  import opened DeviceBinding

  /** One option as it may be given. */
  datatype Given =
    | Named(option: string, value: string, split: bool)
    | Codegen(key: string, value: string, long: bool, split: bool)
    | Other(argument: string)

  /** Text that is none of the options the parser knows. */
  predicate IsOther(a: string) {
    && a !in {"--", "--cfg", "--crate-type", "--edition", "--target", "-C", "--codegen"}
    && !("--cfg=" <= a) && !("--crate-type=" <= a) && !("--edition=" <= a) && !("--target=" <= a)
    && !("-C" <= a) && !("--codegen=" <= a)
  }

  predicate WellGiven(g: Given) {
    match g
    case Named(option, _, _) => option in {"cfg", "crate-type", "edition", "target"}
    case Codegen(key, _, _, _) => '=' !in key
    case Other(argument) => IsOther(argument)
  }

  function Render(g: Given): seq<string> {
    match g
    case Named(option, value, split) =>
      if split then ["--" + option, value] else ["--" + option + "=" + value]
    case Codegen(key, value, long, split) =>
      var text := key + "=" + value;
      if split then [if long then "--codegen" else "-C", text]
      else [if long then "--codegen=" + text else "-C" + text]
    case Other(argument) => [argument]
  }

  /** What is recorded of one option. */
  function Recorded(g: Given): seq<Entry> {
    match g
    case Named(option, value, _) =>
      if option == "cfg" then [Cfg(value)] else if option == "crate-type" then [CrateType(value)] else [Identity(option, value)]
    case Codegen(key, value, _, _) =>
      if key in {"code-model", "codegen-units", "debuginfo", "debug-assertions", "embed-bitcode", "force-frame-pointers",
                 "instrument-coverage", "lto", "no-redzone", "opt-level", "panic", "relocation-model", "soft-float", "strip",
                 "target-cpu", "target-feature"}
      then [Identity(key, value)] else []
    case Other(_) => []
  }

  function RenderAll(options: seq<Given>): seq<string> {
    if options == [] then [] else Render(options[0]) + RenderAll(options[1..])
  }

  function RecordedAll(options: seq<Given>): seq<Entry> {
    if options == [] then [] else Recorded(options[0]) + RecordedAll(options[1..])
  }

  // ---- the parser

  lemma {:induction false} FirstEquals(key: string, value: string, p: nat)
    requires '=' !in key && p <= |key|
    ensures EqualsAt(key + "=" + value, p) == Some(|key|)
    decreases |key| - p
  {
    var text := key + "=" + value;
    if p < |key| {
      assert text[p] == key[p];
      FirstEquals(key, value, p + 1);
    }
  }

  lemma CodegenRecords(key: string, value: string)
    requires '=' !in key
    ensures RecordCodegen(key + "=" + value) == Recorded(Codegen(key, value, false, false))
  {
    var text := key + "=" + value;
    FirstEquals(key, value, 0);
    assert text[..|key|] == key && text[|key| + 1..] == value;
  }

  /** The option word of a given option, and its value. */
  lemma OptionWords(g: Given)
    requires WellGiven(g) && !g.Other?
    ensures var word := if g.Named? then "--" + g.option else if g.long then "--codegen" else "-C";
            var value := if g.Named? then g.value else g.key + "=" + g.value;
            && TakesNext(word) && (word == "-C" ==> value != []) && Paired(word, value) == Recorded(g)
            && Render(g) == if g.split then [word, value] else [Joined(word, value)]
  {
    if g.Named? {
      var word := "--" + g.option;
      assert word in {"--cfg", "--crate-type", "--edition", "--target"} by { DashedWord(g.option); }
      DashedWord(g.option);
      assert Separate(word) == Some(g.option);
      assert |word| >= 3;
    } else {
      CodegenRecords(g.key, g.value);
      var text := g.key + "=" + g.value;
      assert "--codegen" + "=" == "--codegen=";
      assert |text| > 0;
      assert |"--codegen"| != |"-C"|;
      assert Separate("--codegen").None? && Separate("-C").None? by { NotSeparate(); }
    }
  }

  lemma DashedWord(option: string)
    requires option in {"cfg", "crate-type", "edition", "target"}
    ensures "--" + "cfg" == "--cfg" && "--" + "crate-type" == "--crate-type"
    ensures "--" + "edition" == "--edition" && "--" + "target" == "--target"
    ensures Separate("--" + option) == Some(option) && "--" + option != "-C"
  {
    assert "--cfg"[3] == 'f' && "--crate-type"[3] == 'r' && "--edition"[2] == 'e' && "--target"[2] == 't';
    assert |"--" + option| > 2;
  }

  lemma NotSeparate()
    ensures Separate("--codegen").None? && Separate("-C").None?
  {
    assert |"--codegen"| == 9 && |"--edition"| == 9 && "--codegen"[2] != "--edition"[2];
    assert |"-C"| == 2;
  }

  lemma OtherIsAlone(argument: string)
    requires IsOther(argument)
    ensures argument != "--" && !TakesNext(argument) && Alone(argument) == []
  {}

  lemma OneParses(g: Given, rest: seq<string>)
    requires WellGiven(g)
    ensures Parse(Render(g) + rest) == Then(Recorded(g), Parse(rest))
  {
    hide Paired, Alone, TakesNext, Joined, Recorded, IsOther;
    var all := Render(g) + rest;
    if g.Other? {
      OtherIsAlone(g.argument);
      assert all[0] == g.argument && all[1..] == rest;
      assert Recorded(g) == [] by { OtherRecords(g.argument); }
    } else {
      hide Render;
      OptionWords(g);
      var word := if g.Named? then "--" + g.option else if g.long then "--codegen" else "-C";
      var value := if g.Named? then g.value else g.key + "=" + g.value;
      JoinedIsAlone(word, value);
      OptionIsNotEnd(word);
      if g.split {
        assert all[0] == word && all[1] == value && all[2..] == rest;
      } else {
        assert all[0] == Joined(word, value) && all[1..] == rest;
      }
    }
  }

  lemma OtherRecords(argument: string)
    ensures Recorded(Other(argument)) == []
  {}

  /** The parser records exactly the options that were given, in order, in either
      spelling, and ignores everything else. */
  lemma {:induction false} ParsesWhatIsGiven(options: seq<Given>)
    requires forall i :: 0 <= i < |options| ==> WellGiven(options[i])
    ensures Parse(RenderAll(options)) == Ok(RecordedAll(options))
  {
    hide Render, Recorded, WellGiven;
    if options != [] {
      ParsesWhatIsGiven(options[1..]);
      OneParses(options[0], RenderAll(options[1..]));
    }
  }

  // ---- the preimage

  /** The hashed fields, in order: who the crate is, the cfg values and the crate types,
      each sorted and without repetition, and then the other options as given. */
  lemma PairsSpelled(p: Portable)
    ensures var pairs := Pairs(p);
            var cfgs, types, others := SortedSet(Cfgs(p.entries)), SortedSet(CrateTypes(p.entries)), Identities(p.entries);
            && |pairs| == 4 + |cfgs| + |types| + |others|
            && pairs[0] == ("package-name", p.package) && pairs[1] == ("package-version", p.version)
            && pairs[2] == ("manifest-sha256", p.manifest) && pairs[3] == ("crate-name", p.crate)
            && (forall i :: 0 <= i < |cfgs| ==> pairs[4 + i] == ("cfg", cfgs[i]))
            && (forall i :: 0 <= i < |types| ==> pairs[4 + |cfgs| + i] == ("crate-type", types[i]))
            && pairs[4 + |cfgs| + |types|..] == others
  {
    hide SortedSet, Cfgs, CrateTypes, Identities;
  }

  /** The values given for one named option, in order. */
  function Values(options: seq<Given>, option: string): seq<string> {
    if options == [] then []
    else (if options[0].Named? && options[0].option == option then [options[0].value] else []) + Values(options[1..], option)
  }

  /** Editions, targets and recorded codegen options, in order. */
  function Others(options: seq<Given>): seq<Pair> {
    if options == [] then []
    else
      var g := options[0];
      (if g.Named? && g.option in {"edition", "target"} then [(g.option, g.value)]
       else if g.Codegen? && Recorded(g) != [] then [(g.key, g.value)] else [])
      + Others(options[1..])
  }

  lemma {:induction false} CfgsAppend(a: seq<Entry>, b: seq<Entry>)
    ensures Cfgs(a + b) == Cfgs(a) + Cfgs(b)
  {
    if a == [] {
      assert a + b == b;
    } else {
      CfgsAppend(a[1..], b);
      assert (a + b)[0] == a[0] && (a + b)[1..] == a[1..] + b;
      assert forall x :: [x] + (Cfgs(a[1..]) + Cfgs(b)) == ([x] + Cfgs(a[1..])) + Cfgs(b);
    }
  }

  lemma {:induction false} TypesAppend(a: seq<Entry>, b: seq<Entry>)
    ensures CrateTypes(a + b) == CrateTypes(a) + CrateTypes(b)
  {
    if a == [] {
      assert a + b == b;
    } else {
      TypesAppend(a[1..], b);
      assert (a + b)[0] == a[0] && (a + b)[1..] == a[1..] + b;
      assert forall x :: [x] + (CrateTypes(a[1..]) + CrateTypes(b)) == ([x] + CrateTypes(a[1..])) + CrateTypes(b);
    }
  }

  lemma {:induction false} IdentitiesAppend(a: seq<Entry>, b: seq<Entry>)
    ensures Identities(a + b) == Identities(a) + Identities(b)
  {
    if a == [] {
      assert a + b == b;
    } else {
      IdentitiesAppend(a[1..], b);
      assert (a + b)[0] == a[0] && (a + b)[1..] == a[1..] + b;
      assert forall x :: [x] + (Identities(a[1..]) + Identities(b)) == ([x] + Identities(a[1..])) + Identities(b);
    }
  }

  lemma OneEntry(e: Entry)
    ensures Cfgs([e]) == (if e.Cfg? then [e.value] else []) && CrateTypes([e]) == (if e.CrateType? then [e.value] else [])
    ensures Identities([e]) == if e.Identity? then [(e.key, e.value)] else []
  {
    assert [e][1..] == [];
  }

  lemma OneGiven(g: Given)
    requires WellGiven(g)
    ensures Cfgs(Recorded(g)) == if g.Named? && g.option == "cfg" then [g.value] else []
    ensures CrateTypes(Recorded(g)) == if g.Named? && g.option == "crate-type" then [g.value] else []
    ensures Identities(Recorded(g)) == if g.Named? && g.option in {"edition", "target"} then [(g.option, g.value)]
                                       else if g.Codegen? && Recorded(g) != [] then [(g.key, g.value)] else []
  {
    hide Cfgs, CrateTypes, Identities;
    assert |"cfg"| != |"crate-type"| && |"cfg"| != |"edition"| && |"cfg"| != |"target"|;
    assert |"crate-type"| != |"edition"| && |"crate-type"| != |"target"|;
    var r := Recorded(g);
    if r == [] {
      NoEntry();
    } else {
      assert r == [r[0]];
      OneEntry(r[0]);
    }
  }

  lemma NoEntry()
    ensures Cfgs([]) == [] && CrateTypes([]) == [] && Identities([]) == []
  {}

  /** The three recorded lists are the options given, list by list. */
  lemma {:induction false} ListsAreGiven(options: seq<Given>)
    requires forall i :: 0 <= i < |options| ==> WellGiven(options[i])
    ensures var entries := RecordedAll(options);
            && Cfgs(entries) == Values(options, "cfg") && CrateTypes(entries) == Values(options, "crate-type")
            && Identities(entries) == Others(options)
  {
    hide Recorded, WellGiven;
    if options == [] {
      NoEntry();
    } else {
      ListsAreGiven(options[1..]);
      CfgsAppend(Recorded(options[0]), RecordedAll(options[1..]));
      TypesAppend(Recorded(options[0]), RecordedAll(options[1..]));
      IdentitiesAppend(Recorded(options[0]), RecordedAll(options[1..]));
      OneGiven(options[0]);
    }
  }

  /** What is hashed for a crate whose command line was given option by option. */
  lemma HashedFieldsAreGiven(options: seq<Given>, p: Portable)
    requires (forall i :: 0 <= i < |options| ==> WellGiven(options[i])) && Parse(RenderAll(options)) == Ok(p.entries)
    ensures var cfgs, types := SortedSet(Values(options, "cfg")), SortedSet(Values(options, "crate-type"));
            Pairs(p) == [("package-name", p.package), ("package-version", p.version),
                         ("manifest-sha256", p.manifest), ("crate-name", p.crate)]
                        + seq(|cfgs|, i requires 0 <= i < |cfgs| => ("cfg", cfgs[i]))
                        + seq(|types|, i requires 0 <= i < |types| => ("crate-type", types[i]))
                        + Others(options)
  {
    hide SortedSet, Cfgs, CrateTypes, Identities, Values, Others;
    ParsesWhatIsGiven(options);
    ListsAreGiven(options);
    PairsSpelled(p);
  }

  /** Which command lines are accepted: one crate name, which is the expected one, a
      non-empty package and version, a manifest digest of 64 hexadecimal digits, and a
      value for every option that needs one. */
  lemma AcceptedCommandLines(argv: seq<string>, package: string, version: string, manifest: string, crate: string)
    ensures CheckedEntries(argv, package, version, manifest, crate).Ok? <==>
            && argv != [] && OptionValues(argv, "--crate-name") == Ok([crate]) && package != [] && version != []
            && |manifest| == 64 && (forall i :: 0 <= i < 64 ==> manifest[i] in "0123456789abcdef")
            && Parse(argv[1..]).Ok?
  {
    hide Parse, OptionValues;
    assert forall c :: c in "0123456789abcdef" <==> '0' <= c <= '9' || 'a' <= c <= 'f' by { HexDigits(); }
    var names := OptionValues(argv, "--crate-name");
    if names.Ok? && |names.value| == 1 { assert names.value == [names.value[0]]; }
  }

  lemma HexDigits()
    ensures forall c :: c in "0123456789abcdef" <==> '0' <= c <= '9' || 'a' <= c <= 'f'
  {
    var hex := "0123456789abcdef";
    forall c: char | '0' <= c <= '9' ensures c in hex { assert hex[c as int - '0' as int] == c; }
    forall c: char | 'a' <= c <= 'f' ensures c in hex { assert hex[10 + (c as int - 'a' as int)] == c; }
  }
}
