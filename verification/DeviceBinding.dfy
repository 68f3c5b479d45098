/** The digest preimages and the rustc option parser of
    proofs/check-device-binding.py.  SHA-256 itself is not modelled: what is proved
    is that equal preimages mean equal inputs. */
module DeviceBinding {
  import opened Octets
  import opened Outcomes
  import opened Strings

  datatype Fault =
    | EmptyMetadata | EmptyArguments | CrateNameDiffers | EmptyPackageField | MalformedManifestDigest
    | NoValue | NotOneValue | FieldTooLong

  /** `str.encode("utf-8")`, of which only injectivity matters. */
  type Encoding = string -> Bytes

  ghost predicate Injective(utf8: Encoding) {
    forall a, b :: utf8(a) == utf8(b) ==> a == b
  }

  const FIELD_LIMIT: nat := 0x1_0000_0000_0000_0000

  // ---- length-prefixed fields

  /** `int.to_bytes(k, "little")`. */
  function Little(n: nat, k: nat): Bytes
    decreases k
  {
    if k == 0 then [] else [(n % 256) as byte] + Little(n / 256, k - 1)
  }

  function Value(bytes: Bytes): nat {
    if bytes == [] then 0 else bytes[0] as nat + 256 * Value(bytes[1..])
  }

  function Limit(k: nat): nat { if k == 0 then 1 else 256 * Limit(k - 1) }

  lemma {:induction false} LittleRoundTrip(n: nat, k: nat)
    requires n < Limit(k)
    ensures |Little(n, k)| == k && Value(Little(n, k)) == n
    ensures n < 256 && 0 < k ==> Little(n, k)[0] as nat == n
  {
    if k != 0 {
      LittleRoundTrip(n / 256, k - 1);
      assert Little(n, k)[1..] == Little(n / 256, k - 1);
    }
  }

  lemma EightBytes()
    ensures Limit(8) == FIELD_LIMIT
  {
    assert Limit(4) == 256 * Limit(3) == 0x1_0000_0000;
    assert Limit(8) == 256 * Limit(7) && Limit(7) == 256 * Limit(6) && Limit(6) == 256 * Limit(5) && Limit(5) == 256 * Limit(4);
  }

  /** `update_field`: eight bytes of length, then the bytes. */
  function Field(value: Bytes): Bytes {
    Little(|value|, 8) + value
  }

  /** One field off the front. */
  function TakeField(bytes: Bytes): Option<(Bytes, Bytes)> {
    if |bytes| < 8 then None
    else
      var n := Value(bytes[..8]);
      if |bytes| < 8 + n then None else Some((bytes[8..8 + n], bytes[8 + n..]))
  }

  lemma TakeFieldInverts(value: Bytes, rest: Bytes)
    requires |value| < FIELD_LIMIT
    ensures TakeField(Field(value) + rest) == Some((value, rest))
  {
    EightBytes();
    LittleRoundTrip(|value|, 8);
    var bytes := Field(value) + rest;
    assert bytes[..8] == Little(|value|, 8);
    assert bytes[8..8 + |value|] == value;
    assert bytes[8 + |value|..] == rest;
  }

  /** Fields one after the other. */
  function Fields(values: seq<Bytes>): Bytes {
    if values == [] then [] else Field(values[0]) + Fields(values[1..])
  }

  predicate AllFit(values: seq<Bytes>) {
    forall i :: 0 <= i < |values| ==> |values[i]| < FIELD_LIMIT
  }

  function Decode(bytes: Bytes): (r: Option<seq<Bytes>>)
    decreases |bytes|
  {
    if bytes == [] then Some([])
    else
      match TakeField(bytes)
      case None => None
      case Some((value, rest)) =>
        var more := Decode(rest);
        if more.None? then None else Some([value] + more.value)
  }

  lemma FieldIsNotEmpty(value: Bytes)
    requires |value| < FIELD_LIMIT
    ensures |Field(value)| == 8 + |value|
  {
    EightBytes();
    LittleRoundTrip(|value|, 8);
  }

  lemma {:induction false} DecodeInverts(values: seq<Bytes>)
    requires AllFit(values)
    ensures Decode(Fields(values)) == Some(values)
  {
    hide Field, TakeField, Little;
    if values != [] {
      DecodeInverts(values[1..]);
      TakeFieldInverts(values[0], Fields(values[1..]));
      FieldIsNotEmpty(values[0]);
      assert [values[0]] + values[1..] == values;
    }
  }

  lemma {:induction false} FieldsAppend(a: seq<Bytes>, b: seq<Bytes>)
    ensures Fields(a + b) == Fields(a) + Fields(b)
  {
    hide Field;
    if a == [] {
      assert a + b == b;
    } else {
      FieldsAppend(a[1..], b);
      var ab := a + b;
      assert ab[1..] == a[1..] + b && ab[0] == a[0];
      assert Fields(ab) == Field(a[0]) + (Fields(a[1..]) + Fields(b));
      assert Fields(a) == Field(a[0]) + Fields(a[1..]);
    }
  }

  lemma FieldsSnoc(a: seq<Bytes>, value: Bytes)
    ensures Fields(a + [value]) == Fields(a) + Field(value)
  {
    hide Field;
    FieldsAppend(a, [value]);
    assert Fields([value]) == Field(value) + Fields([]) == Field(value);
  }

  // ---- the digest object

  /** A hash object: all that matters is the bytes fed to it. */
  class Digest {
    var fed: Bytes

    constructor (domain: Bytes)
      ensures fed == domain
    {
      fed := domain;
    }

    method Update(bytes: Bytes)
      modifies this
      ensures fed == old(fed) + bytes
    {
      fed := fed + bytes;
    }

    method UpdateField(value: Bytes)
      requires |value| < FIELD_LIMIT
      modifies this
      ensures fed == old(fed) + Field(value)
    {
      Update(Little(|value|, 8));
      Update(value);
      assert old(fed) + Field(value) == (old(fed) + Little(|value|, 8)) + value;
    }
  }

  // ---- derive_binding

  /** Everything hashed after the domain separator. */
  function BindingBody(crate: Bytes, metadata: seq<Bytes>): Bytes {
    Field(crate) + Little(|metadata|, 8) + Fields(metadata)
  }

  predicate BindingFits(crate: Bytes, metadata: seq<Bytes>) {
    |crate| < FIELD_LIMIT && |metadata| < FIELD_LIMIT && AllFit(metadata)
  }

  predicate NoneEmpty(metadata: seq<Bytes>) {
    forall i :: 0 <= i < |metadata| ==> metadata[i] != []
  }

  /** `derive_binding` up to the final hash; a length that does not fit eight bytes
      is an error in the source as well. */
  method DeriveBinding(domain: Bytes, crate: Bytes, metadata: seq<Bytes>) returns (r: Result<Bytes, Fault>)
    ensures r.Ok? <==> BindingFits(crate, metadata) && NoneEmpty(metadata)
    ensures r.Ok? ==> r.value == domain + BindingBody(crate, metadata)
  {
    hide Field, Little, Fields;
    NoFields();
    assert metadata[..0] == [];
    if |crate| >= FIELD_LIMIT || |metadata| >= FIELD_LIMIT {
      return Err(FieldTooLong);
    }
    var digest := new Digest(domain);
    digest.UpdateField(crate);
    digest.Update(Little(|metadata|, 8));
    var head := domain + Field(crate) + Little(|metadata|, 8);
    for i := 0 to |metadata|
      invariant digest.fed == head + Fields(metadata[..i])
      invariant forall k :: 0 <= k < i ==> metadata[k] != [] && |metadata[k]| < FIELD_LIMIT
    {
      if metadata[i] == [] {
        return Err(EmptyMetadata);
      }
      if |metadata[i]| >= FIELD_LIMIT {
        return Err(FieldTooLong);
      }
      digest.UpdateField(metadata[i]);
      FieldsSnoc(metadata[..i], metadata[i]);
      assert metadata[..i + 1] == metadata[..i] + [metadata[i]];
    }
    assert metadata[..|metadata|] == metadata;
    assert domain + BindingBody(crate, metadata) == head + Fields(metadata);
    r := Ok(digest.fed);
  }

  lemma NoFields()
    ensures Fields([]) == []
  {
  }

  /** Equal preimages mean equal crate names and metadata lists. */
  lemma BindingIsDecodable(domain: Bytes, crate: Bytes, metadata: seq<Bytes>, crate': Bytes, metadata': seq<Bytes>)
    requires BindingFits(crate, metadata) && BindingFits(crate', metadata')
    requires domain + BindingBody(crate, metadata) == domain + BindingBody(crate', metadata')
    ensures crate == crate' && metadata == metadata'
  {
    var body, body' := BindingBody(crate, metadata), BindingBody(crate', metadata');
    assert body == (domain + body)[|domain|..] && body' == (domain + body')[|domain|..];
    BodyDecodes(crate, metadata);
    BodyDecodes(crate', metadata');
  }

  /** Read back: the crate name, the number of metadata values, and the values. */
  lemma BodyDecodes(crate: Bytes, metadata: seq<Bytes>)
    requires BindingFits(crate, metadata)
    ensures var t := TakeField(BindingBody(crate, metadata));
            && t.Some? && t.value.0 == crate && 8 <= |t.value.1| && Value(t.value.1[..8]) == |metadata|
            && t.value.1[8..] == Fields(metadata) && Decode(t.value.1[8..]) == Some(metadata)
  {
    hide Field, TakeField, Fields, Little, Decode, Value;
    var count, rest := Little(|metadata|, 8), Little(|metadata|, 8) + Fields(metadata);
    assert BindingBody(crate, metadata) == Field(crate) + rest;
    TakeFieldInverts(crate, rest);
    CountIsEight(|metadata|);
    assert rest[..8] == count && rest[8..] == Fields(metadata);
    DecodeInverts(metadata);
  }

  lemma CountIsEight(n: nat)
    requires n < FIELD_LIMIT
    ensures |Little(n, 8)| == 8 && Value(Little(n, 8)) == n
  {
    EightBytes();
    LittleRoundTrip(n, 8);
  }

  // ---- the option parser

  const CODEGEN_KEYS: set<string> := {
    "code-model", "codegen-units", "debuginfo", "debug-assertions", "embed-bitcode", "force-frame-pointers",
    "instrument-coverage", "lto", "no-redzone", "opt-level", "panic", "relocation-model", "soft-float", "strip",
    "target-cpu", "target-feature"}

  /** One recorded option, in the order of the command line. */
  datatype Entry = Cfg(value: string) | CrateType(value: string) | Identity(key: string, value: string)

  function Separate(argument: string): Option<string> {
    if argument == "--cfg" then Some("cfg")
    else if argument == "--crate-type" then Some("crate-type")
    else if argument == "--edition" then Some("edition")
    else if argument == "--target" then Some("target")
    else None
  }

  function RecordOption(key: string, value: string): seq<Entry> {
    if key == "cfg" then [Cfg(value)] else if key == "crate-type" then [CrateType(value)] else [Identity(key, value)]
  }

  /** `str.partition("=")` at or after position `p`: where the separator stands. */
  function EqualsAt(s: string, p: nat): Option<nat>
    decreases |s| - p
  {
    if p >= |s| then None else if s[p] == '=' then Some(p) else EqualsAt(s, p + 1)
  }

  lemma {:induction false} EqualsInside(s: string, p: nat)
    ensures EqualsAt(s, p).Some? ==> p <= EqualsAt(s, p).value < |s|
    decreases |s| - p
  {
    if p < |s| && s[p] != '=' { EqualsInside(s, p + 1); }
  }

  function RecordCodegen(value: string): seq<Entry> {
    EqualsInside(value, 0);
    match EqualsAt(value, 0)
    case None => []
    case Some(p) => if value[..p] in CODEGEN_KEYS then [Identity(value[..p], value[p + 1..])] else []
  }

  predicate IsCodegen(argument: string) { argument == "-C" || argument == "--codegen" }

  /** An argument that takes the next one as its value. */
  predicate TakesNext(argument: string) { Separate(argument).Some? || IsCodegen(argument) }

  function Paired(argument: string, value: string): seq<Entry>
    requires TakesNext(argument)
  {
    if Separate(argument).Some? then RecordOption(Separate(argument).value, value) else RecordCodegen(value)
  }

  /** An argument on its own: the joined spellings, or nothing. */
  function Alone(argument: string): seq<Entry> {
    if "--cfg=" <= argument then [Cfg(argument[6..])]
    else if "--crate-type=" <= argument then [CrateType(argument[13..])]
    else if "--edition=" <= argument then [Identity("edition", argument[10..])]
    else if "--target=" <= argument then [Identity("target", argument[9..])]
    else if "-C" <= argument then RecordCodegen(argument[2..])
    else if "--codegen=" <= argument then RecordCodegen(argument[10..])
    else []
  }

  /** What the arguments after the program name record. */
  function Parse(arguments: seq<string>): Result<seq<Entry>, Fault> {
    if arguments == [] || arguments[0] == "--" then Ok([])
    else if TakesNext(arguments[0]) then
      if |arguments| == 1 then Err(NoValue) else Then(Paired(arguments[0], arguments[1]), Parse(arguments[2..]))
    else Then(Alone(arguments[0]), Parse(arguments[1..]))
  }

  function Then(front: seq<Entry>, r: Result<seq<Entry>, Fault>): Result<seq<Entry>, Fault> {
    if r.Err? then r else Ok(front + r.value)
  }

  lemma ThenThen(a: seq<Entry>, b: seq<Entry>, r: Result<seq<Entry>, Fault>)
    ensures Then(a, Then(b, r)) == Then(a + b, r)
  {
    if r.Ok? { assert a + (b + r.value) == (a + b) + r.value; }
  }

  /** The parsing loop, with the option tables spelled out as in the source. */
  method ParseArguments(argv: seq<string>) returns (r: Result<seq<Entry>, Fault>)
    requires argv != []
    ensures r == Parse(argv[1..])
  {
    hide Paired, Alone, Separate, IsCodegen;
    var entries: seq<Entry> := [];
    var index := 1;
    ghost var rest := argv[1..];
    EmptyThen(Parse(rest));
    while index < |argv|
      invariant 1 <= index <= |argv| && rest == argv[index..]
      invariant Parse(argv[1..]) == Then(entries, Parse(rest))
    {
      var argument := argv[index];
      if argument == "--" {
        break;
      }
      if TakesNext(argument) {
        if index + 1 >= |argv| {
          return Err(NoValue);
        }
        assert rest[1] == argv[index + 1] && rest[2..] == argv[index + 2..];
        ThenThen(entries, Paired(argument, argv[index + 1]), Parse(rest[2..]));
        entries := entries + Paired(argument, argv[index + 1]);
        index := index + 2;
      } else {
        assert rest[1..] == argv[index + 1..];
        ThenThen(entries, Alone(argument), Parse(rest[1..]));
        entries := entries + Alone(argument);
        index := index + 1;
      }
      rest := argv[index..];
    }
    assert entries + [] == entries;
    r := Ok(entries);
  }

  lemma EmptyThen(r: Result<seq<Entry>, Fault>)
    ensures Then([], r) == r
  {
    if r.Ok? { assert [] + r.value == r.value; }
  }

  // ---- spelling

  /** Arguments that the parser consumes completely, leaving it ready for what follows. */
  predicate Whole(arguments: seq<string>) {
    arguments == [] ||
    (arguments[0] != "--" &&
     if TakesNext(arguments[0]) then 2 <= |arguments| && Whole(arguments[2..]) else Whole(arguments[1..]))
  }

  lemma {:induction false} ParseAppend(front: seq<string>, rest: seq<string>)
    requires Whole(front)
    ensures Parse(front).Ok? && Parse(front + rest) == Then(Parse(front).value, Parse(rest))
    decreases |front|
  {
    hide Paired, Alone, TakesNext;
    var all := front + rest;
    if front == [] {
      assert all == rest;
      EmptyThen(Parse(rest));
    } else if TakesNext(front[0]) {
      ParseAppend(front[2..], rest);
      assert all[2..] == front[2..] + rest && all[0] == front[0] && all[1] == front[1];
      ThenThen(Paired(front[0], front[1]), Parse(front[2..]).value, Parse(rest));
    } else {
      ParseAppend(front[1..], rest);
      assert all[1..] == front[1..] + rest && all[0] == front[0];
      ThenThen(Alone(front[0]), Parse(front[1..]).value, Parse(rest));
    }
  }

  /** The joined spelling of an option with its value. */
  function Joined(option: string, value: string): string {
    if option == "-C" then "-C" + value else option + "=" + value
  }

  lemma PrefixAndRest(prefix: string, value: string)
    ensures prefix <= prefix + value && (prefix + value)[|prefix|..] == value
  {
  }

  lemma JoinedCfg(value: string)
    ensures Joined("--cfg", value) == "--cfg=" + value
    ensures !TakesNext("--cfg=" + value) && Alone("--cfg=" + value) == [Cfg(value)]
  {
    var joined := "--cfg=" + value;
    PrefixAndRest("--cfg=", value);
    assert "--cfg" + "=" == "--cfg=";
    assert joined[5] == '=' && joined[2] == 'c' && joined[3] == 'f';
  }

  lemma JoinedCrateType(value: string)
    ensures Joined("--crate-type", value) == "--crate-type=" + value
    ensures !TakesNext("--crate-type=" + value) && Alone("--crate-type=" + value) == [CrateType(value)]
  {
    var joined := "--crate-type=" + value;
    PrefixAndRest("--crate-type=", value);
    assert "--crate-type" + "=" == "--crate-type=";
    assert joined[12] == '=' && joined[2] == 'c' && joined[3] == 'r';
  }

  lemma JoinedEdition(value: string)
    ensures Joined("--edition", value) == "--edition=" + value
    ensures !TakesNext("--edition=" + value) && Alone("--edition=" + value) == [Identity("edition", value)]
  {
    var joined := "--edition=" + value;
    PrefixAndRest("--edition=", value);
    assert "--edition" + "=" == "--edition=";
    assert joined[9] == '=' && joined[2] == 'e';
  }

  lemma JoinedTarget(value: string)
    ensures Joined("--target", value) == "--target=" + value
    ensures !TakesNext("--target=" + value) && Alone("--target=" + value) == [Identity("target", value)]
  {
    var joined := "--target=" + value;
    PrefixAndRest("--target=", value);
    assert "--target" + "=" == "--target=";
    assert joined[8] == '=' && joined[2] == 't';
  }

  lemma JoinedCodegen(value: string)
    ensures Joined("--codegen", value) == "--codegen=" + value
    ensures !TakesNext("--codegen=" + value) && Alone("--codegen=" + value) == RecordCodegen(value)
  {
    hide RecordCodegen;
    var joined := "--codegen=" + value;
    PrefixAndRest("--codegen=", value);
    assert "--codegen" + "=" == "--codegen=";
    assert joined[9] == '=' && joined[1] == '-' && joined[2] == 'c' && joined[3] == 'o';
  }

  lemma JoinedShort(value: string)
    requires value != []
    ensures !TakesNext("-C" + value) && Alone("-C" + value) == RecordCodegen(value)
  {
    hide RecordCodegen;
    var joined := "-C" + value;
    PrefixAndRest("-C", value);
    assert |joined| > 2 && joined[1] == 'C';
  }

  lemma JoinedIsAlone(option: string, value: string)
    requires TakesNext(option) && (option == "-C" ==> value != [])
    ensures !TakesNext(Joined(option, value)) && Joined(option, value) != "--"
    ensures Alone(Joined(option, value)) == Paired(option, value)
  {
    hide Alone, RecordCodegen;
    if option == "--cfg" { JoinedCfg(value); }
    else if option == "--crate-type" { JoinedCrateType(value); }
    else if option == "--edition" { JoinedEdition(value); }
    else if option == "--target" { JoinedTarget(value); }
    else if option == "--codegen" { JoinedCodegen(value); }
    else { JoinedShort(value); }
  }

  /** Split and joined spellings record the same, anywhere on the command line; only an
      empty `-C` value has no joined spelling. */
  lemma SpellingRecordsTheSame(front: seq<string>, option: string, value: string, rest: seq<string>)
    requires Whole(front) && TakesNext(option) && (option == "-C" ==> value != [])
    ensures Parse(front + [option, value] + rest) == Parse(front + [Joined(option, value)] + rest)
  {
    hide Paired, Alone, TakesNext, Joined, Whole;
    var joined := Joined(option, value);
    var split, single := [option, value] + rest, [joined] + rest;
    assert front + [option, value] + rest == front + split && front + [joined] + rest == front + single;
    JoinedIsAlone(option, value);
    assert split[0] == option && split[1] == value && split[2..] == rest && single[0] == joined && single[1..] == rest;
    OptionIsNotEnd(option);
    ParseAppend(front, split);
    ParseAppend(front, single);
  }

  lemma OptionIsNotEnd(option: string)
    requires TakesNext(option)
    ensures option != "--"
  {
  }

  /** Without its value, `-C` takes the next argument: the empty value is lost in the
      joined spelling. */
  lemma EmptyCodegenHasNoJoinedSpelling()
    ensures Joined("-C", "") == "-C"
    ensures Parse(["-C", "", "--cfg", "a"]) == Ok([Cfg("a")]) && Parse(["-C", "--cfg", "a"]) == Ok([])
  {
    hide RecordCodegen;
    assert RecordCodegen("") == [] && RecordCodegen("--cfg") == [] by { NoEquals(); }
    var split, joined := ["-C", "", "--cfg", "a"], ["-C", "--cfg", "a"];
    assert split[2..] == ["--cfg", "a"] && joined[2..] == ["a"] && ["--cfg", "a"][2..] == [] && ["a"][1..] == [];
    assert Alone("a") == [] && Paired("--cfg", "a") == [Cfg("a")];
    EmptyThen(Ok([]));
    assert Parse(["a"]) == Ok([]);
    assert [Cfg("a")] + [] == [Cfg("a")];
    assert Parse(["--cfg", "a"]) == Ok([Cfg("a")]);
    EmptyThen(Ok([Cfg("a")]));
  }

  lemma NoEquals()
    ensures RecordCodegen("") == [] && RecordCodegen("--cfg") == []
  {
    assert EqualsAt("--cfg", 5).None?;
    assert EqualsAt("--cfg", 4).None?;
    assert EqualsAt("--cfg", 3).None?;
    assert EqualsAt("--cfg", 2).None?;
    assert EqualsAt("--cfg", 1).None?;
  }

  /** Nothing after `--` is recorded. */
  lemma {:induction false} NothingRecordedAfterDashes(arguments: seq<string>, tail: seq<string>)
    requires Parse(arguments).Ok?
    ensures Parse(arguments + ["--"] + tail) == Parse(arguments)
    decreases |arguments|
  {
    hide Paired, Alone, TakesNext;
    var all := arguments + ["--"] + tail;
    if arguments == [] {
      assert all[0] == "--";
    } else if arguments[0] != "--" {
      assert all[0] == arguments[0];
      if TakesNext(arguments[0]) {
        NothingRecordedAfterDashes(arguments[2..], tail);
        assert all[1] == arguments[1] && all[2..] == arguments[2..] + ["--"] + tail;
      } else {
        NothingRecordedAfterDashes(arguments[1..], tail);
        assert all[1..] == arguments[1..] + ["--"] + tail;
      }
    }
  }

  // ---- derive_portable_metadata

  type Pair = (string, string)

  function Cfgs(entries: seq<Entry>): seq<string> {
    if entries == [] then []
    else if entries[0].Cfg? then [entries[0].value] + Cfgs(entries[1..]) else Cfgs(entries[1..])
  }

  function CrateTypes(entries: seq<Entry>): seq<string> {
    if entries == [] then []
    else if entries[0].CrateType? then [entries[0].value] + CrateTypes(entries[1..]) else CrateTypes(entries[1..])
  }

  function Identities(entries: seq<Entry>): seq<Pair> {
    if entries == [] then []
    else if entries[0].Identity? then [(entries[0].key, entries[0].value)] + Identities(entries[1..])
    else Identities(entries[1..])
  }

  function Tagged(key: string, values: seq<string>): seq<Pair> {
    seq(|values|, i requires 0 <= i < |values| => (key, values[i]))
  }

  /** Who the crate is, and what its command line recorded. */
  datatype Portable = Portable(package: string, version: string, manifest: string, crate: string, entries: seq<Entry>)

  /** The key and value fields in the order they are hashed. */
  function Pairs(p: Portable): seq<Pair> {
    [("package-name", p.package), ("package-version", p.version), ("manifest-sha256", p.manifest), ("crate-name", p.crate)]
    + (Tagged("cfg", SortedSet(Cfgs(p.entries)))
       + (Tagged("crate-type", SortedSet(CrateTypes(p.entries))) + Identities(p.entries)))
  }

  function Flatten(pairs: seq<Pair>, utf8: Encoding): seq<Bytes> {
    if pairs == [] then [] else [utf8(pairs[0].0), utf8(pairs[0].1)] + Flatten(pairs[1..], utf8)
  }

  /** `option_value`: every value given for the name, also after `--`. */
  function OptionValues(argv: seq<string>, name: string): Result<seq<string>, Fault> {
    if argv == [] then Ok([])
    else
      var later := OptionValues(argv[1..], name);
      if argv[0] == name && |argv| == 1 then Err(NoValue)
      else if later.Err? then later
      else if argv[0] == name then Ok([argv[1]] + later.value)
      else if name + "=" <= argv[0] then Ok([argv[0][|name| + 1..]] + later.value)
      else later
  }

  predicate IsHex64(s: string) {
    |s| == 64 && forall i :: 0 <= i < 64 ==> '0' <= s[i] <= '9' || 'a' <= s[i] <= 'f'
  }

  /** The checks before anything is hashed, and the entries they let through. */
  function CheckedEntries(argv: seq<string>, package: string, version: string, manifest: string, crate: string)
    : Result<seq<Entry>, Fault>
  {
    if argv == [] then Err(EmptyArguments)
    else
      var names := OptionValues(argv, CRATE_NAME);
      if names.Err? then Err(names.error)
      else if |names.value| != 1 then Err(NotOneValue)
      else if names.value[0] != crate then Err(CrateNameDiffers)
      else if package == [] || version == [] then Err(EmptyPackageField)
      else if !IsHex64(manifest) then Err(MalformedManifestDigest)
      else Parse(argv[1..])
  }

  // ---- the crate-name look-up reads the whole command line

  const CRATE_NAME := "--crate-name"

  predicate Mentions(argument: string, name: string) {
    argument == name || name + "=" <= argument
  }

  predicate MentionsNone(arguments: seq<string>, name: string) {
    forall i :: 0 <= i < |arguments| ==> !Mentions(arguments[i], name)
  }

  /** The values that `front` contributes when `next` follows it. */
  function Contributed(front: seq<string>, next: string, name: string): seq<string> {
    if front == [] then []
    else
      (if front[0] == name then [if |front| == 1 then next else front[1]]
       else if name + "=" <= front[0] then [front[0][|name| + 1..]] else [])
      + Contributed(front[1..], next, name)
  }

  lemma {:induction false} ValuesAppend(front: seq<string>, rest: seq<string>, name: string)
    requires rest != []
    ensures var later := OptionValues(rest, name);
            OptionValues(front + rest, name)
            == if later.Err? then later else Ok(Contributed(front, rest[0], name) + later.value)
  {
    var all := front + rest;
    if front == [] {
      assert all == rest;
      var later := OptionValues(rest, name);
      assert later.Ok? ==> Contributed([], rest[0], name) + later.value == later.value;
    } else {
      ValuesAppend(front[1..], rest, name);
      assert all[0] == front[0] && all[1..] == front[1..] + rest && all[1] == if |front| == 1 then rest[0] else front[1];
      var later := OptionValues(rest, name);
      if later.Ok? {
        var head := if front[0] == name then [all[1]] else if name + "=" <= front[0] then [front[0][|name| + 1..]] else [];
        var middle := Contributed(front[1..], rest[0], name);
        assert head + (middle + later.value) == (head + middle) + later.value;
        assert head == [] ==> head + middle == middle;
      }
    }
  }

  lemma {:induction false} ContributedIsValues(front: seq<string>, next: string, name: string)
    requires OptionValues(front, name).Ok?
    ensures Contributed(front, next, name) == OptionValues(front, name).value
  {
    if front != [] { ContributedIsValues(front[1..], next, name); }
  }

  lemma {:induction false} NoMentionNoValue(arguments: seq<string>, name: string)
    ensures MentionsNone(arguments, name) <==> OptionValues(arguments, name) == Ok([])
  {
    if arguments != [] {
      NoMentionNoValue(arguments[1..], name);
      if MentionsNone(arguments[1..], name) && !Mentions(arguments[0], name) {
        forall i | 0 <= i < |arguments| ensures !Mentions(arguments[i], name) {
          if i > 0 { assert arguments[i] == arguments[1..][i - 1]; }
        }
      }
    }
  }

  /** The only argument after which the follower matters is the bare name. */
  lemma {:induction false} FollowerMatters(front: seq<string>, next: string, next': string, name: string)
    ensures |Contributed(front, next, name)| == |Contributed(front, next', name)|
    ensures next != next' ==>
              (Contributed(front, next, name) == Contributed(front, next', name)
               <==> front == [] || front[|front| - 1] != name)
  {
    if |front| > 1 {
      FollowerMatters(front[1..], next, next', name);
      assert front[1..][|front| - 2] == front[|front| - 1];
      var head := if front[0] == name then [front[1]] else if name + "=" <= front[0] then [front[0][|name| + 1..]] else [];
      var a, b := Contributed(front[1..], next, name), Contributed(front[1..], next', name);
      assert (head + a)[|head|..] == a && (head + b)[|head|..] == b;
    } else if |front| == 1 {
      assert front[1..] == [];
      if front[0] == name {
        assert Contributed(front, next, name) == [next] && Contributed(front, next', name) == [next'];
        assert [next][0] == next && [next'][0] == next';
      }
    }
  }

  /** Arguments after `--` change nothing exactly when none of them spells the crate
      name: the look-up of the name does not stop at `--`. */
  lemma NothingAfterDashes(argv: seq<string>, tail: seq<string>, package: string, version: string, manifest: string,
                           crate: string)
    requires CheckedEntries(argv, package, version, manifest, crate).Ok?
    ensures CheckedEntries(argv + ["--"] + tail, package, version, manifest, crate)
            == CheckedEntries(argv, package, version, manifest, crate)
            <==> MentionsNone(tail, CRATE_NAME)
  {
    hide Parse, OptionValues, IsHex64, MentionsNone;
    var all, rest := argv + ["--"] + tail, ["--"] + tail;
    assert all == argv + rest && all[1..] == argv[1..] + ["--"] + tail;
    NothingRecordedAfterDashes(argv[1..], tail);
    ValuesAppend(argv, rest, CRATE_NAME);
    ContributedIsValues(argv, "--", CRATE_NAME);
    NoMentionNoValue(tail, CRATE_NAME);
    DashesAreNoName(tail);
  }

  lemma DashesAreNoName(tail: seq<string>)
    ensures OptionValues(["--"] + tail, CRATE_NAME) == OptionValues(tail, CRATE_NAME)
  {
    var all := ["--"] + tail;
    assert all[1..] == tail && |"--"| < |CRATE_NAME|;
  }

  /** An accepted command line is refused once `--crate-name=z` follows its `--`. */
  lemma CrateNameCountsAfterDashes(argv: seq<string>, package: string, version: string, manifest: string, crate: string)
    requires CheckedEntries(argv, package, version, manifest, crate).Ok?
    ensures CheckedEntries(argv + ["--"] + ["--crate-name=z"], package, version, manifest, crate) == Err(NotOneValue)
  {
    hide Parse, IsHex64;
    var all, rest := argv + ["--"] + ["--crate-name=z"], ["--"] + ["--crate-name=z"];
    assert all == argv + rest;
    ValuesAppend(argv, rest, CRATE_NAME);
    ContributedIsValues(argv, "--", CRATE_NAME);
    DashesAreNoName(["--crate-name=z"]);
    assert CRATE_NAME + "=" <= "--crate-name=z" && ["--crate-name=z"][1..] == [];
    assert |OptionValues(["--crate-name=z"], CRATE_NAME).value| == 1;
  }

  /** If either spelling is accepted, the two agree exactly when the value does not
      itself spell the crate name and the option does not stand where the value of a
      split `--crate-name` is looked for. */
  lemma SpellingDoesNotMatter(front: seq<string>, option: string, value: string, rest: seq<string>, package: string,
                              version: string, manifest: string, crate: string)
    requires front != [] && Whole(front[1..]) && TakesNext(option) && (option == "-C" ==> value != [])
    requires CheckedEntries(front + [option, value] + rest, package, version, manifest, crate).Ok?
             || CheckedEntries(front + [Joined(option, value)] + rest, package, version, manifest, crate).Ok?
    ensures CheckedEntries(front + [option, value] + rest, package, version, manifest, crate)
            == CheckedEntries(front + [Joined(option, value)] + rest, package, version, manifest, crate)
            <==> !Mentions(value, CRATE_NAME) && front[|front| - 1] != CRATE_NAME
  {
    hide Parse, OptionValues, IsHex64, Mentions, Whole, TakesNext, Joined, Contributed;
    var joined := Joined(option, value);
    var split, single := front + [option, value] + rest, front + [joined] + rest;
    assert split == front + ([option] + ([value] + rest)) && single == front + ([joined] + rest);
    assert split[1..] == front[1..] + [option, value] + rest && single[1..] == front[1..] + [joined] + rest;
    SpellingRecordsTheSame(front[1..], option, value, rest);
    ValuesAppend(front, [option] + ([value] + rest), CRATE_NAME);
    ValuesAppend(front, [joined] + rest, CRATE_NAME);
    OptionsAreNoName(option, value);
    ValuesOfOther(option, [value] + rest);
    ValuesOfOther(joined, rest);
    ValuesOfHead(value, rest);
    FollowerMatters(front, option, joined, CRATE_NAME);
    OneValueEach(Contributed(front, option, CRATE_NAME), Contributed(front, joined, CRATE_NAME),
                 OptionValues([value] + rest, CRATE_NAME), OptionValues(rest, CRATE_NAME));
  }

  lemma OptionsAreNoName(option: string, value: string)
    requires TakesNext(option)
    ensures !Mentions(option, CRATE_NAME) && !Mentions(Joined(option, value), CRATE_NAME)
    ensures option != Joined(option, value) || (option == "-C" && value == [])
  {
    var joined := Joined(option, value);
    assert forall k :: 0 <= k < |option| ==> joined[k] == option[k];
    assert |joined| == |option| ==> value == [] && option == "-C";
    var k := if option == "--crate-type" then 8 else if option == "-C" then 1 else if option in {"--cfg", "--codegen"} then 3 else 2;
    assert option[k] != CRATE_NAME[k];
    DiffersAt(option, CRATE_NAME, k);
    DiffersAt(joined, CRATE_NAME, k);
  }

  lemma DiffersAt(argument: string, name: string, k: nat)
    requires k < |argument| && k < |name| && argument[k] != name[k]
    ensures !Mentions(argument, name)
  {
    assert (name + "=")[k] == name[k];
  }

  lemma ValuesOfOther(argument: string, rest: seq<string>)
    requires !Mentions(argument, CRATE_NAME)
    ensures OptionValues([argument] + rest, CRATE_NAME) == OptionValues(rest, CRATE_NAME)
  {
    assert ([argument] + rest)[1..] == rest;
  }

  lemma ValuesOfHead(argument: string, rest: seq<string>)
    ensures var all, later := OptionValues([argument] + rest, CRATE_NAME), OptionValues(rest, CRATE_NAME);
            && (all.Ok? ==> later.Ok? && |all.value| == |later.value| + if Mentions(argument, CRATE_NAME) then 1 else 0)
            && (!Mentions(argument, CRATE_NAME) ==> all == later)
  {
    assert ([argument] + rest)[1..] == rest;
  }

  lemma OneValueEach(a: seq<string>, b: seq<string>, x: Result<seq<string>, Fault>, y: Result<seq<string>, Fault>)
    requires |a| == |b|
    ensures x == y && x.Ok? ==> (a + x.value == b + y.value <==> a == b)
  {
    if x == y && x.Ok? { assert (a + x.value)[..|a|] == a && (b + y.value)[..|b|] == b; }
  }

  /** The split spelling of `--cfg` with the value `--crate-name` makes the next argument
      a crate name; the joined spelling does not. */
  lemma SplitValueCanNameTheCrate()
    ensures OptionValues(["rustc", "--cfg", "--crate-name", "unit"], CRATE_NAME) == Ok(["unit"])
    ensures OptionValues(["rustc", "--cfg=--crate-name", "unit"], CRATE_NAME) == Ok([])
    ensures forall package, version, manifest | package != [] && version != [] && IsHex64(manifest) ::
              && CheckedEntries(["rustc", "--cfg", "--crate-name", "unit"], package, version, manifest, "unit").Ok?
              && CheckedEntries(["rustc", "--cfg=--crate-name", "unit"], package, version, manifest, "unit") == Err(NotOneValue)
  {
    hide IsHex64;
    var arguments := ["--cfg", "--crate-name", "unit"];
    assert ["rustc", "--cfg", "--crate-name", "unit"][1..] == arguments && arguments[2..] == ["unit"] && ["unit"][1..] == [];
    assert !TakesNext("unit") && Parse(["unit"]).Ok? && Parse(arguments).Ok?;
    DiffersAt("rustc", CRATE_NAME, 0);
    DiffersAt("unit", CRATE_NAME, 0);
    DiffersAt("--cfg", CRATE_NAME, 3);
    DiffersAt("--cfg=--crate-name", CRATE_NAME, 3);
    NoMentionNoValue(["rustc", "--cfg=--crate-name", "unit"], CRATE_NAME);
    NoMentionNoValue(["unit"], CRATE_NAME);
    assert ["--crate-name", "unit"][1..] == ["unit"];
    assert ["unit"] + [] == ["unit"];
    assert OptionValues(["--crate-name", "unit"], CRATE_NAME) == Ok(["unit"]);
    assert ["rustc", "--cfg", "--crate-name", "unit"] == ["rustc"] + (["--cfg"] + ["--crate-name", "unit"]);
    ValuesOfOther("--cfg", ["--crate-name", "unit"]);
    ValuesOfOther("rustc", ["--cfg"] + ["--crate-name", "unit"]);
  }

  method DerivePortable(domain: Bytes, utf8: Encoding, argv: seq<string>, package: string, version: string,
                        manifest: string, crate: string) returns (r: Result<Bytes, Fault>)
    ensures var entries := CheckedEntries(argv, package, version, manifest, crate);
            && (entries.Err? ==> r == Err(entries.error))
            && (entries.Ok? ==>
                  var values := Flatten(Pairs(Portable(package, version, manifest, crate, entries.value)), utf8);
                  r == if AllFit(values) then Ok(domain + Fields(values)) else Err(FieldTooLong))
  {
    hide Parse, OptionValues, IsHex64, Pairs, Field, Fields, Flatten;
    if argv == [] {
      return Err(EmptyArguments);
    }
    var names := OptionValues(argv, CRATE_NAME);
    if names.Err? {
      return Err(names.error);
    }
    if |names.value| != 1 {
      return Err(NotOneValue);
    }
    if names.value[0] != crate {
      return Err(CrateNameDiffers);
    }
    if package == [] || version == [] {
      return Err(EmptyPackageField);
    }
    if !IsHex64(manifest) {
      return Err(MalformedManifestDigest);
    }
    var entries := ParseArguments(argv);
    if entries.Err? {
      return Err(entries.error);
    }
    var values := Flatten(Pairs(Portable(package, version, manifest, crate, entries.value)), utf8);
    var digest := new Digest(domain);
    NoFields();
    assert values[..0] == [];
    for i := 0 to |values|
      invariant digest.fed == domain + Fields(values[..i])
      invariant forall k :: 0 <= k < i ==> |values[k]| < FIELD_LIMIT
    {
      if |values[i]| >= FIELD_LIMIT {
        return Err(FieldTooLong);
      }
      digest.UpdateField(values[i]);
      FieldsSnoc(values[..i], values[i]);
      assert values[..i + 1] == values[..i] + [values[i]];
    }
    assert values[..|values|] == values;
    r := Ok(digest.fed);
  }

  // ---- equal preimages mean equal inputs

  lemma {:induction false} FlattenIsInjective(a: seq<Pair>, b: seq<Pair>, utf8: Encoding)
    requires Injective(utf8) && Flatten(a, utf8) == Flatten(b, utf8)
    ensures a == b
  {
    if a == [] {
      assert b == [] || |Flatten(b, utf8)| >= 2;
    } else {
      assert |Flatten(a, utf8)| >= 2;
      assert b != [];
      var x, y := Flatten(a, utf8), Flatten(b, utf8);
      assert x[0] == utf8(a[0].0) && y[0] == utf8(b[0].0) && x[1] == utf8(a[0].1) && y[1] == utf8(b[0].1);
      assert x[2..] == Flatten(a[1..], utf8) && y[2..] == Flatten(b[1..], utf8);
      FlattenIsInjective(a[1..], b[1..], utf8);
      assert a == [a[0]] + a[1..] && b == [b[0]] + b[1..];
    }
  }

  predicate AllKeyed(pairs: seq<Pair>, key: string) {
    forall i :: 0 <= i < |pairs| ==> pairs[i].0 == key
  }

  predicate StartsOtherwise(pairs: seq<Pair>, key: string) {
    pairs == [] || pairs[0].0 != key
  }

  /** A run of one key followed by something else is cut at one place only. */
  lemma RunIsUnique(a: seq<Pair>, b: seq<Pair>, a': seq<Pair>, b': seq<Pair>, key: string)
    requires a + b == a' + b' && AllKeyed(a, key) && AllKeyed(a', key) && StartsOtherwise(b, key) && StartsOtherwise(b', key)
    ensures a == a' && b == b'
  {
    var all := a + b;
    assert forall i :: 0 <= i < |a'| ==> all[i].0 == key by { assert forall i :: 0 <= i < |a'| ==> all[i] == a'[i]; }
    assert forall i :: 0 <= i < |a| ==> all[i].0 == key;
    assert |a| < |all| ==> all[|a|] == b[0];
    assert |a'| < |all| ==> all[|a'|] == b'[0] by { assert all == a' + b'; }
    assert |a| == |a'|;
    assert a == all[..|a|] && a' == all[..|a'|] && b == all[|a|..] && b' == all[|a'|..];
  }

  /** Recorded identity keys are neither of the two set keys. */
  predicate IdentityKeysOk(entries: seq<Entry>) {
    forall i :: 0 <= i < |entries| && entries[i].Identity? ==> entries[i].key != "cfg" && entries[i].key != "crate-type"
  }

  lemma {:induction false} IdentitiesStartOtherwise(entries: seq<Entry>)
    requires IdentityKeysOk(entries)
    ensures StartsOtherwise(Identities(entries), "cfg") && StartsOtherwise(Identities(entries), "crate-type")
  {
    if entries != [] && !entries[0].Identity? { IdentitiesStartOtherwise(entries[1..]); }
  }

  lemma {:induction false} ParsedKeysOk(arguments: seq<string>)
    requires Parse(arguments).Ok?
    ensures IdentityKeysOk(Parse(arguments).value)
    decreases |arguments|
  {
    hide Paired, Alone, TakesNext;
    if arguments != [] && arguments[0] != "--" {
      if TakesNext(arguments[0]) {
        PairedKeysOk(arguments[0], arguments[1]);
        ParsedKeysOk(arguments[2..]);
      } else {
        AloneKeysOk(arguments[0]);
        ParsedKeysOk(arguments[1..]);
      }
    }
  }

  lemma CodegenKeysOk(value: string)
    ensures IdentityKeysOk(RecordCodegen(value))
  {
    assert "cfg" !in CODEGEN_KEYS && "crate-type" !in CODEGEN_KEYS;
  }

  lemma PairedKeysOk(option: string, value: string)
    requires TakesNext(option)
    ensures IdentityKeysOk(Paired(option, value))
  {
    hide RecordCodegen;
    CodegenKeysOk(value);
  }

  lemma AloneKeysOk(argument: string)
    ensures IdentityKeysOk(Alone(argument))
  {
    hide RecordCodegen;
    if "-C" <= argument { CodegenKeysOk(argument[2..]); }
    if "--codegen=" <= argument { CodegenKeysOk(argument[10..]); }
  }

  lemma TaggedIsInjective(key: string, a: seq<string>, b: seq<string>)
    requires Tagged(key, a) == Tagged(key, b)
    ensures a == b
  {
    assert |a| == |Tagged(key, a)| == |b|;
    forall i | 0 <= i < |a| ensures a[i] == b[i] { assert Tagged(key, a)[i] == Tagged(key, b)[i]; }
  }

  /** The same recorded values: cfgs and crate types as sets, identity options as a list. */
  ghost predicate SameRecord(a: seq<Entry>, b: seq<Entry>) {
    && (forall c :: c in Cfgs(a) <==> c in Cfgs(b))
    && (forall c :: c in CrateTypes(a) <==> c in CrateTypes(b))
    && Identities(a) == Identities(b)
  }

  lemma TypesStartOtherwise(types: seq<string>, entries: seq<Entry>)
    requires IdentityKeysOk(entries)
    ensures StartsOtherwise(Tagged("crate-type", types) + Identities(entries), "cfg")
  {
    IdentitiesStartOtherwise(entries);
  }

  lemma PairsDetermine(p: Portable, q: Portable)
    requires IdentityKeysOk(p.entries) && IdentityKeysOk(q.entries)
    ensures Pairs(p) == Pairs(q) <==>
            p.package == q.package && p.version == q.version && p.manifest == q.manifest && p.crate == q.crate
            && SameRecord(p.entries, q.entries)
  {
    hide Identities, SortedSet, Cfgs, CrateTypes;
    var cfgs, types := SortedSet(Cfgs(p.entries)), SortedSet(CrateTypes(p.entries));
    var cfgs', types' := SortedSet(Cfgs(q.entries)), SortedSet(CrateTypes(q.entries));
    SortedSetIsCanonical(Cfgs(p.entries), Cfgs(q.entries));
    SortedSetIsCanonical(CrateTypes(p.entries), CrateTypes(q.entries));
    if Pairs(p) == Pairs(q) {
      HeadsMatch(p, q);
      var tail, tail' := Tagged("crate-type", types) + Identities(p.entries), Tagged("crate-type", types') + Identities(q.entries);
      TypesStartOtherwise(types, p.entries);
      TypesStartOtherwise(types', q.entries);
      RunIsUnique(Tagged("cfg", cfgs), tail, Tagged("cfg", cfgs'), tail', "cfg");
      IdentitiesStartOtherwise(p.entries);
      IdentitiesStartOtherwise(q.entries);
      RunIsUnique(Tagged("crate-type", types), Identities(p.entries),
                  Tagged("crate-type", types'), Identities(q.entries), "crate-type");
      TaggedIsInjective("cfg", cfgs, cfgs');
      TaggedIsInjective("crate-type", types, types');
    }
  }

  lemma HeadsMatch(p: Portable, q: Portable)
    requires Pairs(p) == Pairs(q)
    ensures p.package == q.package && p.version == q.version && p.manifest == q.manifest && p.crate == q.crate
    ensures Pairs(p)[4..] == Pairs(q)[4..]
  {
    hide Tagged, Identities, SortedSet, Cfgs, CrateTypes;
    assert Pairs(p)[0] == Pairs(q)[0] && Pairs(p)[1] == Pairs(q)[1] && Pairs(p)[2] == Pairs(q)[2] && Pairs(p)[3] == Pairs(q)[3];
  }

  /** The portable preimage is uniquely decodable, and exactly as fine as it should be:
      equal bytes if and only if equal package identity, equal cfg set, equal
      crate-type set and equal ordered option list. */
  lemma PortableIsDecodable(domain: Bytes, utf8: Encoding, argv: seq<string>, argv': seq<string>, p: Portable, q: Portable)
    requires Injective(utf8)
    requires CheckedEntries(argv, p.package, p.version, p.manifest, p.crate) == Ok(p.entries)
    requires CheckedEntries(argv', q.package, q.version, q.manifest, q.crate) == Ok(q.entries)
    requires AllFit(Flatten(Pairs(p), utf8)) && AllFit(Flatten(Pairs(q), utf8))
    ensures domain + Fields(Flatten(Pairs(p), utf8)) == domain + Fields(Flatten(Pairs(q), utf8)) <==>
            p.package == q.package && p.version == q.version && p.manifest == q.manifest && p.crate == q.crate
            && SameRecord(p.entries, q.entries)
  {
    hide Pairs, Fields, Flatten, Parse, OptionValues, IsHex64, SameRecord, AllFit, Decode, Injective;
    var x, y := Flatten(Pairs(p), utf8), Flatten(Pairs(q), utf8);
    ParsedKeysOk(argv[1..]);
    ParsedKeysOk(argv'[1..]);
    PairsDetermine(p, q);
    if domain + Fields(x) == domain + Fields(y) {
      assert Fields(x) == (domain + Fields(x))[|domain|..] && Fields(y) == (domain + Fields(y))[|domain|..];
      DecodeInverts(x);
      DecodeInverts(y);
      FlattenIsInjective(Pairs(p), Pairs(q), utf8);
    }
  }
}
