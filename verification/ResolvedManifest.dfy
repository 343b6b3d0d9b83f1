/** The resolved build manifest that a build leaves behind, printed and loaded again. */
module ResolvedManifest {
  import opened ManifestLoader
  import opened ManifestPrinter
  import opened ManifestRoundTrip
  import opened Options
  import opened PathLists
  import opened Scalars
  import opened Sequences

  datatype Config = Config(
    limits: seq<(string, int)>, callbackAssetsShared: bool, coreShared: bool, soabi: bool, tests: bool)

  type Build = map<string, Value>

  const BUILD_KEYS :=
    ["implementation", "executable", "version", "major", "minor", "abi", "extension_suffix", "artifact_name"]

  function BuildValue(build: Build, key: string): Value {
    if key in build then build[key] else Text("unknown")
  }

  predicate AllScalars(entries: Entries) {
    forall i :: 0 <= i < |entries| ==> IsScalar(entries[i].1)
  }

  predicate Printable(build: Option<Build>) {
    build.Some? ==> forall key :: key in build.value ==> IsScalar(build.value[key])
  }

  function LimitEntries(limits: seq<(string, int)>): (entries: Entries)
    ensures AllScalars(entries)
  {
    seq(|limits|, i requires 0 <= i < |limits| => (limits[i].0, Number(limits[i].1)))
  }

  /** The metadata in the order in which it is printed. */
  function BuildEntries(build: Build, keys: seq<string>): (entries: Entries)
    requires Printable(Some(build))
    ensures AllScalars(entries)
  {
    seq(|keys|, i requires 0 <= i < |keys| => (keys[i], BuildValue(build, keys[i])))
  }

  function FlagText(flag: bool): string {
    if flag then "true" else "false"
  }

  // ---------- the document that is printed ----------

  function Scalar(value: Value): Item
    requires IsScalar(value)
  {
    Leaf(value, YamlScalar(value))
  }

  function Flag(flag: bool): Item {
    Leaf(Bool(flag), FlagText(flag))
  }

  function ScalarsDocument(entries: Entries): Document
    requires AllScalars(entries)
  {
    if entries == [] then Nothing
    else Keyed(entries[0].0, Scalar(entries[0].1), ScalarsDocument(entries[1..]))
  }

  function ValidationDocument(tests: bool, build: Option<Build>): Document
    requires Printable(build)
  {
    Keyed("tests", Flag(tests), ResolvedSection(build))
  }

  function ResolvedSection(build: Option<Build>): Document
    requires Printable(build)
  {
    match build
    case None => Nothing
    case Some(b) => Keyed("resolved", Section(ScalarsDocument(BuildEntries(b, BUILD_KEYS))), Nothing)
  }

  function FeaturesDocument(config: Config): Document {
    Keyed("callback_assets_shared", Flag(config.callbackAssetsShared),
          Keyed("core_shared", Flag(config.coreShared), Nothing))
  }

  function SectionsDocument(config: Config, build: Option<Build>): Document
    requires Printable(build)
  {
    Keyed("features", Section(FeaturesDocument(config)),
          Keyed("python", Section(Keyed("soabi", Flag(config.soabi), Nothing)),
                Keyed("validation", Section(ValidationDocument(config.tests, build)), Nothing)))
  }

  function ResolvedDocument(manifest: string, defaults: string, config: Config, build: Option<Build>): Document
    requires Printable(build)
  {
    Keyed("version", Scalar(Number(1)),
          Keyed("manifest", Scalar(Text(manifest)),
                Keyed("native_defaults", Scalar(Text(defaults)),
                      Keyed("limits", Section(ScalarsDocument(LimitEntries(config.limits))),
                            SectionsDocument(config, build)))))
  }

  // ---------- printing ----------

  method RenderResolvedManifest(manifest: string, defaults: string, config: Config, build: Option<Build>)
    returns (text: string)
    requires Printable(build)
    ensures text == DocumentText(ResolvedDocument(manifest, defaults, config, build))
  {
    var lines := AppendScalars(TopLines(manifest, defaults), LimitEntries(config.limits), 1);
    lines := lines + SectionLines(config);
    lines := AppendResolved(lines, build);
    LinesOfDocument(manifest, defaults, config, build, lines);
    text := Join(lines, '\n') + "\n";
  }

  method AppendResolved(before: seq<string>, build: Option<Build>) returns (lines: seq<string>)
    requires Printable(build)
    ensures lines == before + DocumentLines(ResolvedSection(build), 1)
  {
    hide LineOf, BuildEntries, ScalarsDocument;
    lines := before;
    if build.Some? {
      var entries := BuildEntries(build.value, BUILD_KEYS);
      ResolvedLines("resolved", ScalarsDocument(entries));
      lines := AppendScalars(before + [LineOf(1, "resolved", "")], entries, 2);
    }
  }

  method AppendScalars(before: seq<string>, entries: Entries, depth: nat) returns (lines: seq<string>)
    requires AllScalars(entries)
    ensures lines == before + DocumentLines(ScalarsDocument(entries), depth)
  {
    lines := before;
    for i := 0 to |entries|
      invariant before + DocumentLines(ScalarsDocument(entries), depth)
             == lines + DocumentLines(ScalarsDocument(entries[i..]), depth)
    {
      assert entries[i..][1..] == entries[i + 1..];
      lines := lines + [LineOf(depth, entries[i].0, YamlScalar(entries[i].1))];
    }
  }

  /** The lines in front of the limits. */
  function TopLines(manifest: string, defaults: string): seq<string> {
    [LineOf(0, "version", "1"), LineOf(0, "manifest", YamlScalar(Text(manifest))),
     LineOf(0, "native_defaults", YamlScalar(Text(defaults)))] + [LineOf(0, "limits", "")]
  }

  lemma LinesOfDocument(
      manifest: string, defaults: string, config: Config, build: Option<Build>, lines: seq<string>)
    requires Printable(build)
    requires lines == TopLines(manifest, defaults) + DocumentLines(ScalarsDocument(LimitEntries(config.limits)), 1)
                      + SectionLines(config) + DocumentLines(ResolvedSection(build), 1)
    ensures lines == DocumentLines(ResolvedDocument(manifest, defaults, config, build), 0)
  {
    HeadLines(manifest, defaults, config, build);
    SectionLinesOf(config, build);
    Assemble(TopLines(manifest, defaults), DocumentLines(ScalarsDocument(LimitEntries(config.limits)), 1),
             SectionLines(config), DocumentLines(ResolvedSection(build), 1));
  }

  lemma ResolvedLines(key: string, doc: Document)
    ensures DocumentLines(Keyed(key, Section(doc), Nothing), 1) == [LineOf(1, key, "")] + DocumentLines(doc, 2)
  {
    assert DocumentLines(Nothing, 1) == [];
  }

  lemma Assemble(a: seq<string>, b: seq<string>, c: seq<string>, d: seq<string>)
    ensures a + b + c + d == a + (b + (c + d))
  {
  }

  /** The lines between the limits and the build's metadata. */
  function SectionLines(config: Config): seq<string> {
    [LineOf(0, "features", ""),
     LineOf(1, "callback_assets_shared", FlagText(config.callbackAssetsShared)),
     LineOf(1, "core_shared", FlagText(config.coreShared)),
     LineOf(0, "python", ""),
     LineOf(1, "soabi", FlagText(config.soabi)),
     LineOf(0, "validation", ""),
     LineOf(1, "tests", FlagText(config.tests))]
  }

  lemma ThreeLeaves(
      k0: string, v0: Value, t0: string, k1: string, v1: Value, t1: string, k2: string, v2: Value, t2: string,
      rest: Document)
    ensures DocumentLines(Keyed(k0, Leaf(v0, t0), Keyed(k1, Leaf(v1, t1), Keyed(k2, Leaf(v2, t2), rest))), 0)
         == [LineOf(0, k0, t0), LineOf(0, k1, t1), LineOf(0, k2, t2)] + DocumentLines(rest, 0)
  {
    var second := Keyed(k2, Leaf(v2, t2), rest);
    var first := Keyed(k1, Leaf(v1, t1), second);
    assert DocumentLines(first, 0) == [LineOf(0, k1, t1)] + DocumentLines(second, 0);
  }

  lemma SectionThenRest(key: string, items: Document, rest: Document)
    ensures DocumentLines(Keyed(key, Section(items), rest), 0)
         == [LineOf(0, key, "")] + DocumentLines(items, 1) + DocumentLines(rest, 0)
  {
  }

  lemma LeafThenRest(key: string, value: Value, text: string, rest: Document)
    ensures DocumentLines(Keyed(key, Leaf(value, text), rest), 1) == [LineOf(1, key, text)] + DocumentLines(rest, 1)
  {
  }

  lemma OneIsPrinted()
    ensures YamlScalar(Number(1)) == "1"
  {
  }

  lemma HeadLines(manifest: string, defaults: string, config: Config, build: Option<Build>)
    requires Printable(build)
    ensures DocumentLines(ResolvedDocument(manifest, defaults, config, build), 0)
         == TopLines(manifest, defaults)
            + (DocumentLines(ScalarsDocument(LimitEntries(config.limits)), 1)
               + DocumentLines(SectionsDocument(config, build), 0))
  {
    var limits, sections := ScalarsDocument(LimitEntries(config.limits)), SectionsDocument(config, build);
    OneIsPrinted();
    ThreeLeaves("version", Number(1), "1", "manifest", Text(manifest), YamlScalar(Text(manifest)),
                "native_defaults", Text(defaults), YamlScalar(Text(defaults)),
                Keyed("limits", Section(limits), sections));
    SectionThenRest("limits", limits, sections);
    Regroup([LineOf(0, "version", "1"), LineOf(0, "manifest", YamlScalar(Text(manifest))),
             LineOf(0, "native_defaults", YamlScalar(Text(defaults)))],
            [LineOf(0, "limits", "")], DocumentLines(limits, 1), DocumentLines(sections, 0));
  }

  lemma Regroup(a: seq<string>, b: seq<string>, c: seq<string>, d: seq<string>)
    ensures a + (b + c + d) == a + b + (c + d)
  {
  }

  lemma {:induction false} SectionsThenRest(
      k0: string, d0: Document, k1: string, d1: Document, k2: string, d2: Document,
      a: string, b: string, c: string, d: string, rest: seq<string>)
    requires DocumentLines(d0, 1) == [a] + [b] && DocumentLines(d1, 1) == [c] && DocumentLines(d2, 1) == [d] + rest
    ensures DocumentLines(Keyed(k0, Section(d0), Keyed(k1, Section(d1), Keyed(k2, Section(d2), Nothing))), 0)
         == [LineOf(0, k0, ""), a, b, LineOf(0, k1, ""), c, LineOf(0, k2, ""), d] + rest
  {
    var last := Keyed(k2, Section(d2), Nothing);
    SectionThenRest(k2, d2, Nothing);
    SectionThenRest(k1, d1, last);
  }

  lemma SectionLinesOf(config: Config, build: Option<Build>)
    requires Printable(build)
    ensures DocumentLines(SectionsDocument(config, build), 0)
         == SectionLines(config) + DocumentLines(ResolvedSection(build), 1)
  {
    var features, validation := FeaturesDocument(config), ValidationDocument(config.tests, build);
    var soabi, rest := Keyed("soabi", Flag(config.soabi), Nothing), DocumentLines(ResolvedSection(build), 1);
    FeatureLines(config);
    LeafThenRest("soabi", Bool(config.soabi), FlagText(config.soabi), Nothing);
    LeafThenRest("tests", Bool(config.tests), FlagText(config.tests), ResolvedSection(build));
    SectionsThenRest("features", features, "python", soabi, "validation", validation,
                     LineOf(1, "callback_assets_shared", FlagText(config.callbackAssetsShared)),
                     LineOf(1, "core_shared", FlagText(config.coreShared)),
                     LineOf(1, "soabi", FlagText(config.soabi)), LineOf(1, "tests", FlagText(config.tests)), rest);
  }

  lemma FeatureLines(config: Config)
    ensures DocumentLines(FeaturesDocument(config), 1)
         == [LineOf(1, "callback_assets_shared", FlagText(config.callbackAssetsShared))]
            + [LineOf(1, "core_shared", FlagText(config.coreShared))]
  {
    var shared := Keyed("core_shared", Flag(config.coreShared), Nothing);
    LeafThenRest("core_shared", Bool(config.coreShared), FlagText(config.coreShared), Nothing);
    LeafThenRest("callback_assets_shared", Bool(config.callbackAssetsShared),
                 FlagText(config.callbackAssetsShared), shared);
  }

  // ---------- loading it again ----------

  function FeatureEntries(config: Config): Entries {
    [("callback_assets_shared", Bool(config.callbackAssetsShared)), ("core_shared", Bool(config.coreShared))]
  }

  /** The build's own metadata is printed, and so found again, under "validation". */
  function ValidationEntries(tests: bool, build: Option<Build>): Entries
    requires Printable(build)
  {
    [("tests", Bool(tests))]
    + match build case None => [] case Some(b) => [("resolved", Mapping(BuildEntries(b, BUILD_KEYS)))]
  }

  /** What was resolved. */
  function ResolvedValue(manifest: string, defaults: string, config: Config, build: Option<Build>): Value
    requires Printable(build)
  {
    Mapping([
      ("version", Number(1)),
      ("manifest", Text(manifest)),
      ("native_defaults", Text(defaults)),
      ("limits", Mapping(LimitEntries(config.limits))),
      ("features", Mapping(FeatureEntries(config))),
      ("python", Mapping([("soabi", Bool(config.soabi))])),
      ("validation", Mapping(ValidationEntries(config.tests, build)))])
  }

  predicate CleanEntries(entries: Entries) {
    forall i :: 0 <= i < |entries| && entries[i].1.Text? ==> CleanText(entries[i].1.s)
  }

  /** No text to be printed has a line boundary that quoting leaves as it is. */
  predicate CleanTexts(manifest: string, defaults: string, build: Option<Build>)
    requires Printable(build)
  {
    && CleanText(manifest) && CleanText(defaults)
    && (build.Some? ==> CleanEntries(BuildEntries(build.value, BUILD_KEYS)))
  }

  ghost predicate PlainDistinctKeys(entries: Entries) {
    && (forall i :: 0 <= i < |entries| ==> PlainKey(entries[i].0))
    && (forall i, j :: 0 <= i < j < |entries| ==> entries[i].0 != entries[j].0)
  }

  lemma {:induction false} ScalarsNames(entries: Entries, key: string)
    requires AllScalars(entries)
    ensures HasName(ScalarsDocument(entries), key) ==> exists i :: 0 <= i < |entries| && entries[i].0 == key
  {
    if entries != [] && entries[0].0 != key && HasName(ScalarsDocument(entries), key) {
      ScalarsNames(entries[1..], key);
      var i :| 0 <= i < |entries[1..]| && entries[1..][i].0 == key;
      assert entries[i + 1].0 == key;
    }
  }

  lemma {:induction false} ScalarsAreWellFormed(entries: Entries)
    requires AllScalars(entries) && PlainDistinctKeys(entries)
    ensures WellFormed(ScalarsDocument(entries))
  {
    if entries != [] {
      ScalarsAreWellFormed(entries[1..]);
      ScalarsNames(entries[1..], entries[0].0);
    }
  }

  lemma {:induction false} ScalarsMeaning(entries: Entries)
    requires AllScalars(entries)
    ensures Meaning(ScalarsDocument(entries)) == entries
    ensures Clean(ScalarsDocument(entries)) <==> CleanEntries(entries)
  {
    if entries != [] {
      ScalarsMeaning(entries[1..]);
      assert [entries[0]] + entries[1..] == entries;
      assert CleanEntries(entries) <==>
             (entries[0].1.Text? ==> CleanText(entries[0].1.s)) && CleanEntries(entries[1..]);
    }
  }

  // ---------- documents with given keys ----------

  function Chain(keys: seq<string>, items: seq<Item>): Document
    requires |keys| == |items|
  {
    if keys == [] then Nothing else Keyed(keys[0], items[0], Chain(keys[1..], items[1..]))
  }

  predicate PlainKeys(keys: seq<string>) {
    forall i :: 0 <= i < |keys| ==> PlainKey(keys[i])
  }

  lemma {:induction false} ChainNames(keys: seq<string>, items: seq<Item>, key: string)
    requires |keys| == |items|
    ensures HasName(Chain(keys, items), key) <==> key in keys
  {
    if keys != [] {
      ChainNames(keys[1..], items[1..], key);
    }
  }

  lemma {:induction false} ChainIsWellFormed(keys: seq<string>, items: seq<Item>)
    requires |keys| == |items| && NoRepeats(keys) && PlainKeys(keys)
    requires forall i :: 0 <= i < |items| ==> WellFormedItem(items[i])
    ensures WellFormed(Chain(keys, items))
  {
    if keys != [] {
      ChainIsWellFormed(keys[1..], items[1..]);
      ChainNames(keys[1..], items[1..], keys[0]);
    }
  }

  lemma {:induction false} ChainMeans(keys: seq<string>, items: seq<Item>)
    requires |keys| == |items|
    ensures |Meaning(Chain(keys, items))| == |keys|
    ensures forall i :: 0 <= i < |keys| ==> Meaning(Chain(keys, items))[i] == (keys[i], ItemMeaning(items[i]))
    ensures Clean(Chain(keys, items)) <==> forall i :: 0 <= i < |items| ==> CleanItem(items[i])
  {
    if keys != [] {
      ChainMeans(keys[1..], items[1..]);
      assert forall i :: 0 < i < |items| ==> items[i] == items[1..][i - 1];
    }
  }

  lemma ChainBehind(keys: seq<string>, items: seq<Item>, n: nat)
    requires n < |keys| == |items|
    ensures Chain(keys[n..], items[n..]) == Keyed(keys[n], items[n], Chain(keys[n + 1..], items[n + 1..]))
  {
    assert keys[n..][1..] == keys[n + 1..] && items[n..][1..] == items[n + 1..];
  }

  lemma ChainOfTwo(keys: seq<string>, items: seq<Item>)
    requires |keys| == |items| == 2
    ensures Chain(keys, items) == Keyed(keys[0], items[0], Keyed(keys[1], items[1], Nothing))
  {
    ChainBehind(keys, items, 0);
    ChainBehind(keys, items, 1);
    assert keys[0..] == keys && items[0..] == items;
  }

  lemma ChainOfSeven(keys: seq<string>, items: seq<Item>)
    requires |keys| == |items| == 7
    ensures Chain(keys, items) ==
            Keyed(keys[0], items[0], Keyed(keys[1], items[1], Keyed(keys[2], items[2], Keyed(keys[3], items[3],
            Keyed(keys[4], items[4], Keyed(keys[5], items[5], Keyed(keys[6], items[6], Nothing)))))))
  {
    for i := 0 to 7
      invariant forall n :: 0 <= n < i ==>
                              Chain(keys[n..], items[n..])
                              == Keyed(keys[n], items[n], Chain(keys[n + 1..], items[n + 1..]))
    {
      ChainBehind(keys, items, i);
    }
    assert keys[0..] == keys && items[0..] == items;
  }

  const ROOT_KEYS := ["version", "manifest", "native_defaults", "limits", "features", "python", "validation"]
  const FEATURE_KEYS := ["callback_assets_shared", "core_shared"]
  const VALIDATION_KEYS := ["tests", "resolved"]

  lemma RootKeys()
    ensures NoRepeats(ROOT_KEYS) && PlainKeys(ROOT_KEYS)
  {
  }

  lemma BuildKeysArePlain(build: Build)
    requires Printable(Some(build))
    ensures PlainDistinctKeys(BuildEntries(build, BUILD_KEYS))
  {
  }

  lemma InnerKeys()
    ensures NoRepeats(FEATURE_KEYS) && PlainKeys(FEATURE_KEYS) && PlainKey("soabi")
    ensures NoRepeats(VALIDATION_KEYS) && PlainKeys(VALIDATION_KEYS)
  {
  }

  // ---------- the round trip ----------

  lemma ValidationIsWellFormed(tests: bool, build: Option<Build>)
    requires Printable(build)
    ensures WellFormed(ValidationDocument(tests, build))
  {
    InnerKeys();
    if build.Some? {
      BuildKeysArePlain(build.value);
      var metadata := ScalarsDocument(BuildEntries(build.value, BUILD_KEYS));
      ScalarsAreWellFormed(BuildEntries(build.value, BUILD_KEYS));
      var items := [Flag(tests), Section(metadata)];
      ChainIsWellFormed(VALIDATION_KEYS, items);
      ChainOfTwo(VALIDATION_KEYS, items);
    } else {
      assert PlainKey(VALIDATION_KEYS[0]);
    }
  }

  lemma ValidationMeans(tests: bool, build: Option<Build>)
    requires Printable(build)
    ensures Meaning(ValidationDocument(tests, build)) == ValidationEntries(tests, build)
    ensures Clean(ValidationDocument(tests, build))
       <==> (build.Some? ==> CleanEntries(BuildEntries(build.value, BUILD_KEYS)))
  {
    if build.Some? {
      var entries := BuildEntries(build.value, BUILD_KEYS);
      var items := [Flag(tests), Section(ScalarsDocument(entries))];
      ScalarsMeaning(entries);
      ChainMeans(VALIDATION_KEYS, items);
      ChainOfTwo(VALIDATION_KEYS, items);
      assert CleanItem(items[0]) && (CleanItem(items[1]) <==> CleanEntries(entries));
    }
  }

  lemma FeaturesMean(config: Config)
    ensures WellFormed(FeaturesDocument(config)) && Clean(FeaturesDocument(config))
    ensures Meaning(FeaturesDocument(config)) == FeatureEntries(config)
  {
    var items := [Flag(config.callbackAssetsShared), Flag(config.coreShared)];
    InnerKeys();
    ChainOfTwo(FEATURE_KEYS, items);
    ChainIsWellFormed(FEATURE_KEYS, items);
    ChainMeans(FEATURE_KEYS, items);
  }

  function RootItems(manifest: string, defaults: string, config: Config, build: Option<Build>): seq<Item>
    requires Printable(build)
  {
    [Scalar(Number(1)), Scalar(Text(manifest)), Scalar(Text(defaults)),
     Section(ScalarsDocument(LimitEntries(config.limits))), Section(FeaturesDocument(config)),
     Section(Keyed("soabi", Flag(config.soabi), Nothing)), Section(ValidationDocument(config.tests, build))]
  }

  lemma ResolvedIsChain(manifest: string, defaults: string, config: Config, build: Option<Build>)
    requires Printable(build)
    ensures ResolvedDocument(manifest, defaults, config, build)
         == Chain(ROOT_KEYS, RootItems(manifest, defaults, config, build))
  {
    ChainOfSeven(ROOT_KEYS, RootItems(manifest, defaults, config, build));
  }

  lemma SoabiIsWellFormed(soabi: bool)
    ensures WellFormed(Keyed("soabi", Flag(soabi), Nothing)) && Clean(Keyed("soabi", Flag(soabi), Nothing))
    ensures Meaning(Keyed("soabi", Flag(soabi), Nothing)) == [("soabi", Bool(soabi))]
  {
    InnerKeys();
    assert Meaning(Nothing) == [];
  }

  lemma SevenWellFormed(keys: seq<string>, items: seq<Item>)
    requires |keys| == |items| == 7 && NoRepeats(keys) && PlainKeys(keys)
    requires WellFormedItem(items[0]) && WellFormedItem(items[1]) && WellFormedItem(items[2])
    requires WellFormedItem(items[3]) && WellFormedItem(items[4]) && WellFormedItem(items[5])
    requires WellFormedItem(items[6])
    ensures WellFormed(Chain(keys, items))
  {
    ChainIsWellFormed(keys, items);
  }

  lemma RootItemsWellFormed(manifest: string, defaults: string, config: Config, build: Option<Build>)
    requires Printable(build) && PlainDistinctKeys(LimitEntries(config.limits))
    ensures var items := RootItems(manifest, defaults, config, build);
            && WellFormedItem(items[0]) && WellFormedItem(items[1]) && WellFormedItem(items[2])
            && WellFormedItem(items[3]) && WellFormedItem(items[4]) && WellFormedItem(items[5])
            && WellFormedItem(items[6])
  {
    hide WellFormed, ScalarsDocument, FeaturesDocument, ValidationDocument;
    hide Meaning, Clean, LimitEntries, FeatureEntries;
    ScalarsAreWellFormed(LimitEntries(config.limits));
    FeaturesMean(config);
    SoabiIsWellFormed(config.soabi);
    ValidationIsWellFormed(config.tests, build);
  }

  lemma ResolvedIsWellFormed(manifest: string, defaults: string, config: Config, build: Option<Build>)
    requires Printable(build) && PlainDistinctKeys(LimitEntries(config.limits))
    ensures WellFormed(ResolvedDocument(manifest, defaults, config, build))
  {
    var items := RootItems(manifest, defaults, config, build);
    assert |items| == 7;
    hide ResolvedDocument, RootItems, WellFormed;
    RootItemsWellFormed(manifest, defaults, config, build);
    RootKeys();
    SevenWellFormed(ROOT_KEYS, items);
    ResolvedIsChain(manifest, defaults, config, build);
  }

  lemma SevenMean(
      keys: seq<string>, items: seq<Item>,
      v0: Value, v1: Value, v2: Value, v3: Value, v4: Value, v5: Value, v6: Value)
    requires |keys| == |items| == 7
    requires ItemMeaning(items[0]) == v0 && ItemMeaning(items[1]) == v1 && ItemMeaning(items[2]) == v2
    requires ItemMeaning(items[3]) == v3 && ItemMeaning(items[4]) == v4 && ItemMeaning(items[5]) == v5
    requires ItemMeaning(items[6]) == v6
    ensures Meaning(Chain(keys, items)) ==
            [(keys[0], v0), (keys[1], v1), (keys[2], v2), (keys[3], v3), (keys[4], v4), (keys[5], v5), (keys[6], v6)]
  {
    ChainMeans(keys, items);
  }

  lemma RootItemsMean(manifest: string, defaults: string, config: Config, build: Option<Build>)
    requires Printable(build)
    ensures var items := RootItems(manifest, defaults, config, build);
            && ItemMeaning(items[3]) == Mapping(LimitEntries(config.limits))
            && ItemMeaning(items[4]) == Mapping(FeatureEntries(config))
            && ItemMeaning(items[5]) == Mapping([("soabi", Bool(config.soabi))])
            && ItemMeaning(items[6]) == Mapping(ValidationEntries(config.tests, build))
  {
    ScalarsMeaning(LimitEntries(config.limits));
    FeaturesMean(config);
    SoabiIsWellFormed(config.soabi);
    ValidationMeans(config.tests, build);
  }

  lemma ResolvedMeans(manifest: string, defaults: string, config: Config, build: Option<Build>)
    requires Printable(build)
    ensures Mapping(Meaning(ResolvedDocument(manifest, defaults, config, build)))
         == ResolvedValue(manifest, defaults, config, build)
  {
    RootItemsMean(manifest, defaults, config, build);
    ResolvedIsChain(manifest, defaults, config, build);
    SevenMean(ROOT_KEYS, RootItems(manifest, defaults, config, build),
              Number(1), Text(manifest), Text(defaults), Mapping(LimitEntries(config.limits)),
              Mapping(FeatureEntries(config)), Mapping([("soabi", Bool(config.soabi))]),
              Mapping(ValidationEntries(config.tests, build)));
  }

  lemma SevenClean(keys: seq<string>, items: seq<Item>)
    requires |keys| == |items| == 7
    requires CleanItem(items[0]) && CleanItem(items[3]) && CleanItem(items[4]) && CleanItem(items[5])
    ensures Clean(Chain(keys, items)) <==> CleanItem(items[1]) && CleanItem(items[2]) && CleanItem(items[6])
  {
    ChainMeans(keys, items);
  }

  lemma ResolvedClean(manifest: string, defaults: string, config: Config, build: Option<Build>)
    requires Printable(build)
    ensures Clean(ResolvedDocument(manifest, defaults, config, build)) <==> CleanTexts(manifest, defaults, build)
  {
    ScalarsMeaning(LimitEntries(config.limits));
    FeaturesMean(config);
    SoabiIsWellFormed(config.soabi);
    ValidationMeans(config.tests, build);
    ResolvedIsChain(manifest, defaults, config, build);
    SevenClean(ROOT_KEYS, RootItems(manifest, defaults, config, build));
  }

  /**
    The resolved manifest loads as exactly what was resolved, except when a path or a
    metadata text contains a next-line, line-separator or paragraph-separator character:
    then it does not load at all.
  */
  lemma ResolvedManifestRoundTrip(manifest: string, defaults: string, config: Config, build: Option<Build>)
    requires Printable(build) && PlainDistinctKeys(LimitEntries(config.limits))
    ensures var loaded := Load(DocumentText(ResolvedDocument(manifest, defaults, config, build)));
            if CleanTexts(manifest, defaults, build) then
              loaded == Loaded(ResolvedValue(manifest, defaults, config, build))
            else loaded.Failed?
  {
    ResolvedIsWellFormed(manifest, defaults, config, build);
    ResolvedMeans(manifest, defaults, config, build);
    ResolvedClean(manifest, defaults, config, build);
    DocumentRoundTrip(ResolvedDocument(manifest, defaults, config, build));
  }

  // ---------- the same, name by name ----------

  /** The value printed for a name of the build's metadata. */
  predicate Holds(entry: (string, Value), build: Build, name: string) {
    entry == (name, if name in build then build[name] else Text("unknown"))
  }

  /** The metadata, in the order of the printed lines. */
  predicate HoldsMetadata(entries: Entries, build: Build) {
    && |entries| == 8
    && Holds(entries[0], build, "implementation") && Holds(entries[1], build, "executable")
    && Holds(entries[2], build, "version") && Holds(entries[3], build, "major") && Holds(entries[4], build, "minor")
    && Holds(entries[5], build, "abi") && Holds(entries[6], build, "extension_suffix")
    && Holds(entries[7], build, "artifact_name")
  }

  /** Every limit with its own value, in the order of the configuration. */
  predicate HoldsLimits(entries: Entries, limits: seq<(string, int)>) {
    && |entries| == |limits|
    && forall i :: 0 <= i < |limits| ==> entries[i].0 == limits[i].0 && entries[i].1 == Number(limits[i].1)
  }

  /** A loaded document that says what the configuration says. */
  predicate SaysConfiguration(
    value: Value, manifest: string, defaults: string, config: Config, build: Option<Build>)
  {
    && value.Mapping? && |value.entries| == 7
    && value.entries[0] == ("version", Number(1))
    && value.entries[1] == ("manifest", Text(manifest))
    && value.entries[2] == ("native_defaults", Text(defaults))
    && value.entries[3].0 == "limits" && value.entries[3].1.Mapping?
    && HoldsLimits(value.entries[3].1.entries, config.limits)
    && value.entries[4] == ("features", Mapping(
         [("callback_assets_shared", Bool(config.callbackAssetsShared)), ("core_shared", Bool(config.coreShared))]))
    && value.entries[5] == ("python", Mapping([("soabi", Bool(config.soabi))]))
    && value.entries[6].0 == "validation" && value.entries[6].1.Mapping?
    && var validation := value.entries[6].1.entries;
       && |validation| == (if build.Some? then 2 else 1)
       && validation[0] == ("tests", Bool(config.tests))
       && (build.Some? ==>
             && validation[1].0 == "resolved" && validation[1].1.Mapping?
             && HoldsMetadata(validation[1].1.entries, build.value))
  }

  predicate CleanMetadata(build: Build, name: string) {
    name in build && build[name].Text? ==> CleanText(build[name].s)
  }

  /** No text to be printed has a line boundary that quoting leaves as it is. */
  predicate NoBoundaries(manifest: string, defaults: string, build: Option<Build>) {
    && CleanText(manifest) && CleanText(defaults)
    && (build.Some? ==>
          && CleanMetadata(build.value, "implementation") && CleanMetadata(build.value, "executable")
          && CleanMetadata(build.value, "version") && CleanMetadata(build.value, "major")
          && CleanMetadata(build.value, "minor") && CleanMetadata(build.value, "abi")
          && CleanMetadata(build.value, "extension_suffix") && CleanMetadata(build.value, "artifact_name"))
  }

  lemma MetadataByName(build: Build)
    requires Printable(Some(build))
    ensures HoldsMetadata(BuildEntries(build, BUILD_KEYS), build)
  {
  }

  lemma UnknownIsClean()
    ensures CleanText("unknown")
  {
  }

  lemma CleanByName(manifest: string, defaults: string, build: Option<Build>)
    requires Printable(build)
    ensures CleanTexts(manifest, defaults, build) <==> NoBoundaries(manifest, defaults, build)
  {
    if build.Some? {
      UnknownIsClean();
      MetadataByName(build.value);
      var entries := BuildEntries(build.value, BUILD_KEYS);
      hide CleanText;
      assert CleanEntries(entries) <==>
             forall i :: 0 <= i < 8 && entries[i].1.Text? ==> CleanText(entries[i].1.s);
    }
  }

  lemma ValueByName(manifest: string, defaults: string, config: Config, build: Option<Build>)
    requires Printable(build)
    ensures SaysConfiguration(ResolvedValue(manifest, defaults, config, build), manifest, defaults, config, build)
  {
    if build.Some? {
      MetadataByName(build.value);
    }
    hide BuildEntries, HoldsMetadata;
  }

  /**
    What is loaded from the printed manifest says what the configuration says, name by
    name: every limit with its own value, every flag, every path and every piece of the
    build's metadata, with "unknown" for what the build does not know.
  */
  lemma ManifestSaysConfiguration(manifest: string, defaults: string, config: Config, build: Option<Build>)
    requires Printable(build)
    requires forall i :: 0 <= i < |config.limits| ==> PlainKey(config.limits[i].0)
    requires forall i, j :: 0 <= i < j < |config.limits| ==> config.limits[i].0 != config.limits[j].0
    ensures var loaded := Load(DocumentText(ResolvedDocument(manifest, defaults, config, build)));
            if NoBoundaries(manifest, defaults, build) then
              loaded.Loaded? && SaysConfiguration(loaded.root, manifest, defaults, config, build)
            else loaded.Failed?
  {
    hide SaysConfiguration, ResolvedValue, ResolvedDocument, CleanTexts, NoBoundaries, DocumentText, Load, PlainKey;
    assert PlainDistinctKeys(LimitEntries(config.limits));
    ResolvedManifestRoundTrip(manifest, defaults, config, build);
    ValueByName(manifest, defaults, config, build);
    CleanByName(manifest, defaults, build);
  }
}
