/**
  How the launcher puts an asset's environment together: templates in the values, and
  path lists merged in front of or behind what is already there.
*/
module EnvMerge {
  import opened Options
  import opened PathLists

  // ---------- looking into strings ----------

  /** The first place of the pattern. */
  function Find(s: string, pattern: string): (r: Option<nat>)
    ensures r.Some? ==> r.value + |pattern| <= |s| && s[r.value..r.value + |pattern|] == pattern
  {
    if pattern <= s then Some(0)
    else if s == "" then None
    else
      match Find(s[1..], pattern)
      case None => None
      case Some(i) =>
        assert s[1..][i..i + |pattern|] == s[i + 1..i + 1 + |pattern|];
        Some(i + 1)
  }

  /** The first place of the pattern, not before `from`. */
  function FindFrom(s: string, pattern: string, from: nat): Option<nat>
    requires from <= |s|
  {
    match Find(s[from..], pattern)
    case None => None
    case Some(i) => Some(from + i)
  }

  /** Every occurrence of the pattern replaced, from the left. */
  function Replace(s: string, pattern: string, insert: string): string
    requires pattern != ""
  {
    match Find(s, pattern)
    case None => s
    case Some(i) => s[..i] + insert + Replace(s[i + |pattern|..], pattern, insert)
  }

  // ---------- templates ----------

  type Env = map<string, string>

  const ASSET := "${asset}"
  const TIMESTAMP := "${timestamp}"
  const ENV := "${ENV:"

  /** Where and for whom an environment is merged. */
  datatype Context = Context(libraryKey: string, separator: char, asset: Option<string>, timestamp: string)

  function Get(env: Env, key: string): string {
    if key in env then env[key] else ""
  }

  /** A reference to a variable: where it starts, where its closing brace is, and what it names. */
  datatype Reference = Reference(start: nat, end: nat, key: string)

  function NextReference(s: string): (r: Option<Reference>)
    ensures r.Some? ==> r.value.start < r.value.end < |s|
  {
    match Find(s, ENV)
    case None => None
    case Some(start) => ReferenceAt(s, start)
  }

  /** The reference that opens here, up to the first closing brace. */
  function ReferenceAt(s: string, start: nat): (r: Option<Reference>)
    requires start + 6 <= |s| && s[start..start + 6] == ENV
    ensures r.Some? ==> start == r.value.start < r.value.end < |s|
  {
    match Find(s[start..], "}")
    case None => None
    case Some(length) =>
      ClosesLater(s[start..], length);
      Some(Reference(start, start + length, s[start + 6..start + length]))
  }

  lemma ClosesLater(s: string, end: nat)
    requires ENV <= s && end < |s| && s[end..end + 1] == "}"
    ensures end >= 6
  {
    assert s[end] == s[end..end + 1][0];
    assert forall k {:trigger ENV[k]} :: 0 <= k < 6 ==> s[k] == ENV[k];
  }

  /**
    The text with its references to variables replaced, in one pass: what comes in for
    one reference is not looked at again.
  */
  function ExpandEnv(s: string, env: Env): string {
    match NextReference(s)
    case None => s
    case Some(r) => s[..r.start] + Get(env, r.key) + ExpandEnv(s[r.end + 1..], env)
  }

  /** The text with asset and time stamp filled in. */
  function Addressed(s: string, ctx: Context): string {
    var s' := if ctx.asset.Some? then Replace(s, ASSET, ctx.asset.value) else s;
    Replace(s', TIMESTAMP, ctx.timestamp)
  }

  function Expanded(s: string, ctx: Context, env: Env): string {
    ExpandEnv(Addressed(s, ctx), env)
  }

  method Expand(s: string, ctx: Context, env: Env) returns (out: string)
    ensures out == Expanded(s, ctx, env)
  {
    out := s;
    if ctx.asset.Some? {
      out := Replace(out, ASSET, ctx.asset.value);
    }
    out := Replace(out, TIMESTAMP, ctx.timestamp);
    out := ExpandReferences(out, env);
  }

  /** The scan with one index over a string that changes under it. */
  method ExpandReferences(text: string, env: Env) returns (out: string)
    ensures out == ExpandEnv(text, env)
  {
    hide Find, NextReference, ExpandEnv;
    out := text;
    var idx := 0;
    ghost var tail := ExpandEnv(out, env);
    while true
      invariant 0 <= idx <= |out|
      invariant tail == ExpandEnv(out[idx..], env) && ExpandEnv(text, env) == out[..idx] + tail
      decreases |out| - idx
    {
      ReferenceBehind(out, idx);
      assert out == out[..idx] + out[idx..];
      var start := FindFrom(out, ENV, idx);
      if start.None? {
        ExpandNothing(out[idx..], env);
        break;
      }
      var end := FindFrom(out, "}", start.value);
      if end.None? {
        ExpandNothing(out[idx..], env);
        break;
      }
      var value := Get(env, out[start.value + 6..end.value]);
      ExpandNext(out, idx, start.value, end.value, env);
      tail := ExpandEnv(out[end.value + 1..], env);
      Splice(out, idx, start.value, end.value, value, tail);
      out := out[..start.value] + value + out[end.value + 1..];
      idx := start.value + |value|;
    }
  }

  /** Looking from an index on finds the next reference of what is left from there. */
  lemma ReferenceBehind(out: string, idx: nat)
    requires idx <= |out|
    ensures match FindFrom(out, ENV, idx)
            case None => NextReference(out[idx..]) == None
            case Some(start) =>
              && start <= |out|
              && match FindFrom(out, "}", start)
                 case None => NextReference(out[idx..]) == None
                 case Some(end) =>
                   && idx <= start && start + 6 <= end < |out|
                   && NextReference(out[idx..]) == Some(Reference(start - idx, end - idx, out[start + 6..end]))
  {
    var rest := out[idx..];
    var start := Find(rest, ENV);
    if start.Some? {
      assert rest[start.value..] == out[idx + start.value..];
      var length := Find(rest[start.value..], "}");
      if length.Some? {
        ClosesLater(rest[start.value..], length.value);
        var lo, hi := start.value + 6, start.value + length.value;
        assert rest[lo..hi] == out[idx + lo..idx + hi];
      }
    }
  }

  lemma ExpandNothing(s: string, env: Env)
    requires NextReference(s) == None
    ensures ExpandEnv(s, env) == s
  {
  }

  lemma ExpandNext(out: string, idx: nat, start: nat, end: nat, env: Env)
    requires idx <= start && start + 6 <= end < |out|
    requires NextReference(out[idx..]) == Some(Reference(start - idx, end - idx, out[start + 6..end]))
    ensures ExpandEnv(out[idx..], env)
         == out[idx..][..start - idx] + Get(env, out[start + 6..end]) + ExpandEnv(out[end + 1..], env)
  {
    hide NextReference;
    assert out[idx..][end - idx + 1..] == out[end + 1..];
  }

  lemma Splice(out: string, idx: nat, start: nat, end: nat, value: string, tail: string)
    requires idx <= start < end < |out|
    ensures var out', idx' := out[..start] + value + out[end + 1..], start + |value|;
            && out'[idx'..] == out[end + 1..] == out[idx..][end - idx + 1..]
            && out[..idx] + (out[idx..][..start - idx] + value + tail) == out'[..idx'] + tail
  {
    var out', idx' := out[..start] + value + out[end + 1..], start + |value|;
    assert out'[..idx'] == out[..start] + value;
    assert out[..start] == out[..idx] + out[idx..][..start - idx];
  }

  // ---------- operations ----------

  /** The operations on an environment, each list in the order of the launch file. */
  datatype EnvOps = EnvOps(
    unset: seq<string>, sets: seq<(string, string)>,
    prepend: seq<(string, seq<string>)>, append: seq<(string, seq<string>)>)

  /** The merged environment, or the error that ends the launch. */
  datatype Outcome = Merged(env: Env) | TypeError

  function RealKey(key: string, ctx: Context): string {
    if key == "lib_path" then ctx.libraryKey else key
  }

  function KeySet(keys: seq<string>): set<string> {
    set k | k in keys
  }

  function Without(env: Env, keys: seq<string>): Env {
    env - KeySet(keys)
  }

  function WithSets(env: Env, sets: seq<(string, string)>, ctx: Context): Env
    decreases |sets|
  {
    if sets == [] then env
    else WithSets(env[sets[0].0 := Expanded(sets[0].1, ctx, env)], sets[1..], ctx)
  }

  function ExpandedList(values: seq<string>, ctx: Context, env: Env): seq<string> {
    if values == [] then [] else [Expanded(values[0], ctx, env)] + ExpandedList(values[1..], ctx, env)
  }

  function WithPrepends(env: Env, prepend: seq<(string, seq<string>)>, ctx: Context): Env
    decreases |prepend|
  {
    if prepend == [] then env
    else
      var key, values := RealKey(prepend[0].0, ctx), ExpandedList(prepend[0].1, ctx, env);
      WithPrepends(env[key := InFront(values, Get(env, key), ctx.separator)], prepend[1..], ctx)
  }

  function Prepared(env: Env, ops: EnvOps, ctx: Context): Env {
    WithSets(Without(env, ops.unset), ops.sets, ctx)
  }

  /** Appending hands the joining function a parameter it does not have. */
  function Applied(env: Env, ops: Option<EnvOps>, ctx: Context): Outcome {
    match ops
    case None => Merged(env)
    case Some(o) =>
      if o.append == [] then Merged(WithPrepends(Prepared(env, o, ctx), o.prepend, ctx)) else TypeError
  }

  function MergedEnv(base: Env, defaults: Option<EnvOps>, asset: Option<EnvOps>, ctx: Context): Outcome {
    match Applied(base, defaults, ctx)
    case TypeError => TypeError
    case Merged(env) => Applied(env, asset, ctx)
  }

  method ExpandList(values: seq<string>, ctx: Context, env: Env) returns (out: seq<string>)
    ensures out == ExpandedList(values, ctx, env)
  {
    hide Expanded;
    out := [];
    for i := 0 to |values|
      invariant ExpandedList(values, ctx, env) == out + ExpandedList(values[i..], ctx, env)
    {
      assert values[i..][1..] == values[i + 1..];
      var value := Expand(values[i], ctx, env);
      out := out + [value];
    }
  }

  method ApplyOps(base: Env, ops: Option<EnvOps>, ctx: Context) returns (outcome: Outcome)
    ensures outcome == Applied(base, ops, ctx)
  {
    if ops.None? {
      return Merged(base);
    }
    var o, result := ops.value, base;
    for i := 0 to |o.unset|
      invariant result == Without(base, o.unset[..i])
    {
      assert KeySet(o.unset[..i + 1]) == KeySet(o.unset[..i]) + {o.unset[i]};
      result := result - {o.unset[i]};
    }
    assert o.unset[..|o.unset|] == o.unset;
    for i := 0 to |o.sets|
      invariant WithSets(result, o.sets[i..], ctx) == Prepared(base, o, ctx)
    {
      assert o.sets[i..][1..] == o.sets[i + 1..];
      var value := Expand(o.sets[i].1, ctx, result);
      result := result[o.sets[i].0 := value];
    }
    assert result == Prepared(base, o, ctx);
    for i := 0 to |o.prepend|
      invariant WithPrepends(result, o.prepend[i..], ctx) == WithPrepends(Prepared(base, o, ctx), o.prepend, ctx)
    {
      assert o.prepend[i..][1..] == o.prepend[i + 1..];
      var key := RealKey(o.prepend[i].0, ctx);
      var values := ExpandList(o.prepend[i].1, ctx, result);
      var cur := Get(result, key);
      var list := JoinPathlike(values + (if cur == "" then [] else [cur]), "", ctx.separator);
      result := result[key := list];
    }
    outcome := if o.append == [] then Merged(result) else TypeError;
  }

  method MergeEnv(base: Env, defaults: Option<EnvOps>, asset: Option<EnvOps>, ctx: Context) returns (outcome: Outcome)
    ensures outcome == MergedEnv(base, defaults, asset, ctx)
  {
    outcome := ApplyOps(base, defaults, ctx);
    if outcome.Merged? {
      outcome := ApplyOps(outcome.env, asset, ctx);
    }
  }

  // ---------- defaults that reach an asset twice ----------

  predicate Appends(ops: Option<EnvOps>) {
    ops.Some? && ops.value.append != []
  }

  /** An environment cannot be merged as soon as anything is to be appended. */
  lemma AppendingIsAnError(base: Env, defaults: Option<EnvOps>, asset: Option<EnvOps>, ctx: Context)
    ensures MergedEnv(base, defaults, asset, ctx).TypeError? <==> Appends(defaults) || Appends(asset)
  {
  }

  // ---------- what a value refers to ----------

  /** The variables a text refers to. */
  function References(s: string): set<string> {
    match NextReference(s)
    case None => {}
    case Some(r) => {r.key} + References(s[r.end + 1..])
  }

  predicate Same(a: Env, b: Env, key: string) {
    (key in a <==> key in b) && (key in a && key in b ==> a[key] == b[key])
  }

  /** The environments differ in these variables at most. */
  ghost predicate SameOutside(a: Env, b: Env, changed: set<string>) {
    forall key {:trigger Same(a, b, key)} :: key !in changed ==> Same(a, b, key)
  }

  /** An expansion depends on nothing but the variables the text refers to. */
  lemma {:induction false} ExpandEnvAgrees(s: string, a: Env, b: Env, changed: set<string>)
    requires References(s) !! changed && SameOutside(a, b, changed)
    ensures ExpandEnv(s, a) == ExpandEnv(s, b)
  {
    hide NextReference;
    var next := NextReference(s);
    if next.Some? {
      assert Same(a, b, next.value.key);
      ExpandEnvAgrees(s[next.value.end + 1..], a, b, changed);
    }
  }

  predicate RefersOutside(v: string, ctx: Context, changed: set<string>) {
    References(Addressed(v, ctx)) !! changed
  }

  predicate AllReferOutside(values: seq<string>, ctx: Context, changed: set<string>) {
    forall i :: 0 <= i < |values| ==> RefersOutside(values[i], ctx, changed)
  }

  lemma {:induction false} ExpandedListAgrees(values: seq<string>, ctx: Context, a: Env, b: Env, changed: set<string>)
    requires AllReferOutside(values, ctx, changed) && SameOutside(a, b, changed)
    ensures ExpandedList(values, ctx, a) == ExpandedList(values, ctx, b)
  {
    if values != [] {
      ExpandEnvAgrees(Addressed(values[0], ctx), a, b, changed);
      ExpandedListAgrees(values[1..], ctx, a, b, changed);
    }
  }

  predicate IsSet(key: string, sets: seq<(string, string)>) {
    exists i :: 0 <= i < |sets| && sets[i].0 == key
  }

  function RealKeys(prepend: seq<(string, seq<string>)>, ctx: Context): set<string> {
    set i | 0 <= i < |prepend| :: RealKey(prepend[i].0, ctx)
  }

  /** The variables the operations unset, set or put something in front of. */
  function Changed(ops: EnvOps, ctx: Context): set<string> {
    KeySet(ops.unset) + (set i | 0 <= i < |ops.sets| :: ops.sets[i].0) + RealKeys(ops.prepend, ctx)
  }

  predicate SetsOutside(sets: seq<(string, string)>, ctx: Context, changed: set<string>) {
    forall i :: 0 <= i < |sets| ==> sets[i].0 in changed && RefersOutside(sets[i].1, ctx, changed)
  }

  predicate PrependsOutside(prepend: seq<(string, seq<string>)>, ctx: Context, changed: set<string>) {
    forall i :: 0 <= i < |prepend| ==>
                  RealKey(prepend[i].0, ctx) in changed && AllReferOutside(prepend[i].1, ctx, changed)
  }

  /** No value refers to a variable that the operations change. */
  predicate Steady(ops: EnvOps, ctx: Context) {
    SetsOutside(ops.sets, ctx, Changed(ops, ctx)) && PrependsOutside(ops.prepend, ctx, Changed(ops, ctx))
  }

  // ---------- one variable after one round ----------

  /** What is set does not depend on the variables that change; what is not set is kept. */
  lemma {:induction false} SetsAt(
    a: Env, b: Env, sets: seq<(string, string)>, ctx: Context, changed: set<string>, key: string)
    requires SetsOutside(sets, ctx, changed) && SameOutside(a, b, changed)
    requires Same(a, b, key) || IsSet(key, sets)
    ensures Same(WithSets(a, sets, ctx), WithSets(b, sets, ctx), key)
    ensures !IsSet(key, sets) ==> Same(WithSets(a, sets, ctx), a, key)
    decreases |sets|
  {
    if sets != [] {
      ExpandEnvAgrees(Addressed(sets[0].1, ctx), a, b, changed);
      var value := Expanded(sets[0].1, ctx, a);
      var a', b' := a[sets[0].0 := value], b[sets[0].0 := value];
      forall k | k !in changed ensures Same(a', b', k) {
        assert Same(a, b, k);
      }
      IsSetNext(key, sets);
      SetsAt(a', b', sets[1..], ctx, changed, key);
    }
  }

  lemma IsSetNext(key: string, sets: seq<(string, string)>)
    requires sets != []
    ensures IsSet(key, sets) <==> sets[0].0 == key || IsSet(key, sets[1..])
  {
    if i: int :| 0 <= i < |sets| && sets[i].0 == key && i > 0 {
      assert sets[1..][i - 1].0 == key;
    }
    if i :| 0 <= i < |sets[1..]| && sets[1..][i].0 == key {
      assert sets[i + 1].0 == key;
    }
  }

  /** What the entries put in front of one variable, first entry first. */
  function Layers(prepend: seq<(string, seq<string>)>, key: string, ctx: Context, env: Env): seq<seq<string>> {
    if prepend == [] then []
    else if RealKey(prepend[0].0, ctx) == key then
      [ExpandedList(prepend[0].1, ctx, env)] + Layers(prepend[1..], key, ctx, env)
    else Layers(prepend[1..], key, ctx, env)
  }

  lemma {:induction false} PrependsAt(
    env: Env, base: Env, prepend: seq<(string, seq<string>)>, ctx: Context, changed: set<string>, key: string)
    requires PrependsOutside(prepend, ctx, changed) && SameOutside(env, base, changed)
    ensures var layers, after := Layers(prepend, key, ctx, base), WithPrepends(env, prepend, ctx);
            && Get(after, key) == InFrontAll(layers, Get(env, key), ctx.separator)
            && (key in after <==> key in env || layers != [])
    decreases |prepend|
  {
    if prepend != [] {
      var here, values := RealKey(prepend[0].0, ctx), ExpandedList(prepend[0].1, ctx, base);
      ExpandedListAgrees(prepend[0].1, ctx, env, base, changed);
      var env' := env[here := InFront(values, Get(env, here), ctx.separator)];
      forall k | k !in changed ensures Same(env', base, k) {
        assert Same(env, base, k);
      }
      PrependsAt(env', base, prepend[1..], ctx, changed, key);
    }
  }

  /** Unset or set first, so that nothing from the first round is left in the variable. */
  predicate StartsOver(ops: EnvOps, key: string) {
    key in ops.unset || IsSet(key, ops.sets)
  }

  function Once(base: Env, ops: EnvOps, ctx: Context): Env {
    WithPrepends(Prepared(base, ops, ctx), ops.prepend, ctx)
  }

  lemma PreparedAt(a: Env, b: Env, ops: EnvOps, ctx: Context, key: string)
    requires Steady(ops, ctx) && SameOutside(a, b, Changed(ops, ctx))
    ensures StartsOver(ops, key) ==> Same(Prepared(a, ops, ctx), Prepared(b, ops, ctx), key)
    ensures !StartsOver(ops, key) ==> Same(Prepared(a, ops, ctx), a, key)
  {
    var a', b' := Without(a, ops.unset), Without(b, ops.unset);
    forall k | k !in Changed(ops, ctx) ensures Same(a', b', k) {
      assert Same(a, b, k);
    }
    if StartsOver(ops, key) {
      SetsAt(a', b', ops.sets, ctx, Changed(ops, ctx), key);
    } else {
      SameToItself(a', Changed(ops, ctx));
      SetsAt(a', a', ops.sets, ctx, Changed(ops, ctx), key);
    }
  }

  lemma SameToItself(a: Env, changed: set<string>)
    ensures SameOutside(a, a, changed)
  {
  }

  /** A round leaves every other variable alone. */
  lemma PreparedOutside(base: Env, ops: EnvOps, ctx: Context)
    requires Steady(ops, ctx)
    ensures SameOutside(Prepared(base, ops, ctx), base, Changed(ops, ctx))
  {
    SameToItself(base, Changed(ops, ctx));
    forall key | key !in Changed(ops, ctx) ensures Same(Prepared(base, ops, ctx), base, key) {
      PreparedAt(base, base, ops, ctx, key);
    }
  }

  lemma {:induction false} NoLayers(prepend: seq<(string, seq<string>)>, key: string, ctx: Context, env: Env)
    requires forall i :: 0 <= i < |prepend| ==> RealKey(prepend[i].0, ctx) != key
    ensures Layers(prepend, key, ctx, env) == []
  {
    if prepend != [] {
      NoLayers(prepend[1..], key, ctx, env);
    }
  }

  lemma OnceOutside(base: Env, ops: EnvOps, ctx: Context)
    requires Steady(ops, ctx)
    ensures SameOutside(Once(base, ops, ctx), base, Changed(ops, ctx))
  {
    PreparedOutside(base, ops, ctx);
    forall key | key !in Changed(ops, ctx) ensures Same(Once(base, ops, ctx), base, key) {
      forall i | 0 <= i < |ops.prepend| ensures RealKey(ops.prepend[i].0, ctx) != key {
        assert RealKey(ops.prepend[i].0, ctx) in RealKeys(ops.prepend, ctx);
      }
      NoLayers(ops.prepend, key, ctx, base);
      PrependsAt(Prepared(base, ops, ctx), base, ops.prepend, ctx, Changed(ops, ctx), key);
      assert Same(Prepared(base, ops, ctx), base, key);
    }
  }

  // ---------- two rounds ----------

  /** A second round finds the list as it would leave it. */
  predicate Settled(base: Env, ops: EnvOps, ctx: Context, key: string) {
    var values := FirstOf(Concat(Layers(ops.prepend, key, ctx, base)), {});
    StartsOver(ops, key) || values == [] || (|values| == 1 && Get(base, key) in ["", values[0]])
  }

  /** What a second round does to one variable. */
  lemma TwiceAt(base: Env, ops: EnvOps, ctx: Context, key: string)
    requires Steady(ops, ctx)
    ensures var once, twice := Once(base, ops, ctx), Once(Once(base, ops, ctx), ops, ctx);
            var layers := Layers(ops.prepend, key, ctx, base);
            && (key in once <==> key in twice)
            && (StartsOver(ops, key) ==> Get(twice, key) == Get(once, key))
            && (!StartsOver(ops, key) ==>
                  && Get(once, key) == InFrontAll(layers, Get(base, key), ctx.separator)
                  && Get(twice, key) == InFrontAll(layers, Get(once, key), ctx.separator))
  {
    var once, changed := Once(base, ops, ctx), Changed(ops, ctx);
    OnceOutside(base, ops, ctx);
    forall k | k !in changed ensures Same(base, once, k) && Same(Prepared(once, ops, ctx), base, k) {
      PreparedOutside(once, ops, ctx);
      assert Same(once, base, k) && Same(Prepared(once, ops, ctx), once, k);
    }
    PreparedOutside(base, ops, ctx);
    PreparedAt(base, once, ops, ctx, key);
    PreparedAt(once, base, ops, ctx, key);
    PrependsAt(Prepared(base, ops, ctx), base, ops.prepend, ctx, changed, key);
    PrependsAt(Prepared(once, ops, ctx), base, ops.prepend, ctx, changed, key);
  }

  /**
    Defaults reach an asset without operations of its own twice, as defaults and as the
    asset's. That comes to the same as once exactly when every list that gets something
    in front starts over, gets nothing, or is nothing but the one entry it gets. Values
    may be templates, and several entries may stand for the same variable.
  */
  lemma DefaultsTwiceIff(base: Env, ops: EnvOps, ctx: Context)
    requires Steady(ops, ctx)
    ensures MergedEnv(base, Some(ops), Some(ops), ctx) == MergedEnv(base, None, Some(ops), ctx)
       <==> ops.append != [] || forall key :: Settled(base, ops, ctx, key)
  {
    var once, twice := Once(base, ops, ctx), Once(Once(base, ops, ctx), ops, ctx);
    forall key ensures Settled(base, ops, ctx, key) <==> Same(twice, once, key) {
      TwiceAt(base, ops, ctx, key);
      InFrontAllTwiceIff(Layers(ops.prepend, key, ctx, base), Get(base, key), ctx.separator);
    }
    if forall key :: Same(twice, once, key) {
      SameEverywhere(twice, once);
    }
  }

  /** The text refers to this variable, once, and to no other. */
  predicate RefersOnlyTo(s: string, key: string) {
    var next := NextReference(s);
    next.Some? && next.value.key == key && NextReference(s[next.value.end + 1..]) == None
  }

  /**
    What the theorem above leaves out does not survive a second round: a variable set to
    a text that refers to the variable itself grows with every round, unless the text is
    nothing but the reference.
  */
  lemma SelfReferenceTwiceIff(base: Env, key: string, value: string, ctx: Context)
    requires RefersOnlyTo(Addressed(value, ctx), key)
    ensures var ops, s := EnvOps([], [(key, value)], [], []), Addressed(value, ctx);
            var next := NextReference(s).value;
            MergedEnv(base, Some(ops), Some(ops), ctx) == MergedEnv(base, None, Some(ops), ctx)
            <==> next.start == 0 && next.end + 1 == |s|
  {
    var next := NextReference(Addressed(value, ctx)).value;
    hide Addressed, RefersOnlyTo, NextReference, MergedEnv;
    var once := base[key := Expanded(value, ctx, base)];
    SetTwice(base, key, value, ctx);
    OneReferenceExpands(Addressed(value, ctx), key, base);
    OneReferenceExpands(Addressed(value, ctx), key, once);
    var again := once[key := Expanded(value, ctx, once)];
    assert again == once <==> again[key] == once[key];
    assert |again[key]| == |Get(once, key)| + |Addressed(value, ctx)| - (next.end + 1 - next.start);
  }

  lemma SetTwice(base: Env, key: string, value: string, ctx: Context)
    ensures var ops := EnvOps([], [(key, value)], [], []);
            var once := base[key := Expanded(value, ctx, base)];
            && MergedEnv(base, None, Some(ops), ctx) == Merged(once)
            && MergedEnv(base, Some(ops), Some(ops), ctx) == Merged(once[key := Expanded(value, ctx, once)])
  {
    hide Expanded;
    SetOnce(base, key, value, ctx);
    SetOnce(base[key := Expanded(value, ctx, base)], key, value, ctx);
  }

  lemma SetOnce(base: Env, key: string, value: string, ctx: Context)
    ensures Once(base, EnvOps([], [(key, value)], [], []), ctx) == base[key := Expanded(value, ctx, base)]
  {
    hide Expanded;
    var sets := [(key, value)];
    assert base - KeySet([]) == base && sets[1..] == [];
    assert WithSets(base, sets, ctx) == WithSets(base[key := Expanded(value, ctx, base)], sets[1..], ctx);
  }

  lemma OneReferenceExpands(s: string, key: string, env: Env)
    requires RefersOnlyTo(s, key)
    ensures var next, out := NextReference(s).value, ExpandEnv(s, env);
            && next.end < |s|
            && |out| == next.start + |Get(env, key)| + (|s| - next.end - 1)
            && (next.start == 0 && next.end + 1 == |s| ==> out == Get(env, key))
  {
    hide NextReference;
  }

  lemma SameEverywhere(a: Env, b: Env)
    requires forall key :: Same(a, b, key)
    ensures a == b
  {
    forall key ensures key in a <==> key in b {
      assert Same(a, b, key);
    }
    forall key | key in a ensures a[key] == b[key] {
      assert Same(a, b, key);
    }
  }

  /** Even where it does not, every list is searched in the same order. */
  lemma {:induction false} DefaultsTwiceSearchTheSame(base: Env, ops: EnvOps, ctx: Context, key: string)
    requires Steady(ops, ctx)
    requires forall i :: 0 <= i < |ops.prepend| ==> Free(ExpandedList(ops.prepend[i].1, ctx, base), ctx.separator)
    ensures var once, twice := Once(base, ops, ctx), Once(Once(base, ops, ctx), ops, ctx);
            && (key in twice <==> key in once)
            && Searched(Get(twice, key), ctx.separator) == Searched(Get(once, key), ctx.separator)
  {
    var layers := Layers(ops.prepend, key, ctx, base);
    TwiceAt(base, ops, ctx, key);
    if !StartsOver(ops, key) {
      LayersAreFree(ops.prepend, key, ctx, base);
      InFrontAllTwiceSearchesTheSame(layers, Get(base, key), ctx.separator);
    }
  }

  lemma {:induction false} LayersAreFree(prepend: seq<(string, seq<string>)>, key: string, ctx: Context, env: Env)
    requires forall i :: 0 <= i < |prepend| ==> Free(ExpandedList(prepend[i].1, ctx, env), ctx.separator)
    ensures AllFree(Layers(prepend, key, ctx, env), ctx.separator)
  {
    if prepend != [] {
      var first, rest := ExpandedList(prepend[0].1, ctx, env), Layers(prepend[1..], key, ctx, env);
      assert Free(first, ctx.separator);
      LayersAreFree(prepend[1..], key, ctx, env);
      assert AllFree([first] + rest, ctx.separator);
    }
  }
}
