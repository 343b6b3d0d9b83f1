/**
  What a merged environment holds, variable by variable, and which level of operations
  wins; and what the templates in the values stand for, text by text.
*/
module EnvMergeTheorems {
  import opened Options
  import opened PathLists
  import opened EnvMerge

  function ValueOf(env: Env, key: string): Option<string> {
    if key in env then Some(env[key]) else None
  }

  // ---------- one operation after the other, whatever the values refer to ----------

  /** What the launcher's environment becomes through one level of operations; none of them appends. */
  function Level(base: Env, unset: seq<string>, sets: seq<(string, string)>,
                 prepend: seq<(string, seq<string>)>, ctx: Context): Env
  {
    var merged := MergedEnv(base, None, Some(EnvOps(unset, sets, prepend, [])), ctx);
    merged.env
  }

  lemma {:induction false} LastSetActs(env: Env, sets: seq<(string, string)>, ctx: Context)
    requires sets != []
    ensures var before, last := WithSets(env, sets[..|sets| - 1], ctx), sets[|sets| - 1];
            WithSets(env, sets, ctx) == before[last.0 := Expanded(last.1, ctx, before)]
    decreases |sets|
  {
    hide Expanded;
    if |sets| > 1 {
      assert sets[1..][..|sets| - 2] == sets[..|sets| - 1][1..];
      LastSetActs(env[sets[0].0 := Expanded(sets[0].1, ctx, env)], sets[1..], ctx);
    }
  }

  lemma {:induction false} LastPrependActs(env: Env, prepend: seq<(string, seq<string>)>, ctx: Context)
    requires prepend != []
    ensures var before, last := WithPrepends(env, prepend[..|prepend| - 1], ctx), prepend[|prepend| - 1];
            var key := RealKey(last.0, ctx);
            WithPrepends(env, prepend, ctx)
            == before[key := InFront(ExpandedList(last.1, ctx, before), Get(before, key), ctx.separator)]
    decreases |prepend|
  {
    hide ExpandedList, InFront;
    if |prepend| > 1 {
      assert prepend[1..][..|prepend| - 2] == prepend[..|prepend| - 1][1..];
      var key, values := RealKey(prepend[0].0, ctx), ExpandedList(prepend[0].1, ctx, env);
      LastPrependActs(env[key := InFront(values, Get(env, key), ctx.separator)], prepend[1..], ctx);
    }
  }

  /**
    The operations of a level act one after the other: the variables unset go first; then
    each set and after all of them each prepend works on what the ones before it left,
    and expands its values in that.
  */
  lemma OperationsInTurn(
    base: Env, unset: seq<string>, sets: seq<(string, string)>, prepend: seq<(string, seq<string>)>, ctx: Context)
    ensures Level(base, [], [], [], ctx) == base
    ensures forall key :: ValueOf(Level(base, unset, [], [], ctx), key)
                          == if key in unset then None else ValueOf(base, key)
    ensures sets != [] ==>
              var before, last := Level(base, unset, sets[..|sets| - 1], [], ctx), sets[|sets| - 1];
              Level(base, unset, sets, [], ctx) == before[last.0 := Expanded(last.1, ctx, before)]
    ensures prepend != [] ==>
              var before, last := Level(base, unset, sets, prepend[..|prepend| - 1], ctx), prepend[|prepend| - 1];
              var key := if last.0 == "lib_path" then ctx.libraryKey else last.0;
              Level(base, unset, sets, prepend, ctx)
              == before[key := InFront(ExpandedList(last.1, ctx, before), Get(before, key), ctx.separator)]
  {
    hide Expanded, ExpandedList, InFront;
    assert base - KeySet([]) == base;
    if sets != [] {
      LastSetActs(Without(base, unset), sets, ctx);
    }
    if prepend != [] {
      LastPrependActs(WithSets(Without(base, unset), sets, ctx), prepend, ctx);
    }
  }

  /** The defaults act on the launcher's environment, and the asset's operations on what they leave. */
  lemma LevelsInTurn(base: Env, defaults: EnvOps, asset: EnvOps, ctx: Context)
    requires defaults.append == [] && asset.append == []
    ensures MergedEnv(base, None, None, ctx) == Merged(base)
    ensures var left := Level(base, defaults.unset, defaults.sets, defaults.prepend, ctx);
            && MergedEnv(base, Some(defaults), None, ctx) == Merged(left)
            && MergedEnv(base, Some(defaults), Some(asset), ctx)
               == Merged(Level(left, asset.unset, asset.sets, asset.prepend, ctx))
  {
    assert defaults == EnvOps(defaults.unset, defaults.sets, defaults.prepend, []);
    assert asset == EnvOps(asset.unset, asset.sets, asset.prepend, []);
  }

  // ---------- one variable ----------

  /** What the variable is set to last, if it is set. */
  function LastSet(sets: seq<(string, string)>, key: string): Option<string> {
    if sets == [] then None
    else
      var last := sets[|sets| - 1];
      if last.0 == key then Some(last.1) else LastSet(sets[..|sets| - 1], key)
  }

  /** One level of operations on one variable: unset it, set it, put lists in front of it. */
  function KeyAfter(before: Option<string>, ops: EnvOps, ctx: Context, env: Env, key: string): Option<string> {
    var start :=
      match LastSet(ops.sets, key)
      case Some(value) => Some(Expanded(value, ctx, env))
      case None => if key in ops.unset then None else before;
    var layers := Layers(ops.prepend, key, ctx, env);
    if layers == [] then start
    else Some(InFrontAll(layers, match start case None => "" case Some(list) => list, ctx.separator))
  }

  /** No value refers to a variable that either level changes. */
  predicate SteadyOn(ops: EnvOps, ctx: Context, changed: set<string>) {
    && Changed(ops, ctx) <= changed
    && SetsOutside(ops.sets, ctx, changed) && PrependsOutside(ops.prepend, ctx, changed)
  }

  lemma {:induction false} LastSetBehind(first: (string, string), rest: seq<(string, string)>, key: string)
    ensures LastSet([first] + rest, key) ==
            if LastSet(rest, key).Some? then LastSet(rest, key)
            else if first.0 == key then Some(first.1) else None
  {
    if rest == [] {
      assert [first] + rest == [first] && [first][..0] == [];
    } else {
      assert ([first] + rest)[..|rest|] == [first] + rest[..|rest| - 1];
      LastSetBehind(first, rest[..|rest| - 1], key);
    }
  }

  lemma {:induction false} SetsKeyByKey(
    env: Env, base: Env, sets: seq<(string, string)>, ctx: Context, changed: set<string>, key: string)
    requires SetsOutside(sets, ctx, changed) && SameOutside(env, base, changed)
    ensures ValueOf(WithSets(env, sets, ctx), key) ==
            match LastSet(sets, key) case Some(value) => Some(Expanded(value, ctx, base)) case None => ValueOf(env, key)
    ensures SameOutside(WithSets(env, sets, ctx), base, changed)
    decreases |sets|
  {
    if sets != [] {
      ExpandEnvAgrees(Addressed(sets[0].1, ctx), env, base, changed);
      var env' := env[sets[0].0 := Expanded(sets[0].1, ctx, env)];
      forall k | k !in changed ensures Same(env', base, k) {
        assert Same(env, base, k);
      }
      assert [sets[0]] + sets[1..] == sets;
      LastSetBehind(sets[0], sets[1..], key);
      SetsKeyByKey(env', base, sets[1..], ctx, changed, key);
    }
  }

  lemma UnsetsKeyByKey(env: Env, base: Env, keys: seq<string>, changed: set<string>, key: string)
    requires KeySet(keys) <= changed && SameOutside(env, base, changed)
    ensures ValueOf(Without(env, keys), key) == if key in keys then None else ValueOf(env, key)
    ensures SameOutside(Without(env, keys), base, changed)
  {
    forall k | k !in changed ensures Same(Without(env, keys), base, k) {
      assert Same(env, base, k);
    }
  }

  /** One level, variable by variable. */
  lemma OnceKeyByKey(env: Env, base: Env, ops: EnvOps, ctx: Context, changed: set<string>, key: string)
    requires SteadyOn(ops, ctx, changed) && SameOutside(env, base, changed)
    ensures ValueOf(Once(env, ops, ctx), key) == KeyAfter(ValueOf(env, key), ops, ctx, base, key)
    ensures SameOutside(Once(env, ops, ctx), base, changed)
  {
    PreparedKeyByKey(env, base, ops, ctx, changed, key);
    PrependsAt(Prepared(env, ops, ctx), base, ops.prepend, ctx, changed, key);
    if Layers(ops.prepend, key, ctx, base) == [] {
      NoLayersNoChange(Prepared(env, ops, ctx), base, ops.prepend, ctx, changed, key);
    }
    OnceOutsideOf(env, base, ops, ctx, changed);
  }

  lemma PreparedKeyByKey(env: Env, base: Env, ops: EnvOps, ctx: Context, changed: set<string>, key: string)
    requires SteadyOn(ops, ctx, changed) && SameOutside(env, base, changed)
    ensures ValueOf(Prepared(env, ops, ctx), key) ==
            match LastSet(ops.sets, key)
            case Some(value) => Some(Expanded(value, ctx, base))
            case None => if key in ops.unset then None else ValueOf(env, key)
    ensures SameOutside(Prepared(env, ops, ctx), base, changed)
  {
    UnsetsKeyByKey(env, base, ops.unset, changed, key);
    SetsKeyByKey(Without(env, ops.unset), base, ops.sets, ctx, changed, key);
  }

  lemma {:induction false} NoLayersNoChange(
    env: Env, base: Env, prepend: seq<(string, seq<string>)>, ctx: Context, changed: set<string>, key: string)
    requires PrependsOutside(prepend, ctx, changed) && Layers(prepend, key, ctx, base) == []
    ensures ValueOf(WithPrepends(env, prepend, ctx), key) == ValueOf(env, key)
    decreases |prepend|
  {
    if prepend != [] {
      var here, values := RealKey(prepend[0].0, ctx), ExpandedList(prepend[0].1, ctx, env);
      var env' := env[here := InFront(values, Get(env, here), ctx.separator)];
      NoLayersNoChange(env', base, prepend[1..], ctx, changed, key);
    }
  }

  lemma OnceOutsideOf(env: Env, base: Env, ops: EnvOps, ctx: Context, changed: set<string>)
    requires SteadyOn(ops, ctx, changed) && SameOutside(env, base, changed)
    ensures SameOutside(Once(env, ops, ctx), base, changed)
  {
    forall key | key !in changed ensures Same(Once(env, ops, ctx), base, key) {
      forall i | 0 <= i < |ops.prepend| ensures RealKey(ops.prepend[i].0, ctx) != key {
        assert RealKey(ops.prepend[i].0, ctx) in RealKeys(ops.prepend, ctx);
      }
      PreparedKeyByKey(env, base, ops, ctx, changed, key);
      NoLayers(ops.prepend, key, ctx, base);
      NoLayersNoChange(Prepared(env, ops, ctx), base, ops.prepend, ctx, changed, key);
      assert Same(Prepared(env, ops, ctx), base, key);
    }
  }

  // ---------- both levels ----------

  /**
    Both levels, variable by variable: the defaults first, the asset's operations on
    what they leave. Values are expanded as in the environment the launcher started with,
    as long as none refers to a variable that is changed.
  */
  lemma MergeKeyByKey(base: Env, defaults: EnvOps, asset: EnvOps, ctx: Context, changed: set<string>, key: string)
    requires defaults.append == [] && asset.append == []
    requires SteadyOn(defaults, ctx, changed) && SteadyOn(asset, ctx, changed)
    ensures var merged := MergedEnv(base, Some(defaults), Some(asset), ctx);
            && merged.Merged?
            && ValueOf(merged.env, key)
               == KeyAfter(KeyAfter(ValueOf(base, key), defaults, ctx, base, key), asset, ctx, base, key)
  {
    SameToItself(base, changed);
    OnceKeyByKey(base, base, defaults, ctx, changed, key);
    OnceKeyByKey(Once(base, defaults, ctx), base, asset, ctx, changed, key);
  }

  predicate Touches(ops: EnvOps, ctx: Context, key: string) {
    key in Changed(ops, ctx)
  }

  lemma {:induction false} LastSetIsSet(sets: seq<(string, string)>, key: string)
    ensures LastSet(sets, key).Some? <==> IsSet(key, sets)
  {
    if sets != [] {
      var front, last := sets[..|sets| - 1], sets[|sets| - 1];
      LastSetIsSet(front, key);
      if i :| 0 <= i < |sets| && sets[i].0 == key {
        assert i < |front| ==> front[i].0 == key;
      }
      if i :| 0 <= i < |front| && front[i].0 == key {
        assert sets[i].0 == key;
      }
    }
  }

  lemma UntouchedKey(before: Option<string>, ops: EnvOps, ctx: Context, env: Env, key: string)
    requires !Touches(ops, ctx, key)
    ensures KeyAfter(before, ops, ctx, env, key) == before
  {
    LastSetIsSet(ops.sets, key);
    forall i | 0 <= i < |ops.prepend| ensures RealKey(ops.prepend[i].0, ctx) != key {
      assert RealKey(ops.prepend[i].0, ctx) in RealKeys(ops.prepend, ctx);
    }
    NoLayers(ops.prepend, key, ctx, env);
  }

  lemma {:induction false} SetsElsewhere(env: Env, sets: seq<(string, string)>, ctx: Context, key: string)
    ensures LastSet(sets, key) == None ==> ValueOf(WithSets(env, sets, ctx), key) == ValueOf(env, key)
    ensures LastSet(sets, key).Some? ==>
              exists e :: ValueOf(WithSets(env, sets, ctx), key) == Some(Expanded(LastSet(sets, key).value, ctx, e))
  {
    hide Expanded;
    if sets != [] {
      LastSetActs(env, sets, ctx);
      SetsElsewhere(env, sets[..|sets| - 1], ctx, key);
    }
  }

  lemma {:induction false} PrependsElsewhere(env: Env, prepend: seq<(string, seq<string>)>, ctx: Context, key: string)
    requires key !in RealKeys(prepend, ctx)
    ensures ValueOf(WithPrepends(env, prepend, ctx), key) == ValueOf(env, key)
    decreases |prepend|
  {
    if prepend != [] {
      var here, values := RealKey(prepend[0].0, ctx), ExpandedList(prepend[0].1, ctx, env);
      assert here in RealKeys(prepend, ctx);
      assert forall k :: k in RealKeys(prepend[1..], ctx) ==> k in RealKeys(prepend, ctx);
      PrependsElsewhere(env[here := InFront(values, Get(env, here), ctx.separator)], prepend[1..], ctx, key);
    }
  }

  /** A text without templates is what it is. */
  lemma PlainIsItself(value: string, ctx: Context, env: Env)
    requires '$' !in value
    ensures Expanded(value, ctx, env) == value
  {
    ReplacedNowhere(value, ASSET);
    ReplacedNowhere(value, TIMESTAMP);
    FindNowhere(value, ENV);
  }

  /**
    Who wins, whatever the values refer to. Where the asset puts nothing in front of a
    variable: what it sets has its value, whatever the defaults do; what it only unsets
    is gone; and what it does not touch is as the defaults leave it.
  */
  lemma AssetDecides(base: Env, defaults: EnvOps, asset: EnvOps, ctx: Context, key: string)
    requires defaults.append == [] && asset.append == [] && key !in RealKeys(asset.prepend, ctx)
    ensures var merged := MergedEnv(base, Some(defaults), Some(asset), ctx);
            var left := MergedEnv(base, Some(defaults), None, ctx);
            && merged.Merged? && left.Merged?
            && match LastSet(asset.sets, key)
               case Some(value) =>
                 && (exists e :: ValueOf(merged.env, key) == Some(Expanded(value, ctx, e)))
                 && ('$' !in value ==> ValueOf(merged.env, key) == Some(value))
               case None => ValueOf(merged.env, key) == if key in asset.unset then None else ValueOf(left.env, key)
  {
    var left := Once(base, defaults, ctx);
    SetsElsewhere(Without(left, asset.unset), asset.sets, ctx, key);
    PrependsElsewhere(Prepared(left, asset, ctx), asset.prepend, ctx, key);
    var last := LastSet(asset.sets, key);
    if last.Some? && '$' !in last.value {
      forall e ensures Expanded(last.value, ctx, e) == last.value {
        PlainIsItself(last.value, ctx, e);
      }
    }
  }

  /**
    Who wins. A variable the asset sets, and puts nothing in front of, has the asset's
    value whatever the defaults do; one that the asset unsets and neither sets nor
    extends is gone; one the asset does not touch is as the defaults leave it; one that
    nobody touches is as it was.
  */
  lemma AssetWins(base: Env, defaults: EnvOps, asset: EnvOps, ctx: Context, changed: set<string>, key: string)
    requires defaults.append == [] && asset.append == []
    requires SteadyOn(defaults, ctx, changed) && SteadyOn(asset, ctx, changed)
    ensures var merged := MergedEnv(base, Some(defaults), Some(asset), ctx);
            var ours, theirs := Layers(asset.prepend, key, ctx, base), Layers(defaults.prepend, key, ctx, base);
            var assetSets, defaultSets := LastSet(asset.sets, key), LastSet(defaults.sets, key);
            && merged.Merged?
            && (assetSets.Some? && ours == [] ==>
                  ValueOf(merged.env, key) == Some(Expanded(assetSets.value, ctx, base)))
            && (assetSets.None? && key in asset.unset && ours == [] ==> key !in merged.env)
            && (!Touches(asset, ctx, key) && theirs == [] && defaultSets.Some? ==>
                  ValueOf(merged.env, key) == Some(Expanded(defaultSets.value, ctx, base)))
            && (!Touches(asset, ctx, key) && !Touches(defaults, ctx, key) ==>
                  ValueOf(merged.env, key) == ValueOf(base, key))
  {
    MergeKeyByKey(base, defaults, asset, ctx, changed, key);
    hide Layers, Expanded, MergedEnv, Touches;
    if !Touches(asset, ctx, key) {
      UntouchedKey(KeyAfter(ValueOf(base, key), defaults, ctx, base, key), asset, ctx, base, key);
    }
    if !Touches(defaults, ctx, key) {
      UntouchedKey(ValueOf(base, key), defaults, ctx, base, key);
    }
  }

  /**
    Where neither level sets or unsets a variable, the asset's lists are searched first,
    then the defaults', then the old one.
  */
  lemma AssetIsSearchedFirst(
    base: Env, defaults: EnvOps, asset: EnvOps, ctx: Context, changed: set<string>, key: string)
    requires defaults.append == [] && asset.append == []
    requires SteadyOn(defaults, ctx, changed) && SteadyOn(asset, ctx, changed)
    requires !StartsOver(defaults, key) && !StartsOver(asset, key)
    requires AllFree(Layers(defaults.prepend, key, ctx, base), ctx.separator)
    requires AllFree(Layers(asset.prepend, key, ctx, base), ctx.separator)
    ensures var merged := MergedEnv(base, Some(defaults), Some(asset), ctx);
            var ours, theirs := Layers(asset.prepend, key, ctx, base), Layers(defaults.prepend, key, ctx, base);
            && merged.Merged?
            && Searched(Get(merged.env, key), ctx.separator)
               == FirstOf(Stacked(ours) + (Stacked(theirs) + Split(Get(base, key), ctx.separator)), {})
  {
    var ours, theirs := Layers(asset.prepend, key, ctx, base), Layers(defaults.prepend, key, ctx, base);
    var list, sep := Get(base, key), ctx.separator;
    MergeKeyByKey(base, defaults, asset, ctx, changed, key);
    LastSetIsSet(asset.sets, key);
    LastSetIsSet(defaults.sets, key);
    InFrontAllSearched(theirs, list, sep);
    InFrontAllSearched(ours, InFrontAll(theirs, list, sep), sep);
    SameBehind(Stacked(ours), Split(InFrontAll(theirs, list, sep), sep), Stacked(theirs) + Split(list, sep));
    assert Get(MergedEnv(base, Some(defaults), Some(asset), ctx).env, key)
        == InFrontAll(ours, InFrontAll(theirs, list, sep), sep);
  }

  // ---------- what the templates stand for ----------

  /** The pattern stands in the text at this place. */
  predicate At(s: string, i: nat, pattern: string)
    requires i <= |s|
  {
    pattern <= s[i..]
  }

  lemma {:induction false} FindsFirst(s: string, pattern: string)
    ensures match Find(s, pattern)
            case None => forall i :: 0 <= i <= |s| ==> !At(s, i, pattern)
            case Some(r) => At(s, r, pattern) && forall i :: 0 <= i < r ==> !At(s, i, pattern)
  {
    if !(pattern <= s) && s != "" {
      FindsFirst(s[1..], pattern);
      assert forall i :: 0 < i <= |s| ==> s[i..] == s[1..][i - 1..];
      forall i | 0 < i <= |s| ensures At(s, i, pattern) <==> At(s[1..], i - 1, pattern) {
      }
    }
  }

  lemma FindIs(s: string, pattern: string, r: nat)
    requires r <= |s| && At(s, r, pattern) && forall i :: 0 <= i < r ==> !At(s, i, pattern)
    ensures Find(s, pattern) == Some(r)
  {
    FindsFirst(s, pattern);
  }

  /** A pattern is not found before the first place of its first character. */
  lemma FindBehind(before: string, pattern: string, after: string)
    requires pattern != "" && pattern[0] !in before
    ensures Find(before + pattern + after, pattern) == Some(|before|)
  {
    var s := before + pattern + after;
    assert s[|before|..] == pattern + after;
    forall i | 0 <= i < |before| ensures !At(s, i, pattern) {
      assert s[i..][0] == before[i];
    }
    FindIs(s, pattern, |before|);
  }

  lemma FindNowhere(s: string, pattern: string)
    requires pattern != "" && pattern[0] !in s
    ensures Find(s, pattern) == None
  {
    FindsFirst(s, pattern);
    forall i | 0 <= i <= |s| ensures !At(s, i, pattern) {
      assert i < |s| ==> s[i..][0] == s[i];
    }
  }

  /** Pieces of text with the same text between them. */
  function Joined(pieces: seq<string>, between: string): string {
    if pieces == [] then "" else if |pieces| == 1 then pieces[0] else pieces[0] + between + Joined(pieces[1..], between)
  }

  lemma AlsoInWhole(s: string, r: nat, i: nat, pattern: string)
    requires i <= r <= |s| && At(s[..r], i, pattern)
    ensures At(s, i, pattern)
  {
    assert s[i..] == s[..r][i..] + s[r..];
  }

  lemma Around(s: string, r: nat, pattern: string)
    requires r <= |s| && At(s, r, pattern)
    ensures r + |pattern| <= |s| && s == s[..r] + pattern + s[r + |pattern|..]
  {
    assert s[r..][..|pattern|] == pattern;
    assert s == s[..r] + s[r..r + |pattern|] + s[r + |pattern|..];
  }

  lemma NotEarlier(s: string, pattern: string, r: nat, i: nat)
    requires pattern != "" && Find(s, pattern) == Some(r) && r <= |s| && i <= r
    ensures !At(s[..r], i, pattern)
  {
    FindsFirst(s, pattern);
    hide Find;
    if i < r {
      if At(s[..r], i, pattern) {
        AlsoInWhole(s, r, i, pattern);
      }
    }
  }

  lemma PieceInFront(s: string, pattern: string, r: nat)
    requires pattern != "" && Find(s, pattern) == Some(r)
    ensures r + |pattern| <= |s| && s == s[..r] + pattern + s[r + |pattern|..]
    ensures Find(s[..r], pattern) == None
  {
    Around(s, r, pattern);
    FindsFirst(s[..r], pattern);
    hide Find, At;
    var found := Find(s[..r], pattern);
    if found.Some? {
      NotEarlier(s, pattern, r, found.value);
    }
  }

  lemma JoinedBehind(piece: string, rest: seq<string>, between: string)
    requires rest != []
    ensures Joined([piece] + rest, between) == piece + between + Joined(rest, between)
  {
    assert ([piece] + rest)[1..] == rest;
  }

  /** Replacing puts the new text wherever the pattern was, and nowhere else: no piece has the pattern in it. */
  lemma {:induction false} ReplaceSwaps(s: string, pattern: string, insert: string) returns (pieces: seq<string>)
    requires pattern != ""
    ensures pieces != [] && s == Joined(pieces, pattern) && Replace(s, pattern, insert) == Joined(pieces, insert)
    ensures forall k :: 0 <= k < |pieces| ==> Find(pieces[k], pattern) == None
    decreases |s|
  {
    hide Find;
    var place := Find(s, pattern);
    if place.None? {
      pieces := [s];
    } else {
      PieceInFront(s, pattern, place.value);
      var rest := ReplaceSwaps(s[place.value + |pattern|..], pattern, insert);
      pieces := [s[..place.value]] + rest;
      JoinedBehind(s[..place.value], rest, pattern);
      JoinedBehind(s[..place.value], rest, insert);
      hide Joined;
    }
  }

  /** An asset's name and the time stamp come in for their templates. */
  lemma TemplatesFilled(before: string, after: string, ctx: Context)
    requires '$' !in before && '$' !in after && '$' !in ctx.timestamp
    requires ctx.asset.Some? ==> '$' !in ctx.asset.value
    ensures Addressed(before, ctx) == before
    ensures Addressed(before + ASSET + after, ctx)
         == before + (match ctx.asset case Some(name) => name case None => ASSET) + after
    ensures Addressed(before + TIMESTAMP + after, ctx) == before + ctx.timestamp + after
  {
    ReplacedNowhere(before, ASSET);
    ReplacedOnce(before, TIMESTAMP, after, ctx.timestamp);
    FindNowhere(before, TIMESTAMP);
    FindNowhere(before, ASSET);
    if ctx.asset.Some? {
      ReplacedOnce(before, ASSET, after, ctx.asset.value);
      FindNowhere(before + ctx.asset.value + after, TIMESTAMP);
      OtherTemplate(before, TIMESTAMP, after, ASSET);
    } else {
      OtherTemplate(before, ASSET, after, TIMESTAMP);
    }
  }

  lemma ReplacedOnce(before: string, pattern: string, after: string, insert: string)
    requires pattern != "" && pattern[0] !in before && pattern[0] !in after
    ensures Replace(before + pattern + after, pattern, insert) == before + insert + after
  {
    FindBehind(before, pattern, after);
    FindNowhere(after, pattern);
    var s := before + pattern + after;
    assert s[..|before|] == before && s[|before| + |pattern|..] == after;
  }

  lemma ReplacedNowhere(s: string, pattern: string)
    requires pattern != "" && pattern[0] !in s
    ensures forall insert :: Replace(s, pattern, insert) == s
  {
    FindNowhere(s, pattern);
  }

  /** A text that differs from a template at place d is not found around it if nothing else begins like it. */
  lemma NotAround(before: string, template: string, after: string, other: string, d: nat)
    requires d < |template| && d < |other| && template[d] != other[d]
    requires other[0] !in before && other[0] !in after && forall k :: 0 < k < |template| ==> template[k] != other[0]
    ensures Find(before + template + after, other) == None
  {
    var s := before + template + after;
    FindsFirst(s, other);
    hide Find;
    forall i | 0 <= i <= |s| ensures !At(s, i, other) {
      if i == |before| {
        assert s[i..][d] == template[d];
      } else if i < |s| {
        assert s[i] != other[0] && s[i..][0] == s[i];
      }
    }
  }

  /** One template is no place for another. */
  lemma OtherTemplate(before: string, template: string, after: string, other: string)
    requires '$' !in before && '$' !in after
    requires (template == ASSET && other == TIMESTAMP) || (template == TIMESTAMP && other == ASSET)
    ensures Find(before + template + after, other) == None
  {
    assert ASSET[2] == 'a' && TIMESTAMP[2] == 't' && ASSET[0] == '$' == TIMESTAMP[0];
    assert forall k :: 0 < k < |template| ==> template[k] != '$';
    hide Find;
    NotAround(before, template, after, other, 2);
  }

  lemma KeyInside(before: string, open: string, key: string, close: string, after: string)
    ensures var s := before + open + (key + close + after);
            && s[|before|..] == open + key + close + after
            && s[|before|..|before| + |open|] == open
            && s[|before| + |open|..|before| + |open| + |key|] == key
  {
  }

  lemma ClosesHere(s: string, start: nat, length: nat)
    requires start + 6 <= |s| && s[start..start + 6] == ENV
    requires Find(s[start..], "}") == Some(length) && 6 <= length && start + length <= |s|
    ensures ReferenceAt(s, start) == Some(Reference(start, start + length, s[start + 6..start + length]))
  {
    hide Find;
  }

  lemma OpensBehind(before: string, open: string, rest: string)
    requires open != "" && open[0] !in before
    ensures Find(before + open + rest, open) == Some(|before|)
  {
    hide Find;
    FindBehind(before, open, rest);
  }

  lemma ClosesBehind(open: string, key: string, close: string, after: string)
    requires |close| == 1 && close[0] !in open + key
    ensures Find(open + key + close + after, close) == Some(|open| + |key|)
  {
    hide Find;
    FindBehind(open + key, close, after);
  }

  lemma ClosesInside(before: string, open: string, key: string, close: string, after: string)
    requires Find(open + key + close + after, close) == Some(|open| + |key|)
    ensures var s := before + open + (key + close + after);
            Find(s[|before|..], close) == Some(|open| + |key|)
  {
    hide Find;
    KeyInside(before, open, key, close, after);
  }

  lemma ReferenceIsNext(before: string, key: string, after: string)
    requires '$' !in before && '}' !in key
    ensures NextReference(before + ENV + (key + "}" + after))
         == Some(Reference(|before|, |before| + 6 + |key|, key))
  {
    assert ENV[0] == '$' && '}' !in ENV && |ENV| == 6;
    hide ReferenceAt, Find;
    OpensBehind(before, ENV, key + "}" + after);
    ClosesBehind(ENV, key, "}", after);
    ClosesInside(before, ENV, key, "}", after);
    KeyInside(before, ENV, key, "}", after);
    ClosesHere(before + ENV + (key + "}" + after), |before|, 6 + |key|);
  }

  lemma PartsOf(a: string, b: string, c: string, d: string, e: string)
    ensures (a + b + (c + d + e))[..|a|] == a
    ensures (a + b + (c + d + e))[|a| + |b| + |c| + |d|..] == e
  {
    assert (a + b + (c + d + e))[|a| + |b|..] == c + d + e;
  }

  lemma ExpandsAt(s: string, env: Env, r: Reference, before: string, after: string)
    requires NextReference(s) == Some(r) && r.end < |s| && s[..r.start] == before && s[r.end + 1..] == after
    ensures ExpandEnv(s, env) == before + Get(env, r.key) + ExpandEnv(after, env)
  {
    hide NextReference;
  }

  /** A reference stands for the variable's value; what comes in is not looked at again, what follows is. */
  lemma {:induction false} ReferenceExpands(before: string, key: string, after: string, env: Env)
    requires '$' !in before && '}' !in key
    ensures ExpandEnv(before + ENV + (key + "}" + after), env) == before + Get(env, key) + ExpandEnv(after, env)
  {
    ReferenceIsNext(before, key, after);
    PartsOf(before, ENV, key, "}", after);
    assert |ENV| == 6;
    hide NextReference, ExpandEnv;
    var r := Reference(|before|, |before| + 6 + |key|, key);
    ExpandsAt(before + ENV + (key + "}" + after), env, r, before, after);
  }

  /** A text without references stays as it is, and so does one whose reference is not closed. */
  lemma NoReferenceNoChange(before: string, after: string, env: Env)
    requires '$' !in before && '}' !in after
    ensures ExpandEnv(before, env) == before
    ensures ExpandEnv(before + ENV + after, env) == before + ENV + after
  {
    FindNowhere(before, ENV);
    FindBehind(before, ENV, after);
    assert (before + ENV + after)[|before|..] == ENV + after;
    assert '}' !in ENV + after;
    FindNowhere(ENV + after, "}");
  }

  /** What is put in front of `lib_path` goes in front of the platform's library variable, and of no other. */
  lemma LibraryPathIsPlatforms(base: Env, items: seq<string>, ctx: Context, key: string)
    ensures var merged := MergedEnv(base, None, Some(EnvOps([], [], [("lib_path", items)], [])), ctx);
            && merged.Merged?
            && ValueOf(merged.env, key)
               == if key == ctx.libraryKey then
                    Some(InFront(ExpandedList(items, ctx, base), Get(base, key), ctx.separator))
                  else ValueOf(base, key)
  {
    hide ExpandedList;
    var prepend := [("lib_path", items)];
    assert base - KeySet([]) == base && prepend[1..] == [];
    var list := InFront(ExpandedList(items, ctx, base), Get(base, ctx.libraryKey), ctx.separator);
    var after := base[ctx.libraryKey := list];
    assert WithPrepends(base, prepend, ctx) == WithPrepends(after, prepend[1..], ctx);
  }
}
