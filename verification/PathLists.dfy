/**
  Path lists such as a library search path: split at a separator, merged without
  repeating an entry, and joined again.
*/
module PathLists {
  import opened Sequences

  // ---------- splitting and joining ----------

  function Split(s: string, sep: char): (parts: seq<string>)
    ensures |parts| >= 1
    ensures sep !in s ==> parts == [s]
  {
    if s == "" then [""]
    else
      var rest := Split(s[1..], sep);
      assert [s[0]] + s[1..] == s;
      if s[0] == sep then [""] + rest else [[s[0]] + rest[0]] + rest[1..]
  }

  function Join(parts: seq<string>, sep: char): string {
    if parts == [] then ""
    else if |parts| == 1 then parts[0]
    else parts[0] + [sep] + Join(parts[1..], sep)
  }

  predicate Free(parts: seq<string>, sep: char) {
    forall p :: p in parts ==> sep !in p
  }

  lemma JoinFirst(first: string, rest: seq<string>, sep: char)
    requires rest != []
    ensures Join([first] + rest, sep) == first + [sep] + Join(rest, sep)
  {
    assert ([first] + rest)[1..] == rest;
  }

  lemma JoinWithin(c: char, parts: seq<string>, sep: char)
    requires parts != []
    ensures Join([[c] + parts[0]] + parts[1..], sep) == [c] + Join(parts, sep)
  {
    assert ([[c] + parts[0]] + parts[1..])[1..] == parts[1..];
    if |parts| > 1 {
      assert [c] + parts[0] + [sep] + Join(parts[1..], sep) == [c] + (parts[0] + [sep] + Join(parts[1..], sep));
    }
  }

  lemma {:induction false} JoinSplit(s: string, sep: char)
    ensures Join(Split(s, sep), sep) == s
  {
    if s != "" {
      JoinSplit(s[1..], sep);
      var rest := Split(s[1..], sep);
      if s[0] == sep {
        JoinFirst("", rest, sep);
      } else {
        JoinWithin(s[0], rest, sep);
      }
      assert [s[0]] + s[1..] == s;
    }
  }

  lemma {:induction false} SplitIsFree(s: string, sep: char)
    ensures Free(Split(s, sep), sep)
  {
    if s != "" {
      SplitIsFree(s[1..], sep);
      var rest := Split(s[1..], sep);
      assert rest[0] in rest;
      assert forall p :: p in Split(s, sep) ==> p == "" || p == [s[0]] + rest[0] || p in rest;
    }
  }

  lemma {:induction false} SplitFirst(first: string, s: string, sep: char)
    requires sep !in first
    ensures Split(first + [sep] + s, sep) == [first] + Split(s, sep)
  {
    var whole := first + [sep] + s;
    if first == "" {
      assert whole == [sep] + s;
      assert whole[1..] == s;
    } else {
      SplitFirst(first[1..], s, sep);
      assert whole[0] == first[0] && whole[1..] == first[1..] + [sep] + s;
      assert [first[0]] + first[1..] == first;
    }
  }

  lemma {:induction false} SplitJoin(parts: seq<string>, sep: char)
    requires parts != [] && Free(parts[..|parts| - 1], sep)
    ensures Split(Join(parts, sep), sep) == parts[..|parts| - 1] + Split(parts[|parts| - 1], sep)
  {
    if |parts| > 1 {
      assert parts[0] in parts[..|parts| - 1];
      assert parts[1..][..|parts| - 2] == parts[1..|parts| - 1];
      SplitJoin(parts[1..], sep);
      SplitFirst(parts[0], Join(parts[1..], sep), sep);
      assert parts[..|parts| - 1] == [parts[0]] + parts[1..|parts| - 1];
    }
  }

  // ---------- first occurrences ----------

  /** The entries that are not empty and have not been seen, each at its first place. */
  function FirstOf(items: seq<string>, seen: set<string>): seq<string> {
    if items == [] then []
    else if items[0] == "" || items[0] in seen then FirstOf(items[1..], seen)
    else [items[0]] + FirstOf(items[1..], seen + {items[0]})
  }

  ghost function Named(items: seq<string>): set<string> {
    set p | p in items && p != ""
  }

  lemma {:induction false} FirstOfElements(items: seq<string>, seen: set<string>)
    ensures Elements(FirstOf(items, seen)) == Named(items) - seen
    ensures NoRepeats(FirstOf(items, seen))
  {
    if items != [] {
      assert Named(items) == Named(items[1..]) + (if items[0] == "" then {} else {items[0]});
      if items[0] == "" || items[0] in seen {
        FirstOfElements(items[1..], seen);
      } else {
        var rest := FirstOf(items[1..], seen + {items[0]});
        FirstOfElements(items[1..], seen + {items[0]});
        assert Elements([items[0]] + rest) == {items[0]} + Elements(rest);
        assert forall p :: p in rest ==> p in Elements(rest);
      }
    }
  }

  lemma {:induction false} FirstOfConcat(a: seq<string>, b: seq<string>, seen: set<string>)
    ensures FirstOf(a + b, seen) == FirstOf(a, seen) + FirstOf(b, seen + Named(a))
  {
    if a == [] {
      assert a + b == b && seen + Named(a) == seen;
    } else {
      assert (a + b)[1..] == a[1..] + b;
      var seen' := if a[0] == "" then seen else seen + {a[0]};
      FirstOfConcat(a[1..], b, seen');
      assert seen' + Named(a[1..]) == seen + Named(a);
      if a[0] in seen {
        assert seen' == seen;
      }
    }
  }

  /** What stands behind a list adds what the list does not name. */
  lemma FirstOfBehind(a: seq<string>, b: seq<string>)
    ensures FirstOf(a + b, {}) == FirstOf(a, {}) + FirstOf(b, Named(a))
  {
    FirstOfConcat(a, b, {});
    assert {} + Named(a) == Named(a);
  }

  lemma SameNames(a: seq<string>, b: seq<string>)
    requires FirstOf(a, {}) == FirstOf(b, {})
    ensures Named(a) == Named(b)
  {
    FirstOfElements(a, {});
    FirstOfElements(b, {});
    assert Named(a) - {} == Named(a) && Named(b) - {} == Named(b);
  }

  lemma {:induction false} FirstOfAgain(items: seq<string>, seen: set<string>, more: set<string>)
    requires seen <= more
    ensures FirstOf(FirstOf(items, seen), more) == FirstOf(items, more)
  {
    if items != [] {
      if items[0] == "" || items[0] in seen {
        FirstOfAgain(items[1..], seen, more);
      } else if items[0] in more {
        FirstOfAgain(items[1..], seen + {items[0]}, more);
      } else {
        FirstOfAgain(items[1..], seen + {items[0]}, more + {items[0]});
      }
    }
  }

  lemma {:induction false} NothingNew(items: seq<string>, seen: set<string>)
    requires Named(items) <= seen
    ensures FirstOf(items, seen) == []
  {
    if items != [] {
      assert items[0] == "" || items[0] in Named(items);
      assert Named(items[1..]) <= Named(items);
      NothingNew(items[1..], seen);
    }
  }

  /** The order is that of the first occurrences: what comes later is not in front. */
  lemma {:induction false} FirstOfKeepsOrder(items: seq<string>, i: nat, j: nat)
    requires i < j < |items| && items[i] != "" && items[j] != "" && items[j] !in items[..j] && items[i] !in items[..i]
    ensures exists k, l :: 0 <= k < l < |FirstOf(items, {})|
                           && FirstOf(items, {})[k] == items[i] && FirstOf(items, {})[l] == items[j]
  {
    var front, back := items[..j], items[j..];
    assert items == front + back;
    FirstOfConcat(front, back, {});
    FirstOfElements(front, {});
    assert items[i] in Elements(FirstOf(front, {}));
    assert back[0] !in {} + Named(front);
    var k :| 0 <= k < |FirstOf(front, {})| && FirstOf(front, {})[k] == items[i];
    assert FirstOf(items, {})[k] == items[i] && FirstOf(items, {})[|FirstOf(front, {})|] == items[j];
  }

  // ---------- merging ----------

  function Merged(base: string, items: seq<string>, sep: char): string {
    Join(FirstOf(Split(base, sep) + items, {}), sep)
  }

  method JoinPathlike(items: seq<string>, base: string, sep: char) returns (joined: string)
    ensures joined == Merged(base, items, sep)
  {
    var seen: set<string>, out: seq<string> := {}, [];
    if base != "" {
      seen, out := AddUnseen(Split(base, sep), seen, out);
    } else {
      assert Named([""]) == {} && FirstOf([""], {}) == [];
    }
    assert seen == Named(Split(base, sep)) && out == FirstOf(Split(base, sep), {});
    FirstOfBehind(Split(base, sep), items);
    seen, out := AddUnseen(items, seen, out);
    joined := Join(out, sep);
  }

  /** The loop that both halves of a merge run. */
  method AddUnseen(items: seq<string>, before: set<string>, start: seq<string>)
    returns (seen: set<string>, out: seq<string>)
    ensures seen == before + Named(items)
    ensures out == start + FirstOf(items, before)
  {
    seen, out := before, start;
    for i := 0 to |items|
      invariant seen == before + Named(items[..i])
      invariant start + FirstOf(items, before) == out + FirstOf(items[i..], seen)
    {
      assert items[..i + 1] == items[..i] + [items[i]] && items[i..][1..] == items[i + 1..];
      if items[i] != "" && items[i] !in seen {
        seen := seen + {items[i]};
        out := out + [items[i]];
      }
    }
    assert items[..|items|] == items;
  }

  /** The entries a search along the list visits, in order. */
  function Searched(list: string, sep: char): seq<string> {
    FirstOf(Split(list, sep), {})
  }

  lemma SearchedIsFree(items: seq<string>, sep: char)
    requires Free(items, sep)
    ensures Free(FirstOf(items, {}), sep)
  {
    FirstOfElements(items, {});
    assert forall p :: p in FirstOf(items, {}) ==> p in Elements(FirstOf(items, {}));
  }

  /** A merged list is searched along the old list first and then along the new items. */
  lemma MergeSearchesBaseFirst(base: string, items: seq<string>, sep: char)
    requires Free(items, sep)
    ensures Searched(Merged(base, items, sep), sep) == FirstOf(Split(base, sep) + items, {})
  {
    var all := Split(base, sep) + items;
    SplitIsFree(base, sep);
    SearchedIsFree(all, sep);
    SearchedJoin(FirstOf(all, {}), sep);
    FirstOfAgain(all, {}, {});
  }

  lemma SearchedJoin(parts: seq<string>, sep: char)
    requires Free(parts, sep)
    ensures Searched(Join(parts, sep), sep) == FirstOf(parts, {})
  {
    if parts == [] {
      assert FirstOf([""], {}) == [];
    } else {
      var last := |parts| - 1;
      assert parts == parts[..last] + [parts[last]];
      SplitJoin(parts, sep);
    }
  }

  /** Merging in two steps is merging at once. */
  lemma MergeInSteps(base: string, first: seq<string>, second: seq<string>, sep: char)
    requires Free(first, sep)
    ensures Merged(Merged(base, first, sep), second, sep) == Merged(base, first + second, sep)
  {
    var once, all := Split(Merged(base, first, sep), sep), Split(base, sep) + first;
    MergeSearchesBaseFirst(base, first, sep);
    SameNames(once, all);
    FirstOfBehind(once, second);
    FirstOfBehind(all, second);
    assert all + second == Split(base, sep) + (first + second);
  }

  /** So merging the same items behind a list again changes nothing. */
  lemma MergeTwice(base: string, items: seq<string>, sep: char)
    requires Free(items, sep)
    ensures Merged(Merged(base, items, sep), items, sep) == Merged(base, items, sep)
  {
    MergeInSteps(base, items, items, sep);
    var all := Split(base, sep) + items;
    assert all + items == Split(base, sep) + (items + items);
    FirstOfBehind(all, items);
    NothingNew(items, Named(all));
    assert FirstOf(all, {}) + [] == FirstOf(all, {});
  }

  // ---------- putting items in front ----------

  /** New items first, and the old list behind them as one single entry. */
  function InFront(items: seq<string>, list: string, sep: char): string {
    Merged("", items + (if list == "" then [] else [list]), sep)
  }

  lemma InFrontEntries(items: seq<string>, list: string, sep: char)
    ensures var values := FirstOf(items, {});
            InFront(items, list, sep) == Join(values + (if list == "" || list in values then [] else [list]), sep)
  {
    var behind := if list == "" then [] else [list];
    assert Split("", sep) + (items + behind) == [""] + (items + behind);
    assert ([""] + (items + behind))[1..] == items + behind;
    FirstOfBehind(items, behind);
    NamedAreFirst(items, list);
    assert FirstOf(behind, Named(items)) == if list == "" || list in Named(items) then [] else [list];
  }

  lemma NamedAreFirst(items: seq<string>, p: string)
    ensures p in FirstOf(items, {}) <==> p in items && p != ""
  {
    FirstOfElements(items, {});
    assert p in FirstOf(items, {}) <==> p in Elements(FirstOf(items, {}));
  }

  /** A search along the new list visits the new items first and then the old list. */
  lemma InFrontSearchesItemsFirst(items: seq<string>, list: string, sep: char)
    requires Free(items, sep)
    ensures Searched(InFront(items, list, sep), sep) == FirstOf(items + Split(list, sep), {})
  {
    var values := FirstOf(items, {});
    InFrontEntries(items, list, sep);
    NamedAreFirst(items, list);
    SearchedIsFree(items, sep);
    FirstOfBehind(items, Split(list, sep));
    FirstOfAgain(items, {}, {});
    if list == "" || list in values {
      SearchedJoin(values, sep);
      assert Split(list, sep) == [list];
      NothingNew(Split(list, sep), Named(items));
      assert values + [] == values;
    } else {
      SearchedJoinLast(values, list, sep);
      SameNames(values, items);
    }
  }

  lemma {:induction false} SearchedJoinLast(parts: seq<string>, last: string, sep: char)
    requires Free(parts, sep)
    ensures Searched(Join(parts + [last], sep), sep) == FirstOf(parts, {}) + FirstOf(Split(last, sep), Named(parts))
  {
    assert (parts + [last])[..|parts|] == parts;
    SplitJoin(parts + [last], sep);
    FirstOfBehind(parts, Split(last, sep));
  }

  /** Twice in front visits the same entries in the same order as once ... */
  lemma InFrontTwiceSearchesTheSame(items: seq<string>, list: string, sep: char)
    requires Free(items, sep)
    ensures Searched(InFront(items, InFront(items, list, sep), sep), sep) == Searched(InFront(items, list, sep), sep)
  {
    var once, all := Split(InFront(items, list, sep), sep), items + Split(list, sep);
    InFrontSearchesItemsFirst(items, list, sep);
    InFrontSearchesItemsFirst(items, InFront(items, list, sep), sep);
    FirstOfBehind(items, once);
    FirstOfBehind(items, all);
    FirstOfAgain(once, {}, Named(items));
    FirstOfAgain(all, {}, Named(items));
    ItemsOnce(items, Split(list, sep));
  }

  lemma ItemsOnce(items: seq<string>, behind: seq<string>)
    ensures FirstOf(items + (items + behind), {}) == FirstOf(items + behind, {})
  {
    FirstOfBehind(items, items + behind);
    FirstOfConcat(items, behind, Named(items));
    NothingNew(items, Named(items));
    assert Named(items) + Named(items) == Named(items);
    FirstOfBehind(items, behind);
  }

  lemma {:induction false} JoinIsLonger(parts: seq<string>, sep: char, i: nat)
    requires i < |parts|
    ensures |Join(parts, sep)| >= |parts[i]| + |parts| - 1
  {
    if |parts| > 1 {
      JoinIsLonger(parts[1..], sep, if i > 0 then i - 1 else 0);
    }
  }

  /**
    ... but is the same list only when there is nothing to put in front, or one entry
    that is already the whole list. Everything else repeats the items.
  */
  lemma InFrontTwiceIff(items: seq<string>, list: string, sep: char)
    ensures InFront(items, InFront(items, list, sep), sep) == InFront(items, list, sep)
       <==> var values := FirstOf(items, {}); values == [] || (|values| == 1 && list in ["", values[0]])
  {
    var values, once := FirstOf(items, {}), InFront(items, list, sep);
    var parts := values + (if list == "" || list in values then [] else [list]);
    InFrontEntries(items, list, sep);
    InFrontEntries(items, once, sep);
    FirstOfElements(items, {});
    if values != [] {
      assert values[0] in Elements(values);
      JoinIsLonger(parts, sep, 0);
      if once in values {
        var i: nat :| i < |values| && values[i] == once;
        JoinIsLonger(parts, sep, i);
      } else {
        JoinIsLonger(values + [once], sep, |values|);
      }
    }
  }

  // ---------- putting several lists in front, one after the other ----------

  function InFrontAll(layers: seq<seq<string>>, list: string, sep: char): string {
    if layers == [] then list else InFrontAll(layers[1..], InFront(layers[0], list, sep), sep)
  }

  function Concat(layers: seq<seq<string>>): seq<string> {
    if layers == [] then [] else layers[0] + Concat(layers[1..])
  }

  /** The last layer stands in front. */
  function Stacked(layers: seq<seq<string>>): seq<string> {
    if layers == [] then [] else Stacked(layers[1..]) + layers[0]
  }

  predicate AllFree(layers: seq<seq<string>>, sep: char) {
    forall i :: 0 <= i < |layers| ==> Free(layers[i], sep)
  }

  /** Putting these items in front leaves the list as it is. */
  predicate Still(items: seq<string>, list: string) {
    FirstOf(items, {}) == [] || FirstOf(items, {}) == [list]
  }

  lemma InFrontGrows(items: seq<string>, list: string, sep: char)
    ensures Still(items, list) ==> InFront(items, list, sep) == list
    ensures !Still(items, list) ==> |InFront(items, list, sep)| > |list|
  {
    var values := FirstOf(items, {});
    InFrontEntries(items, list, sep);
    FirstOfElements(items, {});
    if list != "" && list !in values {
      JoinIsLonger(values + [list], sep, |values|);
    } else if list in values {
      var i: nat :| i < |values| && values[i] == list;
      JoinIsLonger(values, sep, i);
      assert values + [] == values && (|values| == 1 ==> values == [list]);
    } else if values != [] {
      assert values[0] in Elements(values);
      JoinIsLonger(values, sep, 0);
    }
  }

  lemma {:induction false} InFrontAllGrows(layers: seq<seq<string>>, list: string, sep: char)
    ensures |InFrontAll(layers, list, sep)| >= |list|
    ensures InFrontAll(layers, list, sep) == list <==> forall i :: 0 <= i < |layers| ==> Still(layers[i], list)
    decreases |layers|
  {
    if layers != [] {
      InFrontGrows(layers[0], list, sep);
      InFrontAllGrows(layers[1..], InFront(layers[0], list, sep), sep);
      assert forall i :: 1 <= i < |layers| ==> layers[i] == layers[1..][i - 1];
    }
  }

  lemma {:induction false} ConcatNames(layers: seq<seq<string>>, p: string)
    ensures p in Concat(layers) <==> exists i :: 0 <= i < |layers| && p in layers[i]
  {
    if layers != [] {
      ConcatNames(layers[1..], p);
      if p in Concat(layers[1..]) {
        var i :| 0 <= i < |layers[1..]| && p in layers[1..][i];
        assert p in layers[i + 1];
      }
      if i :| 0 <= i < |layers| && p in layers[i] && p !in layers[0] {
        assert p in layers[1..][i - 1];
      }
    }
  }

  /** Nothing but this entry, and perhaps empty ones. */
  predicate OnlyNames(items: seq<string>, p: string) {
    forall i :: 0 <= i < |items| ==> items[i] in ["", p]
  }

  lemma OneName(items: seq<string>, p: string)
    requires OnlyNames(items, p)
    ensures FirstOf(items, {}) == if p in items && p != "" then [p] else []
  {
    var values := FirstOf(items, {});
    FirstOfElements(items, {});
    NamedAreFirst(items, p);
    forall i | 0 <= i < |values| ensures values[i] == p {
      NamedAreFirst(items, values[i]);
    }
    ElementCount(values);
    SubsetSize(Elements(values), {p});
    assert values != [] ==> values[0] in values;
  }

  /** One and the same entry everywhere, on an empty list or on itself. */
  lemma {:induction false} OneEntry(layers: seq<seq<string>>, list: string, p: string, sep: char)
    requires OnlyNames(Concat(layers), p)
    requires p != "" && list in ["", p]
    ensures InFrontAll(layers, list, sep) in ["", p]
    ensures p in Concat(layers) || list == p ==> InFrontAll(layers, list, sep) == p
    decreases |layers|
  {
    if layers != [] {
      var all := Concat(layers);
      assert layers[0] == all[..|layers[0]|] && Concat(layers[1..]) == all[|layers[0]|..];
      OneName(layers[0], p);
      InFrontEntries(layers[0], list, sep);
      assert Join([p], sep) == p;
      OneEntry(layers[1..], InFront(layers[0], list, sep), p, sep);
    }
  }

  /** If the result stands still under every layer, it is at most that one entry. */
  lemma {:induction false} StillComesFrom(layers: seq<seq<string>>, list: string, sep: char)
    requires var once := InFrontAll(layers, list, sep);
             && (forall i :: 0 <= i < |layers| ==> Still(layers[i], once))
             && exists i :: 0 <= i < |layers| && FirstOf(layers[i], {}) == [once]
    ensures list in ["", InFrontAll(layers, list, sep)]
    decreases |layers|
  {
    var once, next := InFrontAll(layers, list, sep), InFront(layers[0], list, sep);
    InFrontEntries(layers[0], list, sep);
    InFrontAllGrows(layers[1..], next, sep);
    JoinIsLonger([once, list], sep, 0);
    JoinIsLonger([once, list], sep, 1);
    if FirstOf(layers[0], {}) != [once] {
      InFrontGrows(layers[0], list, sep);
      assert Still(layers[0], list);
      var i :| 0 <= i < |layers| && FirstOf(layers[i], {}) == [once];
      assert layers[1..][i - 1] == layers[i];
      assert forall k :: 0 <= k < |layers[1..]| ==> layers[1..][k] == layers[k + 1];
      StillComesFrom(layers[1..], next, sep);
    }
  }

  /** The condition for several layers is that for all their items in one. */
  lemma InFrontAllTwiceIff(layers: seq<seq<string>>, list: string, sep: char)
    ensures InFrontAll(layers, InFrontAll(layers, list, sep), sep) == InFrontAll(layers, list, sep)
       <==> var values := FirstOf(Concat(layers), {});
            values == [] || (|values| == 1 && list in ["", values[0]])
  {
    var once, values := InFrontAll(layers, list, sep), FirstOf(Concat(layers), {});
    InFrontAllGrows(layers, once, sep);
    if values == [] || (|values| == 1 && list in ["", values[0]]) {
      FewValuesStandStill(layers, list, sep);
    }
    if forall i :: 0 <= i < |layers| ==> Still(layers[i], once) {
      StillHasFewValues(layers, list, sep);
    }
  }

  lemma FewValuesStandStill(layers: seq<seq<string>>, list: string, sep: char)
    requires var values := FirstOf(Concat(layers), {}); values == [] || (|values| == 1 && list in ["", values[0]])
    ensures forall i :: 0 <= i < |layers| ==> Still(layers[i], InFrontAll(layers, list, sep))
  {
    var all, values := Concat(layers), FirstOf(Concat(layers), {});
    var p := if values == [] then "" else values[0];
    forall i | 0 <= i < |all| ensures all[i] in ["", p] {
      NamedAreFirst(all, all[i]);
    }
    if values != [] {
      NamedAreFirst(all, p);
      OneEntry(layers, list, p, sep);
    }
    forall i | 0 <= i < |layers| ensures Still(layers[i], InFrontAll(layers, list, sep)) {
      forall k | 0 <= k < |layers[i]| ensures layers[i][k] in ["", p] {
        ConcatNames(layers, layers[i][k]);
      }
      OneName(layers[i], p);
    }
  }

  lemma StillHasFewValues(layers: seq<seq<string>>, list: string, sep: char)
    requires forall i :: 0 <= i < |layers| ==> Still(layers[i], InFrontAll(layers, list, sep))
    ensures var values := FirstOf(Concat(layers), {}); values == [] || (|values| == 1 && list in ["", values[0]])
  {
    var once, all := InFrontAll(layers, list, sep), Concat(layers);
    forall k | 0 <= k < |all| && all[k] != "" ensures all[k] == once && HasSingle(layers, once) {
      ConcatNames(layers, all[k]);
      var i :| 0 <= i < |layers| && all[k] in layers[i];
      NamedAreFirst(layers[i], all[k]);
      assert FirstOf(layers[i], {}) == [once];
    }
    OneName(all, once);
    if once in all && once != "" {
      StillComesFrom(layers, list, sep);
    }
  }

  predicate HasSingle(layers: seq<seq<string>>, p: string) {
    exists i :: 0 <= i < |layers| && FirstOf(layers[i], {}) == [p]
  }

  /** What stands behind matters only by its first occurrences. */
  lemma SameBehind(front: seq<string>, a: seq<string>, b: seq<string>)
    requires FirstOf(a, {}) == FirstOf(b, {})
    ensures FirstOf(front + a, {}) == FirstOf(front + b, {})
  {
    FirstOfBehind(front, a);
    FirstOfBehind(front, b);
    FirstOfAgain(a, {}, Named(front));
    FirstOfAgain(b, {}, Named(front));
  }

  /** A search visits the last layer first, and the old list at the end. */
  lemma {:induction false} InFrontAllSearched(layers: seq<seq<string>>, list: string, sep: char)
    requires AllFree(layers, sep)
    ensures Searched(InFrontAll(layers, list, sep), sep) == FirstOf(Stacked(layers) + Split(list, sep), {})
    decreases |layers|
  {
    if layers == [] {
      assert [] + Split(list, sep) == Split(list, sep);
    } else {
      var next, front := InFront(layers[0], list, sep), Stacked(layers[1..]);
      InFrontAllSearched(layers[1..], next, sep);
      InFrontSearchesItemsFirst(layers[0], list, sep);
      var behind := layers[0] + Split(list, sep);
      FirstOfAgain(behind, {}, {});
      SameBehind(front, Split(next, sep), behind);
      assert front + behind == Stacked(layers) + Split(list, sep);
    }
  }

  lemma InFrontAllTwiceSearchesTheSame(layers: seq<seq<string>>, list: string, sep: char)
    requires AllFree(layers, sep)
    ensures Searched(InFrontAll(layers, InFrontAll(layers, list, sep), sep), sep)
         == Searched(InFrontAll(layers, list, sep), sep)
  {
    var once, front := InFrontAll(layers, list, sep), Stacked(layers);
    InFrontAllSearched(layers, list, sep);
    InFrontAllSearched(layers, once, sep);
    SameBehind(front, Split(once, sep), front + Split(list, sep));
    ItemsOnce(front, Split(list, sep));
  }

  lemma InFrontRepeats()
    ensures InFront(["/a"], "/b", ':') == "/a:/b"
    ensures InFront(["/a"], InFront(["/a"], "/b", ':'), ':') == "/a:/a:/b"
  {
    assert FirstOf(["/a"], {}) == ["/a"];
    InFrontEntries(["/a"], "/b", ':');
    assert Join(["/a", "/b"], ':') == "/a" + [':'] + "/b";
    InFrontEntries(["/a"], "/a:/b", ':');
    assert Join(["/a", "/a:/b"], ':') == "/a" + [':'] + "/a:/b";
  }
}
