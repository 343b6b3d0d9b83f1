/** Sequences without repetition, and the sets and multisets of their elements. */
module Sequences {

  ghost predicate NoRepeats<T>(s: seq<T>) {
    forall i, j :: 0 <= i < j < |s| ==> s[i] != s[j]
  }

  ghost function Elements<T>(s: seq<T>): set<T> {
    set x | x in s
  }

  lemma {:induction false} ElementCount<T>(s: seq<T>)
    requires NoRepeats(s)
    ensures |Elements(s)| == |s|
  {
    if s != [] {
      var last := |s| - 1;
      ElementCount(s[..last]);
      assert Elements(s) == Elements(s[..last]) + {s[last]};
    }
  }

  lemma SmallerIsEqual<T>(a: set<T>, b: set<T>)
    requires a <= b && |a| >= |b|
    ensures a == b
  {
    assert b == a + (b - a);
  }

  lemma {:induction false} MultiplicityWithoutRepeats<T>(s: seq<T>, x: T)
    requires NoRepeats(s)
    ensures multiset(s)[x] == if x in s then 1 else 0
  {
    if s != [] {
      var last := |s| - 1;
      MultiplicityWithoutRepeats(s[..last], x);
      assert s == s[..last] + [s[last]];
    }
  }

  lemma SameElementsSameMultiset<T>(s: seq<T>, t: seq<T>)
    requires NoRepeats(s) && NoRepeats(t) && Elements(s) == Elements(t)
    ensures multiset(s) == multiset(t)
  {
    forall x ensures multiset(s)[x] == multiset(t)[x] {
      MultiplicityWithoutRepeats(s, x);
      MultiplicityWithoutRepeats(t, x);
      assert x in s <==> x in Elements(s);
      assert x in t <==> x in Elements(t);
    }
  }

  lemma TwicePresent<T>(s: seq<T>, p: nat, r: nat)
    requires p < |s| && r < |s| && p != r && s[p] == s[r]
    ensures multiset(s)[s[p]] >= 2
  {
    var i, j := if p < r then p else r, if p < r then r else p;
    assert s == s[..i] + [s[i]] + s[i + 1..j] + [s[j]] + s[j + 1..];
  }

  lemma SubsetSize<T>(a: set<T>, b: set<T>)
    requires a <= b
    ensures |a| <= |b|
  {
    assert b == a + (b - a);
  }

  lemma RoomForMore<T>(s: seq<T>, bound: set<T>, y: T)
    requires NoRepeats(s) && Elements(s) <= bound && y in bound && y !in s
    ensures NoRepeats(s + [y]) && Elements(s + [y]) <= bound
    ensures |s| < |bound|
  {
    assert Elements(s + [y]) == Elements(s) + {y};
    ElementCount(s + [y]);
    SubsetSize(Elements(s + [y]), bound);
  }
}
