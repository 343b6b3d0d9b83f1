/**
  Removal of leftover runtime files: the known files in a fixed order, the master lock
  file last, and nothing more after the first failure.
*/
module Recovery {

  datatype Path = Path(directory: string, filename: string)

  /** What the file remover answers for one file. */
  datatype Answer = Answer(returned: bool, error: bool)

  datatype Result = Result(recovered: bool, removed: seq<Path>, remaining: seq<Path>, failures: seq<Path>)

  const FLOCK := "flock.bin"

  // ---------- the order of deletion ----------

  predicate StringLess(a: string, b: string) {
    if b == [] then false
    else if a == [] then true
    else if a[0] != b[0] then a[0] < b[0]
    else StringLess(a[1..], b[1..])
  }

  predicate IsFlock(p: Path) {
    p.filename == FLOCK
  }

  /** Lock file last, otherwise by file name. */
  predicate Less(left: Path, right: Path) {
    if IsFlock(left) != IsFlock(right) then !IsFlock(left) else StringLess(left.filename, right.filename)
  }

  /** Where a path goes: behind everything that is not greater. */
  function Insert(sorted: seq<Path>, p: Path): seq<Path> {
    if sorted == [] then [p]
    else
      var last := |sorted| - 1;
      if Less(p, sorted[last]) then Insert(sorted[..last], p) + [sorted[last]] else sorted + [p]
  }

  /** The stable sort of the paths. */
  function Sorted(paths: seq<Path>): seq<Path> {
    if paths == [] then [] else Insert(Sorted(paths[..|paths| - 1]), paths[|paths| - 1])
  }

  /** Texts are compared at their first difference; a beginning comes before what it begins. */
  ghost predicate DiffersAt(a: string, b: string, k: nat) {
    && k <= |a| && k < |b| && a[..k] == b[..k]
    && (k == |a| || a[k] < b[k])
  }

  lemma {:induction false} StringLessIff(a: string, b: string)
    ensures StringLess(a, b) <==> exists k: nat :: DiffersAt(a, b, k)
  {
    if a == [] && b != [] {
      assert DiffersAt(a, b, 0);
    } else if a != [] && b != [] {
      if a[0] == b[0] {
        StringLessIff(a[1..], b[1..]);
        if k: nat :| DiffersAt(a[1..], b[1..], k) {
          assert a[..k + 1] == [a[0]] + a[1..][..k] && b[..k + 1] == [b[0]] + b[1..][..k];
          assert DiffersAt(a, b, k + 1);
        }
        if k: nat :| DiffersAt(a, b, k) {
          var l: nat := k - 1;
          assert a[1..][..l] == a[..k][1..] && b[1..][..l] == b[..k][1..];
          assert DiffersAt(a[1..], b[1..], l);
        }
      } else if a[0] < b[0] {
        assert DiffersAt(a, b, 0);
      }
    }
  }

  lemma {:induction false} StringLessTransitive(a: string, b: string, c: string)
    requires !StringLess(b, a) && !StringLess(c, b)
    ensures !StringLess(c, a)
  {
    if a != [] && b != [] && c != [] && a[0] == b[0] == c[0] {
      StringLessTransitive(a[1..], b[1..], c[1..]);
    }
  }

  lemma {:induction false} StringLessAsymmetric(a: string, b: string)
    ensures !(StringLess(a, b) && StringLess(b, a))
    ensures !StringLess(a, b) && !StringLess(b, a) ==> a == b
  {
    if a != [] && b != [] && a[0] == b[0] {
      StringLessAsymmetric(a[1..], b[1..]);
      assert a == [a[0]] + a[1..] && b == [b[0]] + b[1..];
    }
  }

  lemma NotLessTransitive(x: Path, y: Path, z: Path)
    requires !Less(y, x) && !Less(z, y)
    ensures !Less(z, x)
  {
    if IsFlock(x) == IsFlock(y) == IsFlock(z) {
      StringLessTransitive(x.filename, y.filename, z.filename);
    }
  }

  ghost predicate InOrder(s: seq<Path>) {
    forall i, j :: 0 <= i < j < |s| ==> !Less(s[j], s[i])
  }

  lemma {:induction false} InsertPermutes(s: seq<Path>, p: Path)
    ensures multiset(Insert(s, p)) == multiset(s) + multiset{p}
  {
    if s != [] {
      var last := |s| - 1;
      assert s == s[..last] + [s[last]];
      if Less(p, s[last]) {
        InsertPermutes(s[..last], p);
      }
    }
  }

  /** Nothing in front of `last` is greater, p included. */
  lemma InsertedStaysBelow(s: seq<Path>, p: Path, last: Path)
    requires (forall i :: 0 <= i < |s| ==> !Less(last, s[i])) && Less(p, last)
    ensures forall i :: 0 <= i < |Insert(s, p)| ==> !Less(last, Insert(s, p)[i])
  {
    var inserted := Insert(s, p);
    InsertPermutes(s, p);
    StringLessAsymmetric(p.filename, last.filename);
    forall i | 0 <= i < |inserted| ensures !Less(last, inserted[i]) {
      assert inserted[i] in multiset(inserted);
      assert inserted[i] == p || inserted[i] in s;
    }
  }

  /** What is not less than the last is not less than anything. */
  lemma NotLessThanAny(s: seq<Path>, p: Path)
    requires InOrder(s) && s != [] && !Less(p, s[|s| - 1])
    ensures forall i :: 0 <= i < |s| ==> !Less(p, s[i])
  {
    forall i | 0 <= i < |s| - 1 ensures !Less(p, s[i]) {
      NotLessTransitive(s[i], s[|s| - 1], p);
    }
  }

  lemma {:induction false} InsertInOrder(s: seq<Path>, p: Path)
    requires InOrder(s)
    ensures InOrder(Insert(s, p))
  {
    hide Less, Insert;
    if s == [] {
      InsertIntoNothing(p);
    } else {
      var last := |s| - 1;
      InsertBehind(s, p);
      if Less(p, s[last]) {
        InsertInOrder(s[..last], p);
        InsertedStaysBelow(s[..last], p, s[last]);
      } else {
        NotLessThanAny(s, p);
      }
    }
  }

  lemma InsertIntoNothing(p: Path)
    ensures Insert([], p) == [p]
  {
  }

  lemma InsertBehind(s: seq<Path>, p: Path)
    requires s != []
    ensures var last := |s| - 1;
            Insert(s, p) == if Less(p, s[last]) then Insert(s[..last], p) + [s[last]] else s + [p]
  {
  }

  /** The paths that carry one file name, in the order they come in. */
  function Named(s: seq<Path>, name: string): seq<Path> {
    if s == [] then []
    else
      var last := |s| - 1;
      Named(s[..last], name) + if s[last].filename == name then [s[last]] else []
  }

  lemma {:induction false} InsertKeepsNamed(s: seq<Path>, p: Path, name: string)
    ensures Named(Insert(s, p), name) == Named(s, name) + if p.filename == name then [p] else []
  {
    if s == [] {
      assert [p][..0] == [];
    } else {
      var last := |s| - 1;
      if Less(p, s[last]) {
        InsertKeepsNamed(s[..last], p, name);
        var front := Insert(s[..last], p);
        assert (front + [s[last]])[..|front|] == front;
        StringLessAsymmetric(p.filename, s[last].filename);
      } else {
        assert (s + [p])[..|s|] == s;
      }
    }
  }

  lemma WithLast(s: seq<Path>)
    requires s != []
    ensures multiset(s) == multiset(s[..|s| - 1]) + multiset{s[|s| - 1]}
  {
    assert s == s[..|s| - 1] + [s[|s| - 1]];
  }

  lemma {:induction false} SortPermutes(paths: seq<Path>)
    ensures multiset(Sorted(paths)) == multiset(paths)
  {
    if paths != [] {
      var front, last := paths[..|paths| - 1], paths[|paths| - 1];
      SortPermutes(front);
      InsertPermutes(Sorted(front), last);
      WithLast(paths);
    }
  }

  lemma {:induction false} SortOrders(paths: seq<Path>)
    ensures InOrder(Sorted(paths))
  {
    if paths != [] {
      SortOrders(paths[..|paths| - 1]);
      InsertInOrder(Sorted(paths[..|paths| - 1]), paths[|paths| - 1]);
    }
  }

  lemma {:induction false} SortKeepsNamed(paths: seq<Path>, name: string)
    ensures Named(Sorted(paths), name) == Named(paths, name)
  {
    if paths != [] {
      SortKeepsNamed(paths[..|paths| - 1], name);
      InsertKeepsNamed(Sorted(paths[..|paths| - 1]), paths[|paths| - 1], name);
    }
  }

  /** Files that are no lock files come out in the order of their names, and lock files behind them. */
  lemma SortedByName(paths: seq<Path>, i: nat, j: nat)
    requires i < j < |paths|
    ensures |Sorted(paths)| == |paths|
    ensures var p, q := Sorted(paths)[i], Sorted(paths)[j];
            && (p.filename == "flock.bin" ==> q.filename == "flock.bin")
            && (q.filename != "flock.bin" ==>
                  p.filename == q.filename || exists k: nat :: DiffersAt(p.filename, q.filename, k))
  {
    SortPermutes(paths);
    SortOrders(paths);
    assert |multiset(Sorted(paths))| == |Sorted(paths)| && |multiset(paths)| == |paths|;
    var p, q := Sorted(paths)[i], Sorted(paths)[j];
    StringLessAsymmetric(p.filename, q.filename);
    StringLessIff(p.filename, q.filename);
  }

  /** The sort permutes, sorts, and keeps files of the same name in their given order. */
  lemma SortIsStable(paths: seq<Path>, name: string)
    ensures multiset(Sorted(paths)) == multiset(paths)
    ensures InOrder(Sorted(paths))
    ensures Named(Sorted(paths), name) == Named(paths, name)
  {
    SortPermutes(paths);
    SortOrders(paths);
    SortKeepsNamed(paths, name);
  }

  // ---------- the deletion ----------

  /**
    `answers(k)` is what the k-th call of the remover says; `attempted` lists the files
    it was called on, in order. Nothing is tried after the first failure.
  */
  method RemoveKnownRuntimeFiles(paths: seq<Path>, answers: nat -> Answer)
    returns (result: Result, attempted: seq<Path>)
    ensures result.removed + result.remaining == Sorted(paths)
    ensures forall k :: 0 <= k < |result.removed| ==> answers(k).returned && !answers(k).error
    ensures result.recovered <==> result.remaining == []
    ensures !result.recovered ==> !answers(|result.removed|).returned || answers(|result.removed|).error
    ensures result.failures == if result.recovered then [] else [result.remaining[0]]
    ensures attempted == result.removed + result.failures
  {
    var ordered := Sorted(paths);
    result, attempted := Result(true, [], [], []), [];
    for index := 0 to |ordered|
      invariant result == Result(true, ordered[..index], [], [])
      invariant attempted == ordered[..index]
      invariant forall k :: 0 <= k < index ==> answers(k).returned && !answers(k).error
    {
      var path := ordered[index];
      attempted := attempted + [path];
      if !answers(index).returned || answers(index).error {
        var remaining := [];
        for r := index to |ordered|
          invariant remaining == ordered[index..r]
        {
          remaining := remaining + [ordered[r]];
        }
        result := result.(recovered := false, remaining := remaining, failures := [path]);
        assert ordered[..index] + ordered[index..] == ordered;
        return;
      }
      result := result.(removed := result.removed + [path]);
    }
  }

  lemma SamePaths(paths: seq<Path>, p: Path)
    ensures p in paths <==> p in Sorted(paths)
  {
    SortPermutes(paths);
    assert p in paths <==> p in multiset(paths);
    assert p in Sorted(paths) <==> p in multiset(Sorted(paths));
  }

  lemma OthersGoFirst(s: seq<Path>, i: nat, q: Path)
    requires InOrder(s) && i < |s| && IsFlock(s[i]) && q in s && !IsFlock(q)
    ensures q in s[..i]
  {
    var j :| 0 <= j < |s| && s[j] == q;
    assert Less(s[j], s[i]);
  }

  lemma LockStaysLast(s: seq<Path>, p: Path)
    requires InOrder(s) && p in s && IsFlock(p)
    ensures IsFlock(s[|s| - 1])
  {
    var j :| 0 <= j < |s| && s[j] == p;
    assert j < |s| - 1 ==> !Less(s[|s| - 1], s[j]);
  }

  /**
    The evidence of ownership goes last: once a lock file is gone, or even tried, every
    other known file is gone; and as long as anything is left, a lock file is left.
  */
  lemma EvidenceGoesLast(paths: seq<Path>, removed: seq<Path>, remaining: seq<Path>)
    requires removed + remaining == Sorted(paths)
    ensures (exists p :: p in removed && p.filename == "flock.bin")
            || (remaining != [] && remaining[0].filename == "flock.bin") ==>
              forall q :: q in paths && q.filename != "flock.bin" ==> q in removed
    ensures remaining != [] && (exists p :: p in paths && p.filename == "flock.bin") ==>
              exists p :: p in remaining && p.filename == "flock.bin"
    ensures multiset(removed) + multiset(remaining) == multiset(paths)
  {
    var s := removed + remaining;
    SortPermutes(paths);
    SortOrders(paths);
    assert forall p: Path :: IsFlock(p) <==> p.filename == "flock.bin";
    hide Sorted, IsFlock;
    if (exists p :: p in removed && IsFlock(p)) || (remaining != [] && IsFlock(remaining[0])) {
      var i := FirstLock(removed, remaining);
      forall q | q in paths && !IsFlock(q) ensures q in removed {
        SamePaths(paths, q);
        OthersGoFirst(s, i, q);
        assert s[..i] == removed[..i];
      }
    }
    if p :| p in paths && IsFlock(p) {
      if remaining != [] {
        SamePaths(paths, p);
        LockStaysLast(s, p);
        assert remaining[|remaining| - 1] == s[|s| - 1];
      }
    }
  }

  lemma FirstLock(removed: seq<Path>, remaining: seq<Path>) returns (i: nat)
    requires (exists p :: p in removed && IsFlock(p)) || (remaining != [] && IsFlock(remaining[0]))
    ensures i < |removed + remaining| && i <= |removed| && IsFlock((removed + remaining)[i])
  {
    if p :| p in removed && IsFlock(p) {
      i :| 0 <= i < |removed| && removed[i] == p;
    } else {
      i := |removed|;
    }
  }
}
