/**
  The launcher's ordering of assets by their dependencies: Kahn's algorithm, and the
  proof that it returns an order exactly when there is one.
*/
module Toposort {
  import opened Options
  import opened Sequences

  datatype Asset = Asset(name: string, dependsOn: seq<string>)

  datatype Ordering = Ordered(assets: seq<Asset>) | UnknownDependency(asset: string, dependency: string) | Cyclic

  // ---------- what an order is ----------

  ghost predicate DistinctNames(assets: seq<Asset>) {
    forall i, j :: 0 <= i < j < |assets| ==> assets[i].name != assets[j].name
  }

  ghost function Names(assets: seq<Asset>): set<string> {
    set i | 0 <= i < |assets| :: assets[i].name
  }

  ghost predicate DependenciesKnown(assets: seq<Asset>) {
    forall i, d :: 0 <= i < |assets| && d in assets[i].dependsOn ==> d in Names(assets)
  }

  ghost predicate DependsOn(assets: seq<Asset>, x: string, y: string) {
    exists i :: 0 <= i < |assets| && assets[i].name == x && y in assets[i].dependsOn
  }

  /** A closed walk along dependencies. */
  ghost predicate Cycle(assets: seq<Asset>, walk: seq<string>) {
    && walk != []
    && (forall i :: 0 <= i < |walk| - 1 ==> DependsOn(assets, walk[i], walk[i + 1]))
    && DependsOn(assets, walk[|walk| - 1], walk[0])
  }

  ghost predicate Acyclic(assets: seq<Asset>) {
    forall walk :: !Cycle(assets, walk)
  }

  ghost predicate NamedBefore(order: seq<Asset>, p: nat, name: string)
    requires p <= |order|
  {
    exists q :: 0 <= q < p && order[q].name == name
  }

  /** Every asset comes after everything it depends on. */
  ghost predicate DependenciesFirst(order: seq<Asset>) {
    forall p, d :: 0 <= p < |order| && d in order[p].dependsOn ==> NamedBefore(order, p, d)
  }

  // ---------- counting what an asset still waits for ----------

  ghost function Waiting(deps: seq<string>, done: set<string>): nat {
    if deps == [] then 0
    else Waiting(deps[..|deps| - 1], done) + if deps[|deps| - 1] in done then 0 else 1
  }

  lemma {:induction false} WaitingZero(deps: seq<string>, done: set<string>)
    ensures Waiting(deps, done) == 0 <==> forall d :: d in deps ==> d in done
  {
    if deps != [] {
      var last := |deps| - 1;
      WaitingZero(deps[..last], done);
      assert deps == deps[..last] + [deps[last]];
    }
  }

  lemma {:induction false} WaitingForNothing(deps: seq<string>)
    ensures Waiting(deps, {}) == |deps|
  {
    if deps != [] {
      WaitingForNothing(deps[..|deps| - 1]);
    }
  }

  lemma {:induction false} WaitingAfter(deps: seq<string>, done: set<string>, n: string)
    requires n !in done
    ensures Waiting(deps, done) == Waiting(deps, done + {n}) + multiset(deps)[n]
  {
    if deps != [] {
      var last := |deps| - 1;
      WaitingAfter(deps[..last], done, n);
      assert deps == deps[..last] + [deps[last]];
    }
  }

  // ---------- an order excludes cycles ----------

  /** Along a walk inside an order, positions go down. */
  lemma {:induction false} WalkGoesDown(assets: seq<Asset>, order: seq<Asset>, walk: seq<string>, p: nat, k: nat)
    requires DistinctNames(assets) && multiset(order) == multiset(assets) && DependenciesFirst(order)
    requires walk != [] && k < |walk| && forall i :: 0 <= i < |walk| - 1 ==> DependsOn(assets, walk[i], walk[i + 1])
    requires p < |order| && order[p].name == walk[0]
    ensures exists q :: 0 <= q <= p - k && q < |order| && order[q].name == walk[k]
  {
    if k > 0 {
      WalkGoesDown(assets, order, walk, p, k - 1);
      var q :| 0 <= q <= p - (k - 1) && q < |order| && order[q].name == walk[k - 1];
      StepGoesDown(assets, order, q, walk[k]);
    }
  }

  lemma StepGoesDown(assets: seq<Asset>, order: seq<Asset>, q: nat, y: string)
    requires DistinctNames(assets) && multiset(order) == multiset(assets) && DependenciesFirst(order)
    requires q < |order| && DependsOn(assets, order[q].name, y)
    ensures NamedBefore(order, q, y)
  {
    var i :| 0 <= i < |assets| && assets[i].name == order[q].name && y in assets[i].dependsOn;
    assert order[q] in multiset(order);
    assert order[q] in assets;
    assert order[q] == assets[i];
  }

  lemma NamesHavePlaces(assets: seq<Asset>, order: seq<Asset>, x: string, y: string)
    requires multiset(order) == multiset(assets) && DependsOn(assets, x, y)
    ensures exists p :: 0 <= p < |order| && order[p].name == x
  {
    var i :| 0 <= i < |assets| && assets[i].name == x && y in assets[i].dependsOn;
    assert assets[i] in multiset(assets);
    assert assets[i] in order;
  }

  lemma NoClosedWalk(assets: seq<Asset>, order: seq<Asset>, walk: seq<string>)
    requires DistinctNames(assets) && multiset(order) == multiset(assets) && DependenciesFirst(order)
    ensures !Cycle(assets, walk)
  {
    if Cycle(assets, walk) {
      var last := |walk| - 1;
      NamesHavePlaces(assets, order, walk[0], if last == 0 then walk[0] else walk[1]);
      var p :| 0 <= p < |order| && order[p].name == walk[0];
      WalkGoesDown(assets, order, walk, p, last);
      var q :| 0 <= q <= p - last && q < |order| && order[q].name == walk[last];
      StepGoesDown(assets, order, q, walk[0]);
      var r :| 0 <= r < q && order[r].name == walk[0];
      SameNameSamePlace(assets, order, p, r);
    }
  }

  /** If every dependency can come first, no walk along dependencies closes. */
  lemma OrderExcludesCycles(assets: seq<Asset>, order: seq<Asset>)
    requires DistinctNames(assets) && multiset(order) == multiset(assets) && DependenciesFirst(order)
    ensures Acyclic(assets)
  {
    forall walk ensures !Cycle(assets, walk) {
      NoClosedWalk(assets, order, walk);
    }
  }

  lemma SameNameSamePlace(assets: seq<Asset>, order: seq<Asset>, p: nat, r: nat)
    requires DistinctNames(assets) && multiset(order) == multiset(assets)
    requires p < |order| && r < |order| && order[p].name == order[r].name
    ensures p == r
  {
    assert order[p] in multiset(order) && order[r] in multiset(order);
    assert order[p] in assets && order[r] in assets;
    assert order[p] == order[r];
    assert NoRepeats(assets);
    MultiplicityWithoutRepeats(assets, order[p]);
    if p != r {
      TwicePresent(order, p, r);
    }
  }

  // ---------- a stuck remainder contains a cycle ----------

  ghost predicate WaitsWithin(assets: seq<Asset>, stuck: set<string>, x: string) {
    exists y :: y in stuck && DependsOn(assets, x, y)
  }

  /** Every stuck asset waits for a stuck asset. */
  ghost predicate Stuck(assets: seq<Asset>, stuck: set<string>) {
    forall x {:trigger WaitsWithin(assets, stuck, x)} :: x in stuck ==> WaitsWithin(assets, stuck, x)
  }

  ghost predicate Walk(assets: seq<Asset>, walk: seq<string>) {
    walk != [] && forall i :: 0 <= i < |walk| - 1 ==> DependsOn(assets, walk[i], walk[i + 1])
  }

  lemma WalkCloses(assets: seq<Asset>, walk: seq<string>, i: nat)
    requires Walk(assets, walk) && i < |walk| && DependsOn(assets, walk[|walk| - 1], walk[i])
    ensures Cycle(assets, walk[i..])
  {
    var closed := walk[i..];
    forall k | 0 <= k < |closed| - 1 ensures DependsOn(assets, closed[k], closed[k + 1]) {
      assert DependsOn(assets, walk[i + k], walk[i + k + 1]);
    }
  }

  lemma WalkGrows(assets: seq<Asset>, walk: seq<string>, y: string)
    requires Walk(assets, walk) && DependsOn(assets, walk[|walk| - 1], y)
    ensures Walk(assets, walk + [y])
  {
    var longer := walk + [y];
    forall i | 0 <= i < |longer| - 1 ensures DependsOn(assets, longer[i], longer[i + 1]) {
      if i < |walk| - 1 {
        assert DependsOn(assets, walk[i], walk[i + 1]);
      }
    }
  }

  /** Following a dependency from stuck to stuck must come back to the walk. */
  lemma StuckHasCycle(assets: seq<Asset>, stuck: set<string>, walk: seq<string>)
    requires Stuck(assets, stuck) && Walk(assets, walk)
    requires NoRepeats(walk) && Elements(walk) <= stuck
    ensures !Acyclic(assets)
    decreases |stuck| - |walk|
  {
    var y := NextStuck(assets, stuck, walk);
    if y in walk {
      var i :| 0 <= i < |walk| && walk[i] == y;
      WalkCloses(assets, walk, i);
    } else {
      WalkGrows(assets, walk, y);
      RoomForMore(walk, stuck, y);
      StuckHasCycle(assets, stuck, walk + [y]);
    }
  }

  lemma NextStuck(assets: seq<Asset>, stuck: set<string>, walk: seq<string>) returns (y: string)
    requires Stuck(assets, stuck) && walk != [] && Elements(walk) <= stuck
    ensures y in stuck && DependsOn(assets, walk[|walk| - 1], y)
  {
    var last := walk[|walk| - 1];
    assert last in Elements(walk);
    assert WaitsWithin(assets, stuck, last);
    y :| y in stuck && DependsOn(assets, last, y);
  }

  // ---------- the algorithm ----------

  ghost function Times(s: seq<string>, x: string): nat {
    multiset(s)[x]
  }

  lemma TimesOfNext(s: seq<string>, i: nat, x: string)
    requires i < |s|
    ensures Times(s[..i + 1], x) == Times(s[..i], x) + if s[i] == x then 1 else 0
  {
    assert s[..i + 1] == s[..i] + [s[i]];
  }

  lemma TimesOfPrefix(s: seq<string>, i: nat, x: string)
    requires i <= |s|
    ensures Times(s[..i], x) <= Times(s, x)
  {
    assert s == s[..i] + s[i..];
  }

  /** The dependencies of asset j that a scan has passed once it stands at dependency k of asset i. */
  ghost function Passed(assets: seq<Asset>, j: nat, i: nat, k: nat): seq<string>
    requires j < |assets|
  {
    if j < i then assets[j].dependsOn
    else if j == i && k <= |assets[j].dependsOn| then assets[j].dependsOn[..k]
    else []
  }

  ghost predicate DegreeAt(assets: seq<Asset>, indeg: map<string, nat>, j: nat, i: nat, k: nat)
    requires j < |assets|
  {
    assets[j].name in indeg && indeg[assets[j].name] == |Passed(assets, j, i, k)|
  }

  ghost predicate DegreesAre(assets: seq<Asset>, indeg: map<string, nat>, i: nat, k: nat) {
    forall j: nat {:trigger DegreeAt(assets, indeg, j, i, k)} :: j < |assets| ==> DegreeAt(assets, indeg, j, i, k)
  }

  ghost predicate EdgesAt(assets: seq<Asset>, adj: map<string, seq<string>>, n: string, j: nat, i: nat, k: nat)
    requires j < |assets|
  {
    n in adj ==> Times(adj[n], assets[j].name) == Times(Passed(assets, j, i, k), n)
  }

  ghost predicate SuccessorsAre(assets: seq<Asset>, adj: map<string, seq<string>>, i: nat, k: nat) {
    forall n, j: nat {:trigger EdgesAt(assets, adj, n, j, i, k)} :: j < |assets| ==> EdgesAt(assets, adj, n, j, i, k)
  }

  lemma PassedNextAsset(assets: seq<Asset>, i: nat, j: nat)
    requires i < |assets| && j < |assets|
    ensures Passed(assets, j, i + 1, 0) == Passed(assets, j, i, |assets[i].dependsOn|)
  {
    assert assets[i].dependsOn[..|assets[i].dependsOn|] == assets[i].dependsOn;
  }

  lemma GraphNextAsset(assets: seq<Asset>, g: Graph, i: nat)
    requires i < |assets| && Describes(assets, g, i, |assets[i].dependsOn|)
    ensures Describes(assets, g, i + 1, 0)
  {
    forall j: nat {:trigger DegreeAt(assets, g.indeg, j, i + 1, 0)} | j < |assets|
      ensures DegreeAt(assets, g.indeg, j, i + 1, 0)
    {
      PassedNextAsset(assets, i, j);
      assert DegreeAt(assets, g.indeg, j, i, |assets[i].dependsOn|);
    }
    forall n, j: nat {:trigger EdgesAt(assets, g.adj, n, j, i + 1, 0)} | j < |assets|
      ensures EdgesAt(assets, g.adj, n, j, i + 1, 0)
    {
      PassedNextAsset(assets, i, j);
      assert EdgesAt(assets, g.adj, n, j, i, |assets[i].dependsOn|);
    }
  }

  lemma PassedNextDependency(assets: seq<Asset>, i: nat, k: nat, j: nat)
    requires i < |assets| && k < |assets[i].dependsOn| && j < |assets|
    ensures Passed(assets, j, i, k + 1)
         == if j == i then Passed(assets, j, i, k) + [assets[i].dependsOn[k]] else Passed(assets, j, i, k)
  {
    assert assets[i].dependsOn[..k + 1] == assets[i].dependsOn[..k] + [assets[i].dependsOn[k]];
  }

  lemma DegreesNext(assets: seq<Asset>, indeg: map<string, nat>, i: nat, k: nat)
    requires DistinctNames(assets) && i < |assets| && k < |assets[i].dependsOn| && DegreesAre(assets, indeg, i, k)
    requires assets[i].name in indeg
    ensures DegreesAre(assets, indeg[assets[i].name := indeg[assets[i].name] + 1], i, k + 1)
  {
    var indeg' := indeg[assets[i].name := indeg[assets[i].name] + 1];
    forall j: nat {:trigger DegreeAt(assets, indeg', j, i, k + 1)} | j < |assets|
      ensures DegreeAt(assets, indeg', j, i, k + 1)
    {
      PassedNextDependency(assets, i, k, j);
      assert DegreeAt(assets, indeg, j, i, k);
    }
  }

  lemma TimesOfAppended(s: seq<string>, x: string, y: string)
    ensures Times(s + [x], y) == Times(s, y) + if x == y then 1 else 0
  {
  }

  lemma SuccessorsNext(assets: seq<Asset>, adj: map<string, seq<string>>, i: nat, k: nat)
    requires DistinctNames(assets) && i < |assets| && k < |assets[i].dependsOn|
    requires SuccessorsAre(assets, adj, i, k) && assets[i].dependsOn[k] in adj
    ensures var dep := assets[i].dependsOn[k];
            SuccessorsAre(assets, adj[dep := adj[dep] + [assets[i].name]], i, k + 1)
  {
    var a, dep := assets[i].name, assets[i].dependsOn[k];
    var adj' := adj[dep := adj[dep] + [a]];
    forall n, j: nat {:trigger EdgesAt(assets, adj', n, j, i, k + 1)} | j < |assets|
      ensures EdgesAt(assets, adj', n, j, i, k + 1)
    {
      PassedNextDependency(assets, i, k, j);
      assert EdgesAt(assets, adj, n, j, i, k);
      if n in adj {
        TimesOfAppended(adj[n], a, assets[j].name);
        TimesOfAppended(Passed(assets, j, i, k), dep, n);
      }
    }
  }

  /** Dependency counts by name, and the assets that wait for a name. */
  datatype Graph = Graph(indeg: map<string, nat>, adj: map<string, seq<string>>)

  function NoEdges(assets: seq<Asset>): Graph {
    Graph(
      map i | 0 <= i < |assets| :: assets[i].name := 0,
      map i | 0 <= i < |assets| :: assets[i].name := [])
  }

  function AddEdge(g: Graph, a: string, dep: string): Graph {
    if a in g.indeg && dep in g.adj then
      Graph(g.indeg[a := g.indeg[a] + 1], g.adj[dep := g.adj[dep] + [a]])
    else
      g
  }

  function AddEdges(g: Graph, a: string, deps: seq<string>): Graph {
    if deps == [] then g else AddEdge(AddEdges(g, a, deps[..|deps| - 1]), a, deps[|deps| - 1])
  }

  function GraphUpTo(assets: seq<Asset>, i: nat): Graph
    requires i <= |assets|
  {
    if i == 0 then NoEdges(assets) else AddEdges(GraphUpTo(assets, i - 1), assets[i - 1].name, assets[i - 1].dependsOn)
  }

  ghost predicate Describes(assets: seq<Asset>, g: Graph, i: nat, k: nat) {
    DegreesAre(assets, g.indeg, i, k) && SuccessorsAre(assets, g.adj, i, k)
  }

  lemma NoEdgesDescribes(assets: seq<Asset>)
    ensures Describes(assets, NoEdges(assets), 0, 0)
  {
    var g := NoEdges(assets);
    forall j: nat {:trigger DegreeAt(assets, g.indeg, j, 0, 0)} | j < |assets|
      ensures DegreeAt(assets, g.indeg, j, 0, 0)
    {
    }
    forall n, j: nat {:trigger EdgesAt(assets, g.adj, n, j, 0, 0)} | j < |assets|
      ensures EdgesAt(assets, g.adj, n, j, 0, 0)
    {
    }
  }

  lemma AddEdgeDescribes(assets: seq<Asset>, g: Graph, i: nat, k: nat)
    requires DistinctNames(assets) && i < |assets| && k < |assets[i].dependsOn| && Describes(assets, g, i, k)
    requires assets[i].dependsOn[k] in g.adj
    ensures Describes(assets, AddEdge(g, assets[i].name, assets[i].dependsOn[k]), i, k + 1)
  {
    assert DegreeAt(assets, g.indeg, i, i, k);
    DegreesNext(assets, g.indeg, i, k);
    SuccessorsNext(assets, g.adj, i, k);
  }

  lemma {:induction false} AddEdgesDescribes(assets: seq<Asset>, g: Graph, i: nat, k: nat)
    requires DistinctNames(assets) && i < |assets| && k <= |assets[i].dependsOn| && Describes(assets, g, i, 0)
    requires forall d :: d in assets[i].dependsOn ==> d in g.adj
    ensures Describes(assets, AddEdges(g, assets[i].name, assets[i].dependsOn[..k]), i, k)
  {
    if k > 0 {
      var deps := assets[i].dependsOn[..k];
      assert deps[..k - 1] == assets[i].dependsOn[..k - 1];
      AddEdgesDescribes(assets, g, i, k - 1);
      AddEdgesKeepsKeys(g, assets[i].name, deps[..k - 1]);
      AddEdgeDescribes(assets, AddEdges(g, assets[i].name, deps[..k - 1]), i, k - 1);
    }
  }

  lemma DependenciesInGraph(assets: seq<Asset>, i: nat, k: nat, d: string)
    requires DependenciesKnown(assets) && i <= |assets| && k < |assets| && d in assets[k].dependsOn
    ensures d in GraphUpTo(assets, i).adj
  {
    GraphKeys(assets, i);
    assert d in Names(assets);
  }

  lemma {:induction false} AssetDescribes(assets: seq<Asset>, g: Graph, i: nat)
    requires DistinctNames(assets) && i < |assets| && Describes(assets, g, i, 0)
    requires forall d :: d in assets[i].dependsOn ==> d in g.adj
    ensures Describes(assets, AddEdges(g, assets[i].name, assets[i].dependsOn), i + 1, 0)
  {
    var deps := assets[i].dependsOn;
    AddEdgesDescribes(assets, g, i, |deps|);
    assert deps[..|deps|] == deps;
    GraphNextAsset(assets, AddEdges(g, assets[i].name, deps), i);
  }

  lemma {:induction false} GraphDescribes(assets: seq<Asset>, i: nat)
    requires DistinctNames(assets) && DependenciesKnown(assets) && i <= |assets|
    ensures Describes(assets, GraphUpTo(assets, i), i, 0)
  {
    if i == 0 {
      NoEdgesDescribes(assets);
    } else {
      GraphDescribes(assets, i - 1);
      var deps := assets[i - 1].dependsOn;
      forall d | d in deps ensures d in GraphUpTo(assets, i - 1).adj {
        DependenciesInGraph(assets, i - 1, i - 1, d);
      }
      AssetDescribes(assets, GraphUpTo(assets, i - 1), i - 1);
    }
  }

  lemma {:induction false} AddEdgesKeepsKeys(g: Graph, a: string, deps: seq<string>)
    ensures AddEdges(g, a, deps).adj.Keys == g.adj.Keys && AddEdges(g, a, deps).indeg.Keys == g.indeg.Keys
  {
    if deps != [] {
      AddEdgesKeepsKeys(g, a, deps[..|deps| - 1]);
    }
  }

  /** Only counted names wait for anything. */
  ghost predicate Closed(g: Graph) {
    forall n, m {:trigger m in g.adj[n]} :: n in g.adj && m in g.adj[n] ==> m in g.indeg
  }

  lemma {:induction false} AddEdgesClosed(g: Graph, a: string, deps: seq<string>)
    requires Closed(g)
    ensures Closed(AddEdges(g, a, deps))
  {
    if deps != [] {
      AddEdgesClosed(g, a, deps[..|deps| - 1]);
    }
  }

  lemma {:induction false} GraphClosed(assets: seq<Asset>, i: nat)
    requires i <= |assets|
    ensures Closed(GraphUpTo(assets, i))
  {
    if i > 0 {
      GraphClosed(assets, i - 1);
      AddEdgesClosed(GraphUpTo(assets, i - 1), assets[i - 1].name, assets[i - 1].dependsOn);
    }
  }

  /** Enters one asset's dependencies, up to the first unknown one. */
  method EnterDependencies(asset: Asset, g0: Graph) returns (unknown: Option<string>, g: Graph)
    requires asset.name in g0.indeg
    ensures unknown.None? ==>
              && g == AddEdges(g0, asset.name, asset.dependsOn)
              && forall d :: d in asset.dependsOn ==> d in g0.adj
    ensures unknown.Some? ==> unknown.value in asset.dependsOn && unknown.value !in g0.adj
  {
    unknown, g := None, g0;
    var deps := asset.dependsOn;
    for k := 0 to |deps|
      invariant g == AddEdges(g0, asset.name, deps[..k])
      invariant forall l :: 0 <= l < k ==> deps[l] in g0.adj
    {
      AddEdgesKeepsKeys(g0, asset.name, deps[..k]);
      if deps[k] !in g.adj {
        unknown := Some(deps[k]);
        return;
      }
      assert deps[..k + 1][..k] == deps[..k];
      g := AddEdge(g, asset.name, deps[k]);
    }
    assert deps[..|deps|] == deps;
  }

  lemma {:induction false} GraphKeys(assets: seq<Asset>, i: nat)
    requires i <= |assets|
    ensures GraphUpTo(assets, i).adj.Keys == NoEdges(assets).adj.Keys
    ensures GraphUpTo(assets, i).indeg.Keys == NoEdges(assets).indeg.Keys
  {
    if i > 0 {
      GraphKeys(assets, i - 1);
      AddEdgesKeepsKeys(GraphUpTo(assets, i - 1), assets[i - 1].name, assets[i - 1].dependsOn);
    }
  }

  lemma GraphNames(assets: seq<Asset>, i: nat)
    requires i <= |assets|
    ensures GraphUpTo(assets, i).adj.Keys == GraphUpTo(assets, i).indeg.Keys == Names(assets)
  {
    GraphKeys(assets, i);
  }

  /** The graph of all assets, or a dependency that is no asset. */
  method BuildGraph(assets: seq<Asset>) returns (unknown: Option<(string, string)>, g: Graph)
    ensures unknown.None? ==> DependenciesKnown(assets) && g == GraphUpTo(assets, |assets|)
    ensures unknown.Some? ==>
              DependsOn(assets, unknown.value.0, unknown.value.1) && unknown.value.1 !in Names(assets)
  {
    unknown, g := None, NoEdges(assets);
    for i := 0 to |assets|
      invariant g == GraphUpTo(assets, i)
      invariant forall j, d :: 0 <= j < i && d in assets[j].dependsOn ==> d in Names(assets)
    {
      GraphNames(assets, i);
      assert assets[i].name in Names(assets);
      var missing;
      missing, g := EnterDependencies(assets[i], g);
      if missing.Some? {
        unknown := Some((assets[i].name, missing.value));
        return;
      }
    }
  }

  /** Takes one unit off every successor; what reaches zero joins the queue, once. */
  method Release(indeg: map<string, nat>, successors: seq<string>)
    returns (indeg': map<string, nat>, released: seq<string>)
    requires forall m :: m in successors ==> m in indeg
    requires forall m :: m in indeg ==> Times(successors, m) <= indeg[m]
    ensures indeg'.Keys == indeg.Keys
    ensures forall m :: m in indeg ==> indeg'[m] == indeg[m] - Times(successors, m)
    ensures NoRepeats(released) && TakenInOrder(successors, released)
    ensures forall m :: m in released <==> m in indeg && indeg[m] > 0 && indeg'[m] == 0
  {
    hide TakenInOrder;
    indeg', released := indeg, [];
    NothingTaken(successors[..0]);
    for i := 0 to |successors|
      invariant indeg'.Keys == indeg.Keys
      invariant forall m :: m in indeg ==> indeg'[m] == indeg[m] as int - Times(successors[..i], m)
      invariant NoRepeats(released) && TakenInOrder(successors[..i], released)
      invariant forall m :: m in released <==> m in indeg && indeg[m] > 0 && indeg'[m] == 0
    {
      var m := successors[i];
      forall x ensures Times(successors[..i + 1], x) == Times(successors[..i], x) + if m == x then 1 else 0 {
        TimesOfNext(successors, i, x);
      }
      TimesOfPrefix(successors, i + 1, m);
      indeg' := indeg'[m := indeg'[m] - 1];
      TakenInOrderNext(successors, released, i, indeg'[m] == 0);
      if indeg'[m] == 0 {
        released := released + [m];
      }
    }
    assert successors[..|successors|] == successors;
  }

  // ---------- invariant of the main loop ----------

  ghost predicate CountedAt(assets: seq<Asset>, indeg: map<string, nat>, j: nat, done: set<string>)
    requires j < |assets|
  {
    assets[j].name in indeg && indeg[assets[j].name] == Waiting(assets[j].dependsOn, done)
  }

  ghost predicate Counted(assets: seq<Asset>, indeg: map<string, nat>, done: set<string>) {
    forall j: nat {:trigger CountedAt(assets, indeg, j, done)} :: j < |assets| ==> CountedAt(assets, indeg, j, done)
  }

  ghost predicate Queued(indeg: map<string, nat>, found: seq<string>) {
    NoRepeats(found) && forall x :: x in found <==> x in indeg && indeg[x] == 0
  }

  /** Everything found so far only depends on what stands before it. */
  ghost predicate Settled(assets: seq<Asset>, result: seq<string>) {
    forall p, j :: 0 <= p < |result| && 0 <= j < |assets| && assets[j].name == result[p] ==>
      forall d :: d in assets[j].dependsOn ==> d in result[..p]
  }

  lemma CountedStep(assets: seq<Asset>, indeg: map<string, nat>, adj: map<string, seq<string>>, done: set<string>,
                    n: string, j: nat)
    requires SuccessorsAre(assets, adj, |assets|, 0) && Counted(assets, indeg, done) && n in adj && n !in done
    requires j < |assets|
    ensures assets[j].name in indeg
    ensures indeg[assets[j].name] == Waiting(assets[j].dependsOn, done + {n}) + Times(adj[n], assets[j].name)
  {
    assert CountedAt(assets, indeg, j, done);
    assert EdgesAt(assets, adj, n, j, |assets|, 0);
    WaitingAfter(assets[j].dependsOn, done, n);
  }

  lemma CountedNext(
    assets: seq<Asset>, indeg: map<string, nat>, adj: map<string, seq<string>>, done: set<string>, n: string,
    indeg': map<string, nat>)
    requires SuccessorsAre(assets, adj, |assets|, 0) && Counted(assets, indeg, done) && n in adj && n !in done
    requires indeg'.Keys == indeg.Keys && forall m :: m in indeg ==> indeg'[m] == indeg[m] - Times(adj[n], m)
    ensures Counted(assets, indeg', done + {n})
  {
    forall j: nat {:trigger CountedAt(assets, indeg', j, done + {n})} | j < |assets|
      ensures CountedAt(assets, indeg', j, done + {n})
    {
      CountedStep(assets, indeg, adj, done, n, j);
    }
  }

  lemma EnoughToRelease(
    assets: seq<Asset>, indeg: map<string, nat>, adj: map<string, seq<string>>, done: set<string>, n: string)
    requires SuccessorsAre(assets, adj, |assets|, 0) && Counted(assets, indeg, done) && n in adj && n !in done
    requires indeg.Keys == Names(assets)
    ensures forall m :: m in indeg ==> Times(adj[n], m) <= indeg[m]
  {
    forall m | m in indeg ensures Times(adj[n], m) <= indeg[m] {
      assert m in Names(assets);
      var j :| 0 <= j < |assets| && assets[j].name == m;
      CountedStep(assets, indeg, adj, done, n, j);
    }
  }

  lemma QueuedNext(
    indeg: map<string, nat>, indeg': map<string, nat>, found: seq<string>, released: seq<string>)
    requires Queued(indeg, found) && NoRepeats(released) && indeg'.Keys == indeg.Keys
    requires forall m :: m in indeg ==> indeg'[m] <= indeg[m]
    requires forall m :: m in released <==> m in indeg && indeg[m] > 0 && indeg'[m] == 0
    ensures Queued(indeg', found + released)
  {
    forall k, l | 0 <= k < l < |found + released| ensures (found + released)[k] != (found + released)[l] {
      if k < |found| <= l {
        assert found[k] in found && released[l - |found|] in released;
      }
    }
  }

  lemma SettledNext(assets: seq<Asset>, indeg: map<string, nat>, result: seq<string>, n: string)
    requires DistinctNames(assets) && Settled(assets, result)
    requires Counted(assets, indeg, Elements(result)) && n in indeg && indeg[n] == 0
    ensures Settled(assets, result + [n])
  {
    var result' := result + [n];
    forall p, j | 0 <= p < |result'| && 0 <= j < |assets| && assets[j].name == result'[p]
      ensures forall d :: d in assets[j].dependsOn ==> d in result'[..p]
    {
      assert result'[..p] == result[..p];
      if p == |result| {
        assert CountedAt(assets, indeg, j, Elements(result));
        WaitingZero(assets[j].dependsOn, Elements(result));
        assert result[..p] == result;
      }
    }
  }

  // ---------- the order among assets that could start at the same time ----------

  function Find(assets: seq<Asset>, name: string, i: nat): (r: nat)
    requires i <= |assets|
    ensures i <= r <= |assets|
    ensures r < |assets| ==> assets[r].name == name
    ensures forall j :: i <= j < r ==> assets[j].name != name
    decreases |assets| - i
  {
    if i == |assets| || assets[i].name == name then i else Find(assets, name, i + 1)
  }

  lemma FoundByIndex(assets: seq<Asset>, j: nat)
    requires DistinctNames(assets) && j < |assets|
    ensures Find(assets, assets[j].name, 0) == j
  {
  }

  ghost function DependenciesOf(assets: seq<Asset>, x: string): seq<string> {
    var j := Find(assets, x, 0);
    if j < |assets| then assets[j].dependsOn else []
  }

  /** Where a name stands first, or the length. */
  ghost function Place(order: seq<string>, x: string): (k: nat)
    ensures k <= |order| && (k < |order| ==> order[k] == x) && (k < |order| <==> x in order)
  {
    if order == [] || order[0] == x then 0 else 1 + Place(order[1..], x)
  }

  /** How far an order has to be through before everything in the list has started. */
  ghost function Behind(order: seq<string>, deps: seq<string>): nat {
    if deps == [] then 0
    else
      var front, last := Behind(order, deps[..|deps| - 1]), Place(order, deps[|deps| - 1]) + 1;
      if front > last then front else last
  }

  /** When an asset could start: right behind the last of its dependencies. */
  ghost function ReadyAt(assets: seq<Asset>, order: seq<string>, x: string): nat {
    Behind(order, DependenciesOf(assets, x))
  }

  /** x could start before y, or at the same time and stands before y in the given list. */
  ghost predicate Sooner(assets: seq<Asset>, order: seq<string>, x: string, y: string) {
    var p, q := ReadyAt(assets, order, x), ReadyAt(assets, order, y);
    p < q || (p == q && Find(assets, x, 0) < Find(assets, y, 0))
  }

  ghost predicate InTurn(assets: seq<Asset>, order: seq<string>, found: seq<string>) {
    forall p, q :: 0 <= p < q < |found| ==> Sooner(assets, order, found[p], found[q])
  }

  lemma {:induction false} PlaceStays(order: seq<string>, n: string, x: string)
    ensures x in order ==> Place(order + [n], x) == Place(order, x)
    ensures x !in order && x == n ==> Place(order + [n], x) == |order|
  {
    if order != [] {
      assert (order + [n])[1..] == order[1..] + [n];
      if order[0] != x {
        PlaceStays(order[1..], n, x);
      }
    } else {
      assert (order + [n])[0] == n;
    }
  }

  /** Dependencies that have all started do not care for what starts next; one that starts next decides. */
  lemma {:induction false} BehindNext(order: seq<string>, n: string, deps: seq<string>)
    requires n !in order && forall d :: d in deps ==> d in order + [n]
    ensures (forall d :: d in deps ==> d in order) ==>
              Behind(order + [n], deps) == Behind(order, deps) <= |order|
    ensures Behind(order + [n], deps) <= |order| + 1
    ensures n in deps ==> Behind(order + [n], deps) == |order| + 1
  {
    if deps != [] {
      var front, last := deps[..|deps| - 1], deps[|deps| - 1];
      assert deps == front + [last];
      BehindNext(order, n, front);
      PlaceStays(order, n, last);
    }
  }

  /** Names in the order of the given list, repetitions allowed. */
  ghost predicate Listed(assets: seq<Asset>, names: seq<string>) {
    forall a, b :: 0 <= a < b < |names| ==> Find(assets, names[a], 0) <= Find(assets, names[b], 0)
  }

  ghost predicate OccursBefore(names: seq<string>, x: string, y: string) {
    exists a, b :: 0 <= a < b < |names| && names[a] == x && names[b] == y
  }

  /** What one list takes over from another, in its order. */
  ghost predicate TakenInOrder(names: seq<string>, taken: seq<string>) {
    && (forall k :: 0 <= k < |taken| ==> taken[k] in names)
    && forall k, l :: 0 <= k < l < |taken| ==> OccursBefore(names, taken[k], taken[l])
  }

  lemma NothingTaken(names: seq<string>)
    ensures TakenInOrder(names, [])
  {
  }

  lemma TakenInOrderNext(names: seq<string>, taken: seq<string>, i: nat, append: bool)
    requires i < |names| && TakenInOrder(names[..i], taken)
    ensures TakenInOrder(names[..i + 1], if append then taken + [names[i]] else taken)
  {
    var front, next := names[..i], names[..i + 1];
    var taken' := if append then taken + [names[i]] else taken;
    assert next == front + [names[i]];
    forall k, l | 0 <= k < l < |taken'| ensures OccursBefore(next, taken'[k], taken'[l]) {
      if l < |taken| {
        assert OccursBefore(front, taken[k], taken[l]);
        var a, b :| 0 <= a < b < |front| && front[a] == taken[k] && front[b] == taken[l];
        assert next[a] == taken'[k] && next[b] == taken'[l];
      } else {
        assert taken[k] in front;
        var a :| 0 <= a < |front| && front[a] == taken[k];
        assert next[a] == taken'[k] && next[i] == taken'[l];
      }
    }
  }

  /** Names of the first i assets, in their order, repetitions allowed. */
  ghost predicate ListedUpTo(assets: seq<Asset>, names: seq<string>, i: nat) {
    Listed(assets, names) && forall k :: 0 <= k < |names| ==> Find(assets, names[k], 0) < i
  }

  lemma ListedNext(assets: seq<Asset>, names: seq<string>, i: nat)
    requires DistinctNames(assets) && i < |assets| && ListedUpTo(assets, names, i + 1)
    ensures ListedUpTo(assets, names + [assets[i].name], i + 1)
  {
    FoundByIndex(assets, i);
    assert forall k :: 0 <= k < |names| ==> Find(assets, names[k], 0) <= i;
  }

  /** Everybody who waits for a name is entered in the order of the given list. */
  ghost predicate EdgesListed(assets: seq<Asset>, g: Graph, i: nat) {
    forall n :: n in g.adj ==> ListedUpTo(assets, g.adj[n], i)
  }

  lemma {:induction false} AddEdgesListed(assets: seq<Asset>, g: Graph, i: nat, deps: seq<string>)
    requires DistinctNames(assets) && i < |assets| && EdgesListed(assets, g, i + 1)
    ensures EdgesListed(assets, AddEdges(g, assets[i].name, deps), i + 1)
  {
    hide ListedUpTo;
    if deps != [] {
      AddEdgesListed(assets, g, i, deps[..|deps| - 1]);
      var before, dep := AddEdges(g, assets[i].name, deps[..|deps| - 1]), deps[|deps| - 1];
      if dep in before.adj {
        ListedNext(assets, before.adj[dep], i);
      }
    }
  }

  lemma MoreListed(assets: seq<Asset>, g: Graph, i: nat)
    requires EdgesListed(assets, g, i)
    ensures EdgesListed(assets, g, i + 1)
  {
    forall n | n in g.adj ensures ListedUpTo(assets, g.adj[n], i + 1) {
      assert ListedUpTo(assets, g.adj[n], i);
    }
  }

  lemma {:induction false} GraphListed(assets: seq<Asset>, i: nat)
    requires DistinctNames(assets) && i <= |assets|
    ensures EdgesListed(assets, GraphUpTo(assets, i), i)
  {
    if i > 0 {
      GraphListed(assets, i - 1);
      MoreListed(assets, GraphUpTo(assets, i - 1), i - 1);
      AddEdgesListed(assets, GraphUpTo(assets, i - 1), i - 1, assets[i - 1].dependsOn);
    }
  }

  lemma DifferentPlaces(assets: seq<Asset>, x: string, y: string)
    requires x in Names(assets) && x != y
    ensures Find(assets, x, 0) != Find(assets, y, 0)
  {
    var j :| 0 <= j < |assets| && assets[j].name == x;
  }

  /** What is released at once is released in the order of the given list. */
  lemma ReleasedInOrder(assets: seq<Asset>, successors: seq<string>, released: seq<string>, k: nat, l: nat)
    requires Listed(assets, successors) && TakenInOrder(successors, released) && NoRepeats(released)
    requires k < l < |released| && released[k] in Names(assets)
    ensures Find(assets, released[k], 0) < Find(assets, released[l], 0)
  {
    assert OccursBefore(successors, released[k], released[l]);
    var a, b :| 0 <= a < b < |successors| && successors[a] == released[k] && successors[b] == released[l];
    DifferentPlaces(assets, released[k], released[l]);
  }

  /** What is found has nothing left to wait for. */
  lemma DependenciesDone(assets: seq<Asset>, indeg: map<string, nat>, done: seq<string>, x: string)
    requires DistinctNames(assets) && Counted(assets, indeg, Elements(done)) && x in Names(assets)
    ensures x in indeg
    ensures indeg[x] == 0 <==> forall d :: d in DependenciesOf(assets, x) ==> d in done
  {
    var j: nat :| j < |assets| && assets[j].name == x;
    FoundByIndex(assets, j);
    assert CountedAt(assets, indeg, j, Elements(done));
    WaitingZero(assets[j].dependsOn, Elements(done));
  }

  /** Taking the next name changes nothing for what was found before. */
  lemma StaysInTurn(assets: seq<Asset>, order: seq<string>, n: string, x: string)
    requires n !in order && forall d :: d in DependenciesOf(assets, x) ==> d in order
    ensures ReadyAt(assets, order + [n], x) == ReadyAt(assets, order, x) <= |order|
  {
    BehindNext(order, n, DependenciesOf(assets, x));
  }

  lemma InTurnNext(
    assets: seq<Asset>, indeg: map<string, nat>, result: seq<string>, queue: seq<string>,
    indeg': map<string, nat>, released: seq<string>, successors: seq<string>)
    requires DistinctNames(assets) && indeg.Keys == indeg'.Keys == Names(assets)
    requires Queued(indeg, result + queue) && queue != [] && InTurn(assets, result, result + queue)
    requires Counted(assets, indeg, Elements(result)) && Counted(assets, indeg', Elements(result + [queue[0]]))
    requires NoRepeats(released) && TakenInOrder(successors, released) && ListedUpTo(assets, successors, |assets|)
    requires forall m :: m in released <==> m in indeg && indeg[m] > 0 && indeg'[m] == 0
    ensures InTurn(assets, result + [queue[0]], result + queue + released)
  {
    var n, found := queue[0], result + queue;
    var result' := result + [n];
    QueueHead(indeg, queue, result);
    forall x | x in found ensures ReadyAt(assets, result', x) == ReadyAt(assets, result, x) <= |result| {
      DependenciesDone(assets, indeg, result, x);
      StaysInTurn(assets, result, n, x);
    }
    forall x | x in released ensures ReadyAt(assets, result', x) == |result| + 1 {
      ReleasedIsReadyNow(assets, indeg, indeg', result, n, x);
    }
    forall k, l | 0 <= k < l < |released| ensures Find(assets, released[k], 0) < Find(assets, released[l], 0) {
      assert released[k] in released;
      ReleasedInOrder(assets, successors, released, k, l);
    }
    LaterOnesBehind(assets, result, result', found, released);
  }

  lemma LaterOnesBehind(
    assets: seq<Asset>, result: seq<string>, result': seq<string>, found: seq<string>, released: seq<string>)
    requires InTurn(assets, result, found)
    requires forall x :: x in found ==> ReadyAt(assets, result', x) == ReadyAt(assets, result, x) <= |result|
    requires forall x :: x in released ==> ReadyAt(assets, result', x) == |result| + 1
    requires forall k, l :: 0 <= k < l < |released| ==> Find(assets, released[k], 0) < Find(assets, released[l], 0)
    ensures InTurn(assets, result', found + released)
  {
    hide ReadyAt, Find;
    var found' := found + released;
    forall p, q | 0 <= p < q < |found'| ensures Sooner(assets, result', found'[p], found'[q]) {
      if q < |found| {
        assert Sooner(assets, result, found[p], found[q]) && found[p] in found && found[q] in found;
      } else if p < |found| {
        assert found[p] in found && released[q - |found|] in released;
      } else {
        assert released[p - |found|] in released && released[q - |found|] in released;
      }
    }
  }

  lemma ReleasedIsReadyNow(
    assets: seq<Asset>, indeg: map<string, nat>, indeg': map<string, nat>, result: seq<string>, n: string, x: string)
    requires DistinctNames(assets) && x in Names(assets) && n !in result
    requires Counted(assets, indeg, Elements(result)) && Counted(assets, indeg', Elements(result + [n]))
    requires x in indeg && x in indeg' && indeg[x] > 0 && indeg'[x] == 0
    ensures ReadyAt(assets, result + [n], x) == |result| + 1
  {
    DependenciesDone(assets, indeg, result, x);
    DependenciesDone(assets, indeg', result + [n], x);
    assert n in DependenciesOf(assets, x);
    BehindNext(result, n, DependenciesOf(assets, x));
  }

  /** Names of some of the first i assets, in their order. */
  ghost predicate InListOrder(assets: seq<Asset>, names: seq<string>, i: nat) {
    && (forall k :: 0 <= k < |names| ==> Find(assets, names[k], 0) < i)
    && forall k, l :: 0 <= k < l < |names| ==> Find(assets, names[k], 0) < Find(assets, names[l], 0)
  }

  lemma InListOrderNext(assets: seq<Asset>, names: seq<string>, i: nat, append: bool)
    requires DistinctNames(assets) && i < |assets| && InListOrder(assets, names, i)
    ensures InListOrder(assets, if append then names + [assets[i].name] else names, i + 1)
  {
    FoundByIndex(assets, i);
    assert forall k :: 0 <= k < |names| ==> Find(assets, names[k], 0) < i;
  }

  lemma {:induction false} ZeroNamesListed(assets: seq<Asset>, indeg: map<string, nat>, i: nat)
    requires DistinctNames(assets) && i <= |assets|
    ensures InListOrder(assets, ZeroNames(assets, indeg, i), i)
  {
    hide InListOrder;
    if i == 0 {
      NothingInListOrder(assets);
    } else {
      var front, name := ZeroNames(assets, indeg, i - 1), assets[i - 1].name;
      ZeroNamesListed(assets, indeg, i - 1);
      InListOrderNext(assets, front, i - 1, name in indeg && indeg[name] == 0);
      assert front + [] == front;
    }
  }

  lemma NothingInListOrder(assets: seq<Asset>)
    ensures InListOrder(assets, [], 0)
  {
  }

  lemma InTurnStarts(assets: seq<Asset>, indeg: map<string, nat>)
    requires DistinctNames(assets) && Counted(assets, indeg, {}) && indeg.Keys == Names(assets)
    ensures InTurn(assets, [], ZeroNames(assets, indeg, |assets|))
  {
    var queue := ZeroNames(assets, indeg, |assets|);
    ZeroNamesListed(assets, indeg, |assets|);
    ZeroNamesComplete(assets, indeg, |assets|);
    assert Elements<string>([]) == {};
    forall x | x in queue ensures ReadyAt(assets, [], x) == 0 {
      DependenciesDone(assets, indeg, [], x);
      assert forall d :: d !in DependenciesOf(assets, x);
    }
  }

  ghost predicate Independent(assets: seq<Asset>) {
    forall i :: 0 <= i < |assets| ==> assets[i].dependsOn == []
  }

  function NameList(assets: seq<Asset>): seq<string> {
    seq(|assets|, i requires 0 <= i < |assets| => assets[i].name)
  }

  /** Names among the first i assets whose count is zero, in order. */
  function ZeroNames(assets: seq<Asset>, indeg: map<string, nat>, i: nat): seq<string>
    requires i <= |assets|
  {
    if i == 0 then []
    else
      var name := assets[i - 1].name;
      ZeroNames(assets, indeg, i - 1) + if name in indeg && indeg[name] == 0 then [name] else []
  }

  lemma {:induction false} ZeroNamesComplete(assets: seq<Asset>, indeg: map<string, nat>, i: nat)
    requires DistinctNames(assets) && i <= |assets|
    ensures NoRepeats(ZeroNames(assets, indeg, i))
    ensures forall x :: x in ZeroNames(assets, indeg, i) <==>
              x in indeg && indeg[x] == 0 && exists j :: 0 <= j < i && assets[j].name == x
  {
    if i > 0 {
      ZeroNamesComplete(assets, indeg, i - 1);
    }
  }

  lemma {:induction false} ZeroNamesAll(assets: seq<Asset>, indeg: map<string, nat>, i: nat)
    requires i <= |assets|
    requires forall j :: 0 <= j < |assets| ==> assets[j].name in indeg && indeg[assets[j].name] == 0
    ensures ZeroNames(assets, indeg, i) == NameList(assets)[..i]
  {
    if i > 0 {
      ZeroNamesAll(assets, indeg, i - 1);
    }
  }

  /** The assets nobody has to wait for, in the order given. */
  method InitialQueue(assets: seq<Asset>, indeg: map<string, nat>) returns (queue: seq<string>)
    requires forall i :: 0 <= i < |assets| ==> assets[i].name in indeg
    ensures queue == ZeroNames(assets, indeg, |assets|)
  {
    queue := [];
    for i := 0 to |assets|
      invariant queue == ZeroNames(assets, indeg, i)
    {
      if indeg[assets[i].name] == 0 {
        queue := queue + [assets[i].name];
      }
    }
  }

  /** Invariant of the main loop: counts, queue and order found so far. */
  ghost predicate Progress(assets: seq<Asset>, indeg: map<string, nat>, queue: seq<string>, result: seq<string>) {
    && indeg.Keys == Names(assets)
    && Counted(assets, indeg, Elements(result))
    && Queued(indeg, result + queue)
    && Settled(assets, result)
    && (Independent(assets) ==> result + queue == NameList(assets))
  }

  lemma CountedStarts(assets: seq<Asset>, g: Graph)
    requires Describes(assets, g, |assets|, 0)
    ensures Counted(assets, g.indeg, {})
  {
    forall j: nat {:trigger CountedAt(assets, g.indeg, j, {})} | j < |assets|
      ensures CountedAt(assets, g.indeg, j, {})
    {
      assert DegreeAt(assets, g.indeg, j, |assets|, 0);
      WaitingForNothing(assets[j].dependsOn);
    }
  }

  lemma IndependentStarts(assets: seq<Asset>, g: Graph)
    requires Describes(assets, g, |assets|, 0) && Independent(assets)
    ensures ZeroNames(assets, g.indeg, |assets|) == NameList(assets)
  {
    forall j | 0 <= j < |assets| ensures assets[j].name in g.indeg && g.indeg[assets[j].name] == 0 {
      assert DegreeAt(assets, g.indeg, j, |assets|, 0);
    }
    ZeroNamesAll(assets, g.indeg, |assets|);
  }

  lemma {:induction false} QueuedStarts(assets: seq<Asset>, indeg: map<string, nat>)
    requires DistinctNames(assets) && indeg.Keys == Names(assets)
    ensures Queued(indeg, ZeroNames(assets, indeg, |assets|))
  {
    var queue := ZeroNames(assets, indeg, |assets|);
    ZeroNamesComplete(assets, indeg, |assets|);
    forall x ensures x in queue <==> x in indeg && indeg[x] == 0 {
      assert x in indeg <==> x in Names(assets);
    }
  }

  lemma {:induction false} ProgressStarts(assets: seq<Asset>, g: Graph)
    requires DistinctNames(assets) && Describes(assets, g, |assets|, 0) && g.indeg.Keys == Names(assets)
    ensures Progress(assets, g.indeg, ZeroNames(assets, g.indeg, |assets|), [])
  {
    assert Elements<string>([]) == {};
    CountedStarts(assets, g);
    QueuedStarts(assets, g.indeg);
    assert [] + ZeroNames(assets, g.indeg, |assets|) == ZeroNames(assets, g.indeg, |assets|);
    if Independent(assets) {
      IndependentStarts(assets, g);
    }
  }

  lemma ElementsNext(result: seq<string>, n: string)
    ensures Elements(result + [n]) == Elements(result) + {n}
  {
  }

  lemma IndependentReleasesNothing(assets: seq<Asset>, g: Graph, n: string)
    requires Describes(assets, g, |assets|, 0) && Independent(assets) && n in g.adj
    ensures forall m :: m in Names(assets) ==> Times(g.adj[n], m) == 0
  {
    forall m | m in Names(assets) ensures Times(g.adj[n], m) == 0 {
      var j: nat :| j < |assets| && assets[j].name == m;
      assert EdgesAt(assets, g.adj, n, j, |assets|, 0);
      assert assets[j].dependsOn == [];
    }
  }

  lemma QueueHead(indeg: map<string, nat>, queue: seq<string>, result: seq<string>)
    requires Queued(indeg, result + queue) && queue != []
    ensures queue[0] in indeg && indeg[queue[0]] == 0 && queue[0] !in result
  {
    assert (result + queue)[|result|] == queue[0];
    assert queue[0] in result + queue;
    assert forall k :: 0 <= k < |result| ==> (result + queue)[k] == result[k];
  }

  lemma ProgressTakes(
    assets: seq<Asset>, g: Graph, indeg: map<string, nat>, queue: seq<string>, result: seq<string>,
    indeg': map<string, nat>, released: seq<string>)
    requires DistinctNames(assets) && Describes(assets, g, |assets|, 0)
    requires Progress(assets, indeg, queue, result) && queue != [] && queue[0] in g.adj
    requires indeg'.Keys == indeg.Keys && NoRepeats(released)
    requires forall m :: m in indeg ==> indeg'[m] == indeg[m] - Times(g.adj[queue[0]], m)
    requires forall m :: m in released <==> m in indeg && indeg[m] > 0 && indeg'[m] == 0
    ensures Progress(assets, indeg', queue[1..] + released, result + [queue[0]])
  {
    var n := queue[0];
    QueueHead(indeg, queue, result);
    CountedNext(assets, indeg, g.adj, Elements(result), n, indeg');
    ElementsNext(result, n);
    QueuedNext(indeg, indeg', result + queue, released);
    assert (result + [n]) + (queue[1..] + released) == result + queue + released;
    SettledNext(assets, indeg, result, n);
    if Independent(assets) && released != [] {
      assert released[0] in released;
      IndependentReleasesNothing(assets, g, n);
    }
  }

  /** And the order among those that could start at the same time is kept. */
  lemma TurnTakes(
    assets: seq<Asset>, g: Graph, indeg: map<string, nat>, queue: seq<string>, result: seq<string>,
    indeg': map<string, nat>, released: seq<string>)
    requires DistinctNames(assets) && EdgesListed(assets, g, |assets|)
    requires Progress(assets, indeg, queue, result) && queue != [] && queue[0] in g.adj
    requires Progress(assets, indeg', queue[1..] + released, result + [queue[0]])
    requires NoRepeats(released) && TakenInOrder(g.adj[queue[0]], released)
    requires forall m :: m in released <==> m in indeg && indeg[m] > 0 && indeg'[m] == 0
    requires InTurn(assets, result, result + queue)
    ensures InTurn(assets, result + [queue[0]], (result + [queue[0]]) + (queue[1..] + released))
  {
    assert ListedUpTo(assets, g.adj[queue[0]], |assets|);
    hide InTurn, TakenInOrder, ListedUpTo, Counted, Settled, EdgesListed;
    InTurnNext(assets, indeg, result, queue, indeg', released, g.adj[queue[0]]);
    assert (result + [queue[0]]) + (queue[1..] + released) == result + queue + released;
  }

  // ---------- what the loop ends with ----------

  lemma NamesAreListed(assets: seq<Asset>)
    requires DistinctNames(assets)
    ensures Names(assets) == Elements(NameList(assets)) && NoRepeats(NameList(assets))
  {
    forall x ensures x in Names(assets) <==> x in Elements(NameList(assets)) {
      if x in Names(assets) {
        var i :| 0 <= i < |assets| && assets[i].name == x;
        assert NameList(assets)[i] == x;
      }
    }
  }

  /** With everything found, the result names an order of the assets. */
  lemma FoundAll(assets: seq<Asset>, indeg: map<string, nat>, result: seq<string>)
    requires DistinctNames(assets) && Progress(assets, indeg, [], result) && |result| == |assets|
    ensures Elements(result) == Names(assets) && NoRepeats(result)
  {
    assert result + [] == result;
    ElementCount(result);
    ElementCount(NameList(assets));
    NamesAreListed(assets);
    forall x | x in Elements(result) ensures x in Names(assets) {
      assert x in result;
    }
    SmallerIsEqual(Elements(result), Names(assets));
  }

  /** With something left, what is left waits for itself. */
  lemma LeftoverIsStuck(assets: seq<Asset>, indeg: map<string, nat>, result: seq<string>)
    requires DependenciesKnown(assets) && Progress(assets, indeg, [], result)
    ensures Stuck(assets, Names(assets) - Elements(result))
  {
    var left := Names(assets) - Elements(result);
    assert result + [] == result;
    forall x | x in left ensures WaitsWithin(assets, left, x) {
      var j: nat :| j < |assets| && assets[j].name == x;
      assert CountedAt(assets, indeg, j, Elements(result));
      assert x !in result;
      WaitingZero(assets[j].dependsOn, Elements(result));
      var y :| y in assets[j].dependsOn && y !in Elements(result);
      assert y in Names(assets);
      assert DependsOn(assets, x, y);
    }
  }

  lemma LeftoverHasCycle(assets: seq<Asset>, indeg: map<string, nat>, result: seq<string>)
    requires DistinctNames(assets) && DependenciesKnown(assets)
    requires Progress(assets, indeg, [], result) && |result| != |assets|
    ensures !Acyclic(assets)
  {
    var left := Names(assets) - Elements(result);
    LeftoverIsStuck(assets, indeg, result);
    if left == {} {
      AllFoundCount(assets, indeg, result);
    } else {
      var x :| x in left;
      assert Elements([x]) == {x};
      StuckHasCycle(assets, left, [x]);
    }
  }

  lemma AllFoundCount(assets: seq<Asset>, indeg: map<string, nat>, result: seq<string>)
    requires DistinctNames(assets) && Progress(assets, indeg, [], result)
    requires Names(assets) - Elements(result) == {}
    ensures |result| == |assets|
  {
    assert result + [] == result;
    NamesAreListed(assets);
    forall x | x in Elements(result) ensures x in Names(assets) {
      assert x in result;
    }
    forall x | x in Names(assets) ensures x in Elements(result) {
      assert x !in Names(assets) - Elements(result);
    }
    assert Elements(result) == Names(assets);
    ElementCount(result);
    ElementCount(NameList(assets));
  }

  // ---------- the method ----------

  /** The assets behind a list of their names. */
  function ByName(assets: seq<Asset>, names: seq<string>): seq<Asset>
    requires forall n :: n in names ==> Find(assets, n, 0) < |assets|
  {
    seq(|names|, p requires 0 <= p < |names| => assets[Find(assets, names[p], 0)])
  }

  lemma NameIsFound(assets: seq<Asset>, n: string)
    requires n in Names(assets)
    ensures Find(assets, n, 0) < |assets|
  {
    var j :| 0 <= j < |assets| && assets[j].name == n;
  }

  lemma {:induction false} ByNameOrdered(assets: seq<Asset>, result: seq<string>)
    requires DistinctNames(assets) && NoRepeats(result) && Elements(result) == Names(assets)
    requires Settled(assets, result)
    requires forall n :: n in result ==> Find(assets, n, 0) < |assets|
    ensures DependenciesFirst(ByName(assets, result))
    ensures multiset(ByName(assets, result)) == multiset(assets)
  {
    var order := ByName(assets, result);
    forall p, d | 0 <= p < |order| && d in order[p].dependsOn ensures NamedBefore(order, p, d) {
      var j := Find(assets, result[p], 0);
      assert d in result[..p];
      var q :| 0 <= q < p && result[..p][q] == d;
      assert order[q].name == d;
    }
    ByNamePermutes(assets, result);
  }

  lemma {:induction false} ByNamePermutes(assets: seq<Asset>, result: seq<string>)
    requires DistinctNames(assets) && NoRepeats(result) && Elements(result) == Names(assets)
    requires forall n :: n in result ==> Find(assets, n, 0) < |assets|
    ensures multiset(ByName(assets, result)) == multiset(assets)
  {
    var order := ByName(assets, result);
    assert NoRepeats(order) by {
      forall p, q | 0 <= p < q < |order| ensures order[p] != order[q] {
        assert order[p].name == result[p] && order[q].name == result[q];
      }
    }
    assert NoRepeats(assets);
    forall a ensures a in Elements(order) <==> a in Elements(assets) {
      if a in assets {
        var j :| 0 <= j < |assets| && assets[j] == a;
        assert a.name in Elements(result);
        var p :| 0 <= p < |result| && result[p] == a.name;
        FoundByIndex(assets, j);
        assert order[p] == a;
      }
    }
    SameElementsSameMultiset(order, assets);
  }

  lemma ByNameOfAll(assets: seq<Asset>, result: seq<string>)
    requires DistinctNames(assets) && result == NameList(assets)
    requires forall n :: n in result ==> Find(assets, n, 0) < |assets|
    ensures ByName(assets, result) == assets
  {
    forall j: nat | j < |assets| ensures ByName(assets, result)[j] == assets[j] {
      FoundByIndex(assets, j);
    }
  }

  /**
    Orders the assets so that dependencies come first. It succeeds exactly when every
    dependency is an asset and no dependencies form a cycle. Who could start earlier
    comes earlier, and those who could start at the same time keep the given order; so it
    is kept throughout when there are no dependencies at all.
  */
  method ToposortAssets(assets: seq<Asset>) returns (r: Ordering)
    requires DistinctNames(assets)
    ensures r.Ordered? <==> DependenciesKnown(assets) && Acyclic(assets)
    ensures r.Ordered? ==> multiset(r.assets) == multiset(assets) && DependenciesFirst(r.assets)
    ensures r.Ordered? ==> InTurn(assets, NameList(r.assets), NameList(r.assets))
    ensures r.Ordered? && Independent(assets) ==> r.assets == assets
    ensures r.UnknownDependency? ==> DependsOn(assets, r.asset, r.dependency) && r.dependency !in Names(assets)
    ensures r.Cyclic? ==> DependenciesKnown(assets) && !Acyclic(assets)
  {
    var unknown, g := BuildGraph(assets);
    if unknown.Some? {
      UnknownIsNotKnown(assets, unknown.value.0, unknown.value.1);
      return UnknownDependency(unknown.value.0, unknown.value.1);
    }
    GraphReady(assets, g);
    var indeg := g.indeg;
    var queue := InitialQueue(assets, indeg);
    var result: seq<string> := [];
    assert result + queue == queue;
    while queue != []
      invariant Progress(assets, indeg, queue, result) && InTurn(assets, result, result + queue)
      decreases |assets| - |result|
    {
      var n := queue[0];
      HeadInGraph(assets, g, indeg, queue, result);
      var released;
      ghost var before := indeg;
      indeg, released := Release(indeg, g.adj[n]);
      ProgressTakes(assets, g, before, queue, result, indeg, released);
      TurnTakes(assets, g, before, queue, result, indeg, released);
      queue, result := queue[1..] + released, result + [n];
    }
    if |result| != |assets| {
      LeftoverHasCycle(assets, indeg, result);
      return Cyclic;
    }
    assert result + queue == result;
    Finished(assets, indeg, result);
    r := Ordered(ByName(assets, result));
  }

  lemma Finished(assets: seq<Asset>, indeg: map<string, nat>, result: seq<string>)
    requires DistinctNames(assets) && Progress(assets, indeg, [], result) && |result| == |assets|
    requires InTurn(assets, result, result)
    ensures forall n :: n in result ==> Find(assets, n, 0) < |assets|
    ensures var order := ByName(assets, result);
            && multiset(order) == multiset(assets) && DependenciesFirst(order)
            && InTurn(assets, NameList(order), NameList(order))
            && (Independent(assets) ==> order == assets)
    ensures Acyclic(assets)
  {
    FoundAll(assets, indeg, result);
    forall n | n in result ensures Find(assets, n, 0) < |assets| {
      assert n in Elements(result);
      NameIsFound(assets, n);
    }
    ByNameOrdered(assets, result);
    assert result + [] == result;
    assert NameList(ByName(assets, result)) == result;
    if Independent(assets) {
      ByNameOfAll(assets, result);
    }
    OrderExcludesCycles(assets, ByName(assets, result));
  }

  lemma UnknownIsNotKnown(assets: seq<Asset>, x: string, y: string)
    requires DependsOn(assets, x, y) && y !in Names(assets)
    ensures !DependenciesKnown(assets)
  {
    var i :| 0 <= i < |assets| && assets[i].name == x && y in assets[i].dependsOn;
  }

  lemma {:induction false} GraphReady(assets: seq<Asset>, g: Graph)
    requires DistinctNames(assets) && DependenciesKnown(assets) && g == GraphUpTo(assets, |assets|)
    ensures Describes(assets, g, |assets|, 0) && Closed(g) && EdgesListed(assets, g, |assets|)
    ensures g.indeg.Keys == Names(assets) && g.adj.Keys == Names(assets)
    ensures Progress(assets, g.indeg, ZeroNames(assets, g.indeg, |assets|), [])
    ensures InTurn(assets, [], ZeroNames(assets, g.indeg, |assets|))
  {
    GraphDescribes(assets, |assets|);
    GraphKeys(assets, |assets|);
    GraphClosed(assets, |assets|);
    GraphListed(assets, |assets|);
    ProgressStarts(assets, g);
    CountedStarts(assets, g);
    InTurnStarts(assets, g.indeg);
  }

  lemma FoundFits(assets: seq<Asset>, indeg: map<string, nat>, found: seq<string>)
    requires DistinctNames(assets) && Queued(indeg, found) && indeg.Keys == Names(assets)
    ensures |found| <= |assets|
  {
    forall x | x in Elements(found) ensures x in Names(assets) {
      assert x in found;
    }
    NamesAreListed(assets);
    ElementCount(found);
    ElementCount(NameList(assets));
    SubsetSize(Elements(found), Names(assets));
  }

  lemma HeadInGraph(assets: seq<Asset>, g: Graph, indeg: map<string, nat>, queue: seq<string>, result: seq<string>)
    requires DistinctNames(assets) && Describes(assets, g, |assets|, 0) && g.adj.Keys == Names(assets)
    requires Progress(assets, indeg, queue, result) && queue != []
    ensures queue[0] in g.adj && queue[0] !in result && |result| < |assets|
    ensures forall m :: m in indeg ==> Times(g.adj[queue[0]], m) <= indeg[m]
  {
    QueueHead(indeg, queue, result);
    FoundFits(assets, indeg, result + queue);
    EnoughToRelease(assets, indeg, g.adj, Elements(result), queue[0]);
  }
}
