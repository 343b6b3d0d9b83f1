/**
  What the service table promises: exactly when the name index agrees with the table,
  how the slots of a service are handed out, and exactly when a service channel has the
  one listener that the RPC protocol relies on.
*/
module ServiceTableTheorems {
  import opened RecvEvents
  import opened ServiceTable
  import Events = RecvEventTheorems

  // ---------- looking up a name ----------

  predicate DistinctNames(rows: seq<Row>) {
    forall i, j :: 0 <= i < j < |rows| && rows[i].enabled && rows[j].enabled ==>
      rows[i].serviceName != rows[j].serviceName
  }

  predicate Cached(index: map<string, nat>, rows: seq<Row>, name: string) {
    name in index && index[name] < |rows| && rows[index[name]].enabled && rows[index[name]].serviceName == name
  }

  /**
    A lookup agrees with a scan of the shared table, hit or miss, if and only if the
    cached row of the name, where there is one, still carries that name.
  */
  lemma LookupAgreesIff(index: map<string, nat>, rows: seq<Row>, name: string)
    requires DistinctNames(rows)
    ensures Lookup(index, rows, name) == Scan(rows, name) <==> (name in index ==> Cached(index, rows, name))
  {
    var r := Scan(rows, name);
    var m := IndexOf(rows);
    assert name in m ==> r >= 0 && m[name] == r;
    assert r >= 0 ==> rows[r].serviceName in m;
  }

  /**
    What happens to the table and to one process's index over time: rows added, rows
    rewritten, lookups of this process, and reloads of the whole table from a
    configuration, by this process or by another one that knows nothing of this index.
  */
  datatype TableOp =
    | RowAdded(row: Row)
    | RowChanged(r: nat, row: Row)
    | LookedUp(name: string)
    | ReloadedHere(services: Services)
    | ReloadedElsewhere(services: Services)

  function ApplyOp(s: Shared, op: TableOp): Shared {
    match op
    case RowAdded(row) => s.(rows := s.rows + [row])
    case RowChanged(r, row) => if r < |s.rows| then s.(rows := s.rows[r := row]) else s
    case LookedUp(name) => LookUp(s, name).shared
    case ReloadedHere(services) => Reload(s, services)
    case ReloadedElsewhere(services) => s.(rows := Reloaded(s.rows, services))
  }

  function ApplyOps(s: Shared, ops: seq<TableOp>): Shared {
    if ops == [] then s else ApplyOp(ApplyOps(s, ops[..|ops| - 1]), ops[|ops| - 1])
  }

  ghost predicate Agreeing(s: Shared) {
    && DistinctNames(s.rows)
    && forall name :: name in s.index ==> Cached(s.index, s.rows, name)
  }

  /** Names stay distinct and a rewritten row keeps its name: slots do change. */
  ghost predicate KeepsNames(s: Shared, op: TableOp) {
    match op
    case RowAdded(row) => row.enabled && Scan(s.rows, row.serviceName) < 0
    case RowChanged(r, row) =>
      r < |s.rows| && s.rows[r].enabled && row.enabled && row.serviceName == s.rows[r].serviceName
    case LookedUp(_) => true
    case ReloadedHere(services) => DistinctNames(Reloaded(s.rows, services))
    case ReloadedElsewhere(_) => false
  }

  ghost predicate AllKeepNames(s: Shared, ops: seq<TableOp>) {
    forall k :: 0 <= k < |ops| ==> KeepsNames(ApplyOps(s, ops[..k]), ops[k])
  }

  lemma ApplyOpAgrees(s: Shared, op: TableOp)
    requires Agreeing(s) && KeepsNames(s, op)
    ensures Agreeing(ApplyOp(s, op))
  {
    var s' := ApplyOp(s, op);
    forall name | name in s'.index ensures Cached(s'.index, s'.rows, name) {
      if name in s.index {
        assert Cached(s.index, s.rows, name);
      }
    }
  }

  /**
    Index agreement: as long as no other process reloads the table, the next lookup
    finds what a scan of the shared table finds, rows added by other processes since
    the last rebuild included.
  */
  lemma {:induction false} IndexAgrees(rows: seq<Row>, ops: seq<TableOp>, name: string)
    requires DistinctNames(rows) && AllKeepNames(Shared(rows, map[]), ops)
    ensures Agreeing(ApplyOps(Shared(rows, map[]), ops))
    ensures var s := ApplyOps(Shared(rows, map[]), ops);
            Lookup(s.index, s.rows, name) == Scan(s.rows, name)
  {
    var start := Shared(rows, map[]);
    if ops != [] {
      var ops' := ops[..|ops| - 1];
      assert forall k :: 0 <= k <= |ops'| ==> ops'[..k] == ops[..k];
      IndexAgrees(rows, ops', name);
      assert ops[..|ops'|] == ops';
      ApplyOpAgrees(ApplyOps(start, ops'), ops[|ops'|]);
    }
    var s := ApplyOps(start, ops);
    LookupAgreesIff(s.index, s.rows, name);
  }

  /** Where the last rebuild of this process's index found the name: -1 if there was none or it did not. */
  function PlaceKnown(s: Shared, ops: seq<TableOp>, name: string): int {
    if ops == [] then -1
    else
      var before, op := ops[..|ops| - 1], ops[|ops| - 1];
      match op
      case LookedUp(other) =>
        if other in ApplyOps(s, before).index then PlaceKnown(s, before, name)
        else Scan(ApplyOps(s, before).rows, name)
      case ReloadedHere(_) => Scan(ApplyOps(s, ops).rows, name)
      case _ => PlaceKnown(s, before, name)
  }

  ghost predicate AlwaysDistinct(s: Shared, ops: seq<TableOp>) {
    forall k :: 0 <= k <= |ops| ==> DistinctNames(ApplyOps(s, ops[..k]).rows)
  }

  predicate HoldsPlace(index: map<string, nat>, name: string, place: int) {
    if name in index then index[name] == place else place == -1
  }

  lemma IndexFindsPlaces(rows: seq<Row>, name: string)
    requires DistinctNames(rows)
    ensures HoldsPlace(IndexOf(rows), name, Scan(rows, name))
  {
    var r := Scan(rows, name);
    assert r >= 0 ==> rows[r].serviceName in IndexOf(rows);
  }

  lemma {:induction false} IndexHoldsPlaceKnown(s: Shared, ops: seq<TableOp>, name: string)
    requires s.index == map[] && AlwaysDistinct(s, ops)
    ensures HoldsPlace(ApplyOps(s, ops).index, name, PlaceKnown(s, ops, name))
  {
    hide IndexOf, Scan, DistinctNames, Reloaded;
    if ops != [] {
      var before := ops[..|ops| - 1];
      assert forall k :: 0 <= k <= |before| ==> before[..k] == ops[..k];
      IndexHoldsPlaceKnown(s, before, name);
      assert ops[..|before|] == before && ops[..|ops|] == ops;
      assert DistinctNames(ApplyOps(s, before).rows) && DistinctNames(ApplyOps(s, ops).rows);
      IndexFindsPlaces(ApplyOps(s, before).rows, name);
      IndexFindsPlaces(ApplyOps(s, ops).rows, name);
    }
  }

  /**
    Over any operations, reloads by others included, a lookup agrees with a scan exactly
    if a scan now finds the name where the last rebuild found it, or that did not.
  */
  lemma IndexAgreesIff(rows: seq<Row>, ops: seq<TableOp>, name: string)
    requires AlwaysDistinct(Shared(rows, map[]), ops)
    ensures var s, place := ApplyOps(Shared(rows, map[]), ops), PlaceKnown(Shared(rows, map[]), ops, name);
            Lookup(s.index, s.rows, name) == Scan(s.rows, name) <==> place == -1 || place == Scan(s.rows, name)
  {
    assert ops[..|ops|] == ops;
    IndexHoldsPlaceKnown(Shared(rows, map[]), ops, name);
    IndexFindsPlaces(ApplyOps(Shared(rows, map[]), ops).rows, name);
  }

  /** It does move: after a lookup here, a reload with another service elsewhere leaves a wrong hit. */
  lemma ReloadLeavesStaleHit(known: string, other: string, max: nat)
    requires known != other
    ensures var start := Shared(Reloaded([], [(known, max)]), map[]);
            var s := ApplyOps(start, [LookedUp(known), ReloadedElsewhere([(other, max)])]);
            && Lookup(start.index, start.rows, known) == 0
            && Lookup(s.index, s.rows, known) == 0 && Scan(s.rows, known) == -1
            && s.rows == Reloaded(start.rows, [(other, max)])
  {
    var rows := Reloaded([], [(known, max)]);
    var others := Reloaded(rows, [(other, max)]);
    var ops := [LookedUp(known), ReloadedElsewhere([(other, max)])];
    var start := Shared(rows, map[]);
    assert rows[0].serviceName in IndexOf(rows) && IndexOf(rows)[known] == 0;
    assert ops[..1] == [LookedUp(known)] && ops[..1][..0] == [];
    assert ApplyOps(start, ops[..1]) == Shared(rows, IndexOf(rows));
    assert ApplyOps(start, ops) == Shared(others, IndexOf(rows));
    assert others[0].serviceName == other;
  }

  /** A client created through that hit gets a slot of the other service, but listens on a channel of its own. */
  lemma StaleHitMixesServices(
    channels: Channels, known: string, other: string, max: nat, events: Table, capacity: nat, pid: int, name: string)
    requires known != other && max > 0 && RealChannel(channels, known, 1) >= 0 && |events| < capacity
    ensures var start := Shared(Reloaded([], [(known, max)]), map[]);
            var s := ApplyOps(start, [LookedUp(known), ReloadedElsewhere([(other, max)])]);
            var row := Reloaded(start.rows, [(other, max)])[0];
            var created := CreateClient(channels, known, row, events, capacity, pid, name);
            && Lookup(s.index, s.rows, known) == 0 && s.rows == [row]
            && created.client.Some? && created.client.value == 0
            && created.row.serviceName == other && created.row.slots[0].clientName == name
            && created.events == Registered(events, pid, RealChannel(channels, known, 1), false)
  {
    ReloadLeavesStaleHit(known, other, max);
  }

  // ---------- the tables and who registered what ----------

  /** Why an entry was registered. No code reads it: the theorems speak about it. */
  datatype Origin = ForServer | ForClient | ByApplication

  datatype Tables = Tables(rows: seq<Row>, events: Table, origins: seq<Origin>)

  /** Calls of any processes. Applications may register on any channel, service channels included. */
  datatype Call =
    | Create(serviceName: string, clientName: string, pid: int)
    | Serve(serviceName: string, pid: int)
    | Other(op: Events.Op)

  /** What one call returns, with the tables it leaves. */
  datatype Outcome = Outcome(tables: Tables, result: ClientResult)

  predicate Fits(t: Tables) {
    RowsFit(t.rows) && |t.origins| == |t.events|
  }

  function Grown(origins: seq<Origin>, n: nat, origin: Origin): (r: seq<Origin>)
    ensures |origins| <= n ==> |r| == n
  {
    if n <= |origins| then origins else origins + seq(n - |origins|, _ => origin)
  }

  /** A client creation, with the row its lookup found. */
  function CreateAt(
    channels: Channels, capacity: nat, t: Tables, id: int, serviceName: string, clientName: string, pid: int): Outcome
    requires Fits(t) && id < |t.rows|
  {
    if !ValidNames(serviceName, clientName) || id < 0 then
      Outcome(t, ClientFailed)
    else
      var created := CreateClient(channels, serviceName, t.rows[id], t.events, capacity, pid, clientName);
      Outcome(
        Tables(t.rows[id := created.row], created.events, Grown(t.origins, |created.events|, ForClient)),
        if created.client.Some? then ClientOk(id, created.client.value) else ClientFailed)
  }

  function DoCreate(
    channels: Channels, capacity: nat, t: Tables, serviceName: string, clientName: string, pid: int): Outcome
    requires Fits(t)
  {
    CreateAt(channels, capacity, t, Scan(t.rows, serviceName), serviceName, clientName, pid)
  }

  function DoServe(channels: Channels, capacity: nat, t: Tables, serviceName: string, pid: int): Tables
    requires Fits(t)
  {
    var id := Scan(t.rows, serviceName);
    if |t.rows| >= SERVICE_MAX || id < 0 then t
    else
      var served := ServeFrom(channels, serviceName, t.rows[id], t.events, capacity, pid, 0);
      Tables(t.rows[id := served.row], served.events, Grown(t.origins, |served.events|, ForServer))
  }

  /** A registration fails on an invalid channel and on a full table; nothing else stops it. */
  predicate Registers(t: Tables, capacity: nat, call: Call, c: int) {
    call.Other? && call.op.Register? && call.op.channel == c && c >= 0 && |t.events| < capacity
  }

  function DoOther(capacity: nat, t: Tables, op: Events.Op): Tables {
    if op.Register? && !(op.channel >= 0 && |t.events| < capacity) then t
    else
      var events := Events.Apply(t.events, op);
      t.(events := events, origins := Grown(t.origins, |events|, ByApplication))
  }

  function DoCall(channels: Channels, capacity: nat, t: Tables, call: Call): Tables
    requires Fits(t)
  {
    match call
    case Create(serviceName, clientName, pid) => DoCreate(channels, capacity, t, serviceName, clientName, pid).tables
    case Serve(serviceName, pid) => DoServe(channels, capacity, t, serviceName, pid)
    case Other(op) => DoOther(capacity, t, op)
  }

  /** The entries of the table before are all still there, enabled and on their channels. */
  ghost predicate Extends(before: Table, after: Table) {
    && |before| <= |after|
    && forall k :: 0 <= k < |before| ==> after[k].enabled == before[k].enabled && after[k].channel == before[k].channel
  }

  /** And the origins go on with one and the same. */
  ghost predicate ExtendsBy(t: Tables, t': Tables, origin: Origin) {
    && |t.origins| == |t.events| && |t'.origins| == |t'.events|
    && Extends(t.events, t'.events)
    && t'.origins == Grown(t.origins, |t'.events|, origin)
  }

  lemma {:induction false} ServeExtends(channels: Channels, row: Row, events: Table, capacity: nat, pid: int, j: nat)
    requires j <= row.maxClients == |row.slots|
    ensures Extends(events, ServeFrom(channels, row.serviceName, row, events, capacity, pid, j).events)
    decreases row.maxClients - j
  {
    var channel := RealChannel(channels, row.serviceName, 2 * j);
    if j < row.maxClients && channel >= 0 && |events| < capacity {
      var slot := row.slots[j].(requestChannel := 2 * j, requestEvent := |events|);
      ServeExtends(channels, row.(slots := row.slots[j := slot]), Registered(events, pid, channel, false),
                   capacity, pid, j + 1);
    }
  }

  lemma UpdateExtends(events: Table, pid: int, channel: int, callback: bool)
    ensures Extends(events, Updated(events, pid, channel, callback))
  {
  }

  lemma OtherExtends(events: Table, op: Events.Op)
    ensures Extends(events, Events.Apply(events, op))
  {
    forall e: nat | e < |events|
      ensures e < |Events.Apply(events, op)| && Events.Apply(events, op)[e].enabled == events[e].enabled
              && Events.Apply(events, op)[e].channel == events[e].channel
    {
      Events.AppendOnly(events, op, e);
    }
    if events == [] {
      assert |events| <= |Events.Apply(events, op)|;
    } else {
      Events.AppendOnly(events, op, |events| - 1);
    }
  }

  function OriginOf(call: Call): Origin {
    match call case Create(_, _, _) => ForClient case Serve(_, _) => ForServer case Other(_) => ByApplication
  }

  /** No call takes anything out of the tables. */
  lemma CallExtends(channels: Channels, capacity: nat, t: Tables, call: Call)
    requires Fits(t)
    ensures Fits(DoCall(channels, capacity, t, call))
    ensures ExtendsBy(t, DoCall(channels, capacity, t, call), OriginOf(call))
    ensures |DoCall(channels, capacity, t, call).rows| == |t.rows|
  {
    match call
    case Create(serviceName, clientName, pid) =>
      var id := Scan(t.rows, serviceName);
      if ValidNames(serviceName, clientName) && id >= 0 {
        var existing := FindClient(t.rows[id], clientName, 0);
        if existing < t.rows[id].nextClientId {
          UpdateExtends(t.events, pid, ResponseChannel(channels, t.rows[id], existing), false);
        }
      }
    case Serve(serviceName, pid) =>
      var id := Scan(t.rows, serviceName);
      if id >= 0 {
        ServeExtends(channels, t.rows[id], t.events, capacity, pid, 0);
      }
    case Other(op) =>
      OtherExtends(t.events, op);
  }

  function ResponseChannel(channels: Channels, row: Row, j: nat): int
    requires j < |row.slots|
  {
    RealChannel(channels, row.serviceName, row.slots[j].responseChannel)
  }

  function DoCalls(channels: Channels, capacity: nat, t: Tables, calls: seq<Call>): (r: Tables)
    requires Fits(t)
    ensures Fits(r) && |r.rows| == |t.rows|
  {
    if calls == [] then t
    else
      var before := DoCalls(channels, capacity, t, calls[..|calls| - 1]);
      CallExtends(channels, capacity, before, calls[|calls| - 1]);
      DoCall(channels, capacity, before, calls[|calls| - 1])
  }
}
