/**
  What loading the service table anew does to a service in use. A server does so when
  its configuration has another number of services, or when it does not find its name.
*/
module ServiceReloads {
  import opened Options
  import opened RecvEvents
  import opened ServiceTable
  import opened ServiceTableTheorems
  import opened ServiceSlots

  function LoadedAnew(t: Tables, services: Services): (t': Tables)
    ensures Fits(t) ==> Fits(t')
  {
    t.(rows := Reloaded(t.rows, services))
  }

  /** The creation of a server, reloads included. */
  function ServeOrReload(
    channels: Channels, capacity: nat, t: Tables, services: Services, serviceName: string, pid: int): Tables
    requires Fits(t)
  {
    var t' := if |t.rows| != |services| then LoadedAnew(t, services) else t;
    if |t'.rows| < SERVICE_MAX && Scan(t'.rows, serviceName) < 0 then
      DoServe(channels, capacity, LoadedAnew(t', services), serviceName, pid)
    else
      DoServe(channels, capacity, t', serviceName, pid)
  }

  /** The guards of both reloads are down. */
  predicate FindsAtOnce(t: Tables, services: Services, serviceName: string) {
    |t.rows| == |services| && (|t.rows| >= SERVICE_MAX || Scan(t.rows, serviceName) >= 0)
  }

  /**
    A server that finds its service at once is one of the calls the theorems about slots
    speak of. Any other one, whether it then finds its service or not, takes the slots
    of all clients of all services away.
  */
  lemma ServesAtOnceOrFreesAll(
    channels: Channels, capacity: nat, t: Tables, services: Services, serviceName: string, pid: int)
    requires Fits(t)
    ensures var t' := ServeOrReload(channels, capacity, t, services, serviceName, pid);
            if FindsAtOnce(t, services, serviceName) then
              t' == DoCall(channels, capacity, t, Serve(serviceName, pid))
            else
              && |t'.rows| == |services|
              && forall r :: 0 <= r < |t'.rows| ==> t'.rows[r].nextClientId == 0
  {
  }

  lemma LookUpScans(s: Shared, name: string)
    requires DistinctNames(s.rows) && (s.index == IndexOf(s.rows) || Agreeing(s))
    ensures LookUp(s, name).id == Scan(s.rows, name) && LookUp(s, name).shared.rows == s.rows
  {
    LookupAgreesIff(s.index, s.rows, name);
  }

  /** A process whose index agrees with the table finds what a scan finds. */
  lemma FindsByScan(s: Shared, services: Services, name: string)
    requires Agreeing(s) && DistinctNames(Reloaded(s.rows, services))
    requires DistinctNames(Reloaded(Reloaded(s.rows, services), services))
    ensures var rows := if |s.rows| != |services| then Reloaded(s.rows, services) else s.rows;
            var found := FindService(s, services, name);
            if |rows| >= SERVICE_MAX then
              found.shared.rows == rows && found.id == -1
            else if Scan(rows, name) >= 0 then
              found.shared.rows == rows && found.id == Scan(rows, name)
            else
              found.shared.rows == Reloaded(rows, services) && found.id == Scan(Reloaded(rows, services), name)
  {
    assert DistinctNames(s.rows);
    hide IndexOf, Scan, Reloaded, DistinctNames, Lookup, Refreshed, Agreeing;
    var s' := if |s.rows| != |services| then Reload(s, services) else s;
    LookUpScans(s', name);
    LookUpScans(Reload(s', services), name);
  }

  /** So its server is created as said above. */
  lemma ServesByLookup(
    channels: Channels, capacity: nat, t: Tables, index: map<string, nat>, services: Services, serviceName: string,
    pid: int)
    requires Fits(t) && Agreeing(Shared(t.rows, index)) && DistinctNames(Reloaded(t.rows, services))
    requires DistinctNames(Reloaded(Reloaded(t.rows, services), services))
    ensures var found := FindService(Shared(t.rows, index), services, serviceName);
            && -1 <= found.id < |found.shared.rows| && RowsFit(found.shared.rows)
            && ServeOrReload(channels, capacity, t, services, serviceName, pid)
               == if found.id < 0 then t.(rows := found.shared.rows)
                  else
                    var served := ServeFrom(
                      channels, serviceName, found.shared.rows[found.id], t.events, capacity, pid, 0);
                    Tables(found.shared.rows[found.id := served.row], served.events,
                           Grown(t.origins, |served.events|, ForServer))
  {
    hide ServeFrom, Agreeing, DistinctNames, IndexOf, Lookup, FindService;
    FindsByScan(Shared(t.rows, index), services, serviceName);
  }

  /** The configuration a table was loaded from. */
  function ConfigurationOf(rows: seq<Row>): Services {
    seq(|rows|, r requires 0 <= r < |rows| => (rows[r].serviceName, rows[r].maxClients))
  }

  lemma SlotZeroTaken(channels: Channels, t: Tables, r: nat)
    requires Sound(channels, t) && r < |t.rows| && t.rows[r].nextClientId > 0
    ensures |t.rows[r].slots| > 0
    ensures var slot, channel := t.rows[r].slots[0], RealChannel(channels, t.rows[r].serviceName, 1);
            channel >= 0 && EntryOf(t, slot.responseEvent, channel, ForClient)
  {
    assert SlotSound(channels, t, t.rows[r], 0);
  }

  lemma FreedSlotSound(channels: Channels, t: Tables, r: nat, j: nat)
    requires Sound(channels, t) && r < |t.rows| && t.rows[r].nextClientId == 0 && j < t.rows[r].maxClients
    ensures var t' := LoadedAnew(t, ConfigurationOf(t.rows));
            SlotSound(channels, t', t'.rows[r], j)
  {
    var t' := LoadedAnew(t, ConfigurationOf(t.rows));
    var channel := ResponseChannel(channels, t.rows[r], j);
    assert SlotSound(channels, t, t.rows[r], j);
    assert ResponseChannel(channels, t'.rows[r], j) == channel;
    if channel >= 0 {
      forall k ensures !EntryOf(t', k, channel, ForClient) {
        assert !EntryOf(t, k, channel, ForClient);
      }
    }
  }

  /** Loading a table again, from the very configuration it came from, does no harm exactly if it has no client. */
  lemma ReloadIsHarmlessIff(channels: Channels, t: Tables)
    requires Injective(channels) && Sound(channels, t)
    ensures Sound(channels, LoadedAnew(t, ConfigurationOf(t.rows)))
            <==> forall r :: 0 <= r < |t.rows| ==> t.rows[r].nextClientId == 0
  {
    var t' := LoadedAnew(t, ConfigurationOf(t.rows));
    if forall r :: 0 <= r < |t.rows| ==> t.rows[r].nextClientId == 0 {
      forall r | 0 <= r < |t.rows| ensures RowSound(channels, t', t'.rows[r]) {
        forall j | 0 <= j < |t'.rows[r].slots| ensures SlotSound(channels, t', t'.rows[r], j) {
          FreedSlotSound(channels, t, r, j);
        }
      }
    } else {
      var r :| 0 <= r < |t.rows| && t.rows[r].nextClientId != 0;
      SlotZeroTaken(channels, t, r);
      assert ResponseChannel(channels, t'.rows[r], 0) == RealChannel(channels, t.rows[r].serviceName, 1);
      assert EntryOf(t', t.rows[r].slots[0].responseEvent, RealChannel(channels, t.rows[r].serviceName, 1), ForClient);
      assert !SlotSound(channels, t', t'.rows[r], 0);
    }
  }

  /** With a client there, the next one gets the same slot, and both listen on its channel. */
  lemma ReloadHandsOutAgain(
    channels: Channels, capacity: nat, t: Tables, r: nat, clientName: string, pid: int)
    requires Injective(channels) && Sound(channels, t) && r < |t.rows| && t.rows[r].nextClientId > 0
    requires |t.events| < capacity && ValidNames(t.rows[r].serviceName, clientName)
    ensures var name := t.rows[r].serviceName;
            var o := DoCreate(channels, capacity, LoadedAnew(t, ConfigurationOf(t.rows)), name, clientName, pid);
            var before, now := t.rows[r].slots[0].responseEvent, |t.events|;
            && o.result == ClientOk(r, 0) && before != now
            && EntryOf(o.tables, before, RealChannel(channels, name, 1), ForClient)
            && EntryOf(o.tables, now, RealChannel(channels, name, 1), ForClient)
  {
    var t' := LoadedAnew(t, ConfigurationOf(t.rows));
    SlotZeroTaken(channels, t, r);
    assert t'.rows[r].serviceName == t.rows[r].serviceName && t'.rows[r].enabled;
    assert DistinctNames(t'.rows);
    assert Scan(t'.rows, t.rows[r].serviceName) == r;
    assert t'.rows[r].slots[0].responseChannel == 1;
  }

  /** A first client on an empty table loads it, and gets the first slot of the service it asks for. */
  lemma FirstClientFillsTable(
    channels: Channels, index: map<string, nat>, services: Services, i: nat, events: Table, capacity: nat, pid: int,
    name: string)
    requires i < |services| && services[i].1 > 0
    requires forall j, k :: 0 <= j < k < |services| ==> services[j].0 != services[k].0
    requires RealChannel(channels, services[i].0, 1) >= 0 && |events| < capacity
    ensures var found := LookUp(Filled(Shared([], index), services), services[i].0);
            && found.id == i < |found.shared.rows|
            && var created := CreateClient(
                 channels, services[i].0, found.shared.rows[i], events, capacity, pid, name);
               && created.client == Some(0)
               && created.row.slots[0].enabled && created.row.slots[0].clientName == name
               && created.row.slots[0].responseEvent == |events|
               && created.events
                  == events + [Entry(true, false, false, pid, RealChannel(channels, services[i].0, 1), false)]
  {
    var rows := Reloaded([], services);
    assert rows[i].serviceName in IndexOf(rows) && rows[i].slots[0].responseChannel == 1;
    assert forall j :: 0 <= j < |rows| ==> rows[j].serviceName == services[j].0;
  }
}
