/**
  The shared service table: one row for each service, one slot for each client. A name
  index in every process speeds up lookups; slots are handed out in order and keep
  their receive events.
*/
module ServiceTable {
  import opened Options
  import opened RecvEvents

  const SERVICE_NAME_MAX: nat := 128
  const CLIENT_NAME_MAX: nat := 64
  const SERVICE_MAX: nat := 1024

  datatype Slot = Slot(
    enabled: bool, clientName: string, requestChannel: int, requestEvent: int, responseChannel: int,
    responseEvent: int)

  datatype Row = Row(enabled: bool, serviceName: string, maxClients: nat, nextClientId: nat, slots: seq<Slot>)

  /** Channel ids of a service alternate: even for requests, odd for responses. */
  function FreshSlot(j: nat): Slot {
    Slot(false, "", 2 * j, 0, 2 * j + 1, 0)
  }

  /** The real channel behind a service's channel id; -1 when there is none. */
  type Channels = map<(string, int), int>

  function RealChannel(channels: Channels, serviceName: string, id: int): int {
    if (serviceName, id) in channels then channels[(serviceName, id)] else -1
  }

  // ---------- looking up a service ----------

  /** Index of the enabled row of a name, or -1. */
  function Scan(rows: seq<Row>, name: string): (r: int)
    ensures -1 <= r < |rows|
    ensures r >= 0 ==> rows[r].enabled && rows[r].serviceName == name
    ensures r < 0 ==> forall i :: 0 <= i < |rows| ==> !(rows[i].enabled && rows[i].serviceName == name)
  {
    if rows == [] then -1
    else
      var last := |rows| - 1;
      if rows[last].enabled && rows[last].serviceName == name then last else Scan(rows[..last], name)
  }

  /** The index of all enabled rows; a later row wins over an earlier one of the same name. */
  function IndexOf(rows: seq<Row>): (m: map<string, nat>)
    ensures forall name :: name in m ==>
              m[name] < |rows| && rows[m[name]].enabled && rows[m[name]].serviceName == name
    ensures forall i :: 0 <= i < |rows| && rows[i].enabled ==> rows[i].serviceName in m
  {
    if rows == [] then map[]
    else
      var last := |rows| - 1;
      if rows[last].enabled then IndexOf(rows[..last])[rows[last].serviceName := last] else IndexOf(rows[..last])
  }

  function Refreshed(index: map<string, nat>, rows: seq<Row>, name: string): map<string, nat> {
    if name in index then index else IndexOf(rows)
  }

  function Lookup(index: map<string, nat>, rows: seq<Row>, name: string): int {
    var index' := Refreshed(index, rows, name);
    if name in index' then index'[name] else -1
  }

  // ---------- loading the table from a configuration ----------

  /** A configured service: its name and how many clients it has room for. */
  type Services = seq<(string, nat)>

  /** The table, and the index that one process has of it. */
  datatype Shared = Shared(rows: seq<Row>, index: map<string, nat>)

  /** Loading a table frees its slots; what they remember of receive events stays. */
  function ReloadedRow(rows: seq<Row>, i: nat, service: (string, nat)): (row: Row)
    ensures row.enabled && row.serviceName == service.0 && row.maxClients == service.1 == |row.slots|
    ensures row.nextClientId == 0
    ensures forall j :: 0 <= j < |row.slots| ==>
                          && !row.slots[j].enabled
                          && row.slots[j].requestChannel == 2 * j && row.slots[j].responseChannel == 2 * j + 1
  {
    var slots := seq(service.1, (j: nat) =>
      if i < |rows| && j < |rows[i].slots| then
        rows[i].slots[j].(enabled := false, requestChannel := 2 * j, responseChannel := 2 * j + 1)
      else FreshSlot(j));
    Row(true, service.0, service.1, 0, slots)
  }

  function Reloaded(rows: seq<Row>, services: Services): seq<Row> {
    seq(|services|, i requires 0 <= i < |services| => ReloadedRow(rows, i, services[i]))
  }

  function Reload(s: Shared, services: Services): Shared {
    var rows := Reloaded(s.rows, services);
    Shared(rows, IndexOf(rows))
  }

  /** What a process has in hand once it has looked for a service. */
  datatype Found = Found(shared: Shared, id: int)

  function LookUp(s: Shared, name: string): Found {
    Found(s.(index := Refreshed(s.index, s.rows, name)), Lookup(s.index, s.rows, name))
  }

  /**
    A server looks for its service: a table with another number of services is loaded
    anew at once, and one without the name after the first try.
  */
  function FindService(s: Shared, services: Services, name: string): Found {
    var s' := if |s.rows| != |services| then Reload(s, services) else s;
    if |s'.rows| >= SERVICE_MAX then Found(s', -1)
    else
      var found := LookUp(s', name);
      if found.id >= 0 then found else LookUp(Reload(found.shared, services), name)
  }

  /** A client loads the table only if it is empty. */
  function Filled(s: Shared, services: Services): Shared {
    if s.rows == [] then Reload(s, services) else s
  }

  // ---------- creating a client ----------

  /** Index of the slot that already carries the name, or `nextClientId`. */
  function FindClient(row: Row, name: string, i: nat): (r: nat)
    requires i <= row.nextClientId <= |row.slots|
    ensures i <= r <= row.nextClientId
    ensures r < row.nextClientId ==> row.slots[r].enabled && row.slots[r].clientName == name
    ensures forall j :: i <= j < r ==> !(row.slots[j].enabled && row.slots[j].clientName == name)
    decreases row.nextClientId - i
  {
    if i == row.nextClientId then i
    else if row.slots[i].enabled && row.slots[i].clientName == name then i
    else FindClient(row, name, i + 1)
  }

  datatype ClientResult = ClientFailed | ClientOk(service: nat, client: nat)

  datatype Created = Created(row: Row, events: Table, client: Option<nat>)

  predicate ValidNames(serviceName: string, clientName: string) {
    0 < |serviceName| <= SERVICE_NAME_MAX && 0 < |clientName| <= CLIENT_NAME_MAX
  }

  function NamedSlot(slot: Slot, name: string, event: int): Slot {
    slot.(enabled := true, clientName := name, responseEvent := event)
  }

  /** A returning client takes over the receive event of its channel, under the service name it was given. */
  function Rejoin(
    channels: Channels, serviceName: string, row: Row, events: Table, pid: int, client: nat): Created
    requires client < |row.slots|
  {
    var channel := RealChannel(channels, serviceName, row.slots[client].responseChannel);
    if channel >= 0 && FirstAny(events, channel) < |events| then
      Created(row, Updated(events, pid, channel, false), Some(client))
    else
      Created(row, events, None)
  }

  /** A new client gets the next slot and a receive event of its own. */
  function Join(
    channels: Channels, serviceName: string, row: Row, events: Table, capacity: nat, pid: int, name: string): Created
    requires row.nextClientId <= row.maxClients == |row.slots|
  {
    var client := row.nextClientId;
    if client >= row.maxClients then
      Created(row, events, None)
    else
      var channel := RealChannel(channels, serviceName, row.slots[client].responseChannel);
      if channel >= 0 && |events| < capacity then
        Created(
          row.(slots := row.slots[client := NamedSlot(row.slots[client], name, |events|)], nextClientId := client + 1),
          Registered(events, pid, channel, false),
          Some(client))
      else
        Created(row, events, None)
  }

  function CreateClient(
    channels: Channels, serviceName: string, row: Row, events: Table, capacity: nat, pid: int, name: string)
    : (r: Created)
    requires row.nextClientId <= row.maxClients == |row.slots|
    ensures r.row.nextClientId <= r.row.maxClients == |r.row.slots| == |row.slots|
    ensures r.row.serviceName == row.serviceName && r.row.enabled == row.enabled
  {
    var existing := FindClient(row, name, 0);
    if existing < row.nextClientId then
      Rejoin(channels, serviceName, row, events, pid, existing)
    else
      Join(channels, serviceName, row, events, capacity, pid, name)
  }

  // ---------- creating a server ----------

  datatype Served = Served(row: Row, events: Table, complete: bool)

  /** Listens on the request channels from slot j on; the first that cannot be had ends it. */
  function ServeFrom(
    channels: Channels, serviceName: string, row: Row, events: Table, capacity: nat, pid: int, j: nat): (r: Served)
    requires j <= row.maxClients == |row.slots|
    ensures r.row.nextClientId == row.nextClientId && |r.row.slots| == |row.slots|
    ensures r.row.maxClients == row.maxClients && r.row.serviceName == row.serviceName && r.row.enabled == row.enabled
    decreases row.maxClients - j
  {
    var channel := RealChannel(channels, serviceName, 2 * j);
    if j == row.maxClients then
      Served(row, events, true)
    else if channel >= 0 && |events| < capacity then
      var slot := row.slots[j].(requestChannel := 2 * j, requestEvent := |events|);
      ServeFrom(channels, serviceName, row.(slots := row.slots[j := slot]), Registered(events, pid, channel, false),
                capacity, pid, j + 1)
    else
      Served(row, events, false)
  }

  predicate RowsFit(rows: seq<Row>) {
    forall i :: 0 <= i < |rows| ==> rows[i].nextClientId <= rows[i].maxClients == |rows[i].slots|
  }

  /** One process's view of the shared tables. */
  class ServiceRegistry {
    const channels: Channels
    const events: RecvEventTable
    const services: Services
    var rows: seq<Row>
    var index: map<string, nat>

    function View(): Shared
      reads this
    {
      Shared(rows, index)
    }

    ghost predicate Valid()
      reads this, events
    {
      events.Valid() && RowsFit(rows) && forall name :: name in index ==> index[name] < |rows|
    }

    constructor (channels: Channels, events: RecvEventTable, services: Services, rows: seq<Row>)
      requires events.Valid() && RowsFit(rows)
      ensures Valid() && View() == Shared(rows, map[])
      ensures this.channels == channels && this.events == events && this.services == services
    {
      this.channels := channels;
      this.events := events;
      this.services := services;
      this.rows := rows;
      index := map[];
    }

    method RebuildIndex()
      requires Valid()
      modifies this`index
      ensures Valid() && index == IndexOf(rows)
    {
      var rebuilt: map<string, nat> := map[];
      for i := 0 to |rows|
        invariant rebuilt == IndexOf(rows[..i])
        invariant forall name :: name in rebuilt ==> rebuilt[name] < i
      {
        assert rows[..i + 1][..i] == rows[..i];
        if rows[i].enabled {
          rebuilt := rebuilt[rows[i].serviceName := i];
        }
      }
      assert rows[..|rows|] == rows;
      index := rebuilt;
    }

    method SetServiceData()
      requires Valid()
      modifies this
      ensures Valid() && View() == Reload(old(View()), services)
    {
      var loaded: seq<Row> := [];
      for i := 0 to |services|
        invariant |loaded| == i && rows == old(rows)
        invariant forall k :: 0 <= k < i ==> loaded[k] == ReloadedRow(rows, k, services[k])
      {
        loaded := loaded + [ReloadedRow(rows, i, services[i])];
      }
      assert loaded == Reloaded(rows, services);
      rows, index := loaded, map[];
      RebuildIndex();
    }

    method GetServiceId(name: string) returns (id: int)
      requires Valid()
      modifies this`index
      ensures Valid() && Found(View(), id) == LookUp(old(View()), name)
      ensures -1 <= id < |rows|
    {
      if name !in index {
        RebuildIndex();
      }
      id := if name in index then index[name] else -1;
    }

    method FindExisting(row: Row, name: string) returns (i: nat)
      requires row.nextClientId <= |row.slots|
      ensures i == FindClient(row, name, 0)
    {
      i := 0;
      while i < row.nextClientId && !(row.slots[i].enabled && name == row.slots[i].clientName)
        invariant i <= row.nextClientId && FindClient(row, name, 0) == FindClient(row, name, i)
      {
        i := i + 1;
      }
    }

    method CreateServiceClient(serviceName: string, clientName: string, pid: int) returns (r: ClientResult)
      requires Valid()
      modifies this, events, events.entries
      ensures Valid()
      ensures var filled := Filled(old(View()), services);
              if !ValidNames(serviceName, clientName) then
                r == ClientFailed && View() == filled && events.View() == old(events.View())
              else
                var found := LookUp(filled, serviceName);
                && index == found.shared.index
                && if found.id < 0 then
                     r == ClientFailed && rows == filled.rows && events.View() == old(events.View())
                   else
                     var created := CreateClient(
                       channels, serviceName, filled.rows[found.id], old(events.View()), events.capacity, pid,
                       clientName);
                     && rows == filled.rows[found.id := created.row]
                     && events.View() == created.events
                     && r == if created.client.Some? then ClientOk(found.id, created.client.value) else ClientFailed
    {
      if |rows| == 0 {
        SetServiceData();
      }
      if |serviceName| == 0 || |clientName| == 0
         || |serviceName| > SERVICE_NAME_MAX || |clientName| > CLIENT_NAME_MAX {
        return ClientFailed;
      }
      var id := GetServiceId(serviceName);
      if id < 0 {
        return ClientFailed;
      }
      r := TakeSlot(id, serviceName, clientName, pid);
    }

    /** What a client creation does once it has found the service. */
    method TakeSlot(id: nat, serviceName: string, clientName: string, pid: int) returns (r: ClientResult)
      requires Valid() && id < |rows|
      modifies this`rows, events, events.entries
      ensures Valid()
      ensures var created := CreateClient(
                channels, serviceName, old(rows)[id], old(events.View()), events.capacity, pid, clientName);
              && rows == old(rows)[id := created.row]
              && events.View() == created.events
              && r == if created.client.Some? then ClientOk(id, created.client.value) else ClientFailed
    {
      var row := rows[id];
      var existing := FindExisting(row, clientName);
      if existing < row.nextClientId {
        var channel := RealChannel(channels, serviceName, row.slots[existing].responseChannel);
        var ok, _ := events.Update(pid, channel, false);
        assert rows == rows[id := row];
        if !ok {
          return ClientFailed;
        }
        return ClientOk(id, existing);
      }
      assert rows == rows[id := row];
      if row.nextClientId >= row.maxClients {
        return ClientFailed;
      }
      var client := row.nextClientId;
      var channel := RealChannel(channels, serviceName, row.slots[client].responseChannel);
      var ok, event := events.Register(pid, channel, false);
      if !ok {
        return ClientFailed;
      }
      rows := rows[id := row.(
        slots := row.slots[client := NamedSlot(row.slots[client], clientName, event)],
        nextClientId := client + 1)];
      return ClientOk(id, client);
    }

    method CreateService(serviceName: string, pid: int) returns (service: int)
      requires Valid()
      modifies this, events, events.entries
      ensures Valid()
      ensures var found := FindService(old(View()), services, serviceName);
              && index == found.shared.index
              && if found.id < 0 then
                   service == -1 && rows == found.shared.rows && events.View() == old(events.View())
                 else
                   var served := ServeFrom(
                     channels, serviceName, found.shared.rows[found.id], old(events.View()), events.capacity, pid, 0);
                   && rows == found.shared.rows[found.id := served.row]
                   && events.View() == served.events
                   && service == if served.complete then found.id else -1
    {
      if |rows| != |services| {
        SetServiceData();
      }
      if |rows| >= SERVICE_MAX {
        return -1;
      }
      service := GetServiceId(serviceName);
      if service < 0 {
        SetServiceData();
        service := GetServiceId(serviceName);
        if service < 0 {
          return;
        }
      }
      var complete := ListenOnRequests(service, serviceName, pid);
      if !complete {
        service := -1;
      }
    }

    /** The loop over the slots that ends the creation of a server. */
    method ListenOnRequests(id: nat, serviceName: string, pid: int) returns (complete: bool)
      requires Valid() && id < |rows|
      modifies this`rows, events, events.entries
      ensures Valid()
      ensures var served := ServeFrom(
                channels, serviceName, old(rows)[id], old(events.View()), events.capacity, pid, 0);
              && rows == old(rows)[id := served.row]
              && events.View() == served.events
              && complete == served.complete
    {
      ghost var served := ServeFrom(channels, serviceName, rows[id], events.View(), events.capacity, pid, 0);
      assert rows == rows[id := rows[id]];
      for j := 0 to rows[id].maxClients
        invariant Valid() && id < |rows| == |old(rows)|
        invariant j <= rows[id].maxClients == old(rows)[id].maxClients == |rows[id].slots|
        invariant rows == old(rows)[id := rows[id]]
        invariant served == ServeFrom(channels, serviceName, rows[id], events.View(), events.capacity, pid, j)
      {
        var row := rows[id];
        var ok, event := events.Register(pid, RealChannel(channels, serviceName, 2 * j), false);
        if !ok {
          return false;
        }
        var slot := row.slots[j].(requestChannel := 2 * j, requestEvent := event);
        rows := rows[id := row.(slots := row.slots[j := slot])];
      }
      complete := true;
    }
  }
}
