/**
  Creating clients and servers: exactly when it works, what it leaves in the service
  table and among the receive events, and that a client that comes back gets its slot.
*/
module ServiceCreation {
  import opened Options
  import opened RecvEvents
  import opened ServiceTable

  /** The service has a channel of this id. */
  predicate HasChannel(channels: Channels, serviceName: string, id: int) {
    (serviceName, id) in channels && channels[(serviceName, id)] >= 0
  }

  /** An entry that listens on the channel for a process, with nothing to read yet. */
  function Listener(pid: int, channel: int): Entry {
    Entry(true, false, false, pid, channel, false)
  }

  // ---------- clients ----------

  /** Some slot handed out has the name, and j is the first. */
  predicate FirstNamed(row: Row, name: string, j: nat)
    requires row.nextClientId <= |row.slots|
  {
    && j < row.nextClientId && row.slots[j].enabled && row.slots[j].clientName == name
    && forall k :: 0 <= k < j ==> !(row.slots[k].enabled && row.slots[k].clientName == name)
  }

  predicate Unnamed(row: Row, name: string)
    requires row.nextClientId <= |row.slots|
  {
    forall k :: 0 <= k < row.nextClientId ==> !(row.slots[k].enabled && row.slots[k].clientName == name)
  }

  lemma NamesThatFit(serviceName: string, clientName: string)
    ensures ValidNames(serviceName, clientName) <==>
            serviceName != "" && clientName != "" && |serviceName| <= 128 && |clientName| <= 64
  {
  }

  /**
    A client of a known name gets its slot again exactly if somebody listens on the
    slot's channel. The first who does is from now on this process, with nothing to read;
    nothing else changes.
  */
  lemma KnownClientRejoins(
    channels: Channels, serviceName: string, row: Row, events: Table, capacity: nat, pid: int, name: string, j: nat)
    requires row.nextClientId <= row.maxClients == |row.slots| && FirstNamed(row, name, j)
    ensures var created := CreateClient(channels, serviceName, row, events, capacity, pid, name);
            var id := row.slots[j].responseChannel;
            && created.row == row
            && (created.client == Some(j) <==>
                  && HasChannel(channels, serviceName, id)
                  && exists e :: 0 <= e < |events| && events[e].ListensOn(channels[(serviceName, id)]))
            && (created.client != Some(j) ==> created.client == None && created.events == events)
            && (created.client == Some(j) ==>
                  && |created.events| == |events|
                  && forall e :: 0 <= e < |events| ==>
                       created.events[e] ==
                       if FirstAny(events, channels[(serviceName, id)]) == e then
                         events[e].(recvFlag := false, procId := pid, callback := false)
                       else events[e])
  {
  }

  /**
    A client of a new name is created exactly if a slot is left, the slot has a channel
    and the event table has room. It gets the next slot and an entry of its own.
  */
  lemma NewClientJoins(
    channels: Channels, serviceName: string, row: Row, events: Table, capacity: nat, pid: int, name: string)
    requires row.nextClientId <= row.maxClients == |row.slots| && Unnamed(row, name)
    ensures var created := CreateClient(channels, serviceName, row, events, capacity, pid, name);
            var next := row.nextClientId;
            if next < row.maxClients && HasChannel(channels, serviceName, row.slots[next].responseChannel)
               && |events| < capacity then
              && created.client == Some(next)
              && FirstNamed(created.row, name, next)
              && created.row.nextClientId == next + 1
              && created.row.slots[next].responseEvent == |events|
              && created.row.slots[next].responseChannel == row.slots[next].responseChannel
              && (forall k :: 0 <= k < |row.slots| && k != next ==> created.row.slots[k] == row.slots[k])
              && created.events
                 == events + [Listener(pid, channels[(serviceName, row.slots[next].responseChannel)])]
            else
              created == Created(row, events, None)
  {
  }

  /**
    Once created, a client comes back to the same slot from any process, even when no
    slot is left and the event table is full, and no slot changes by that.
  */
  lemma ClientComesBack(
    channels: Channels, serviceName: string, row: Row, events: Table, capacity: nat, pid: int, name: string,
    capacity': nat, pid': int)
    requires row.nextClientId <= row.maxClients == |row.slots|
    requires CreateClient(channels, serviceName, row, events, capacity, pid, name).client.Some?
    ensures var created := CreateClient(channels, serviceName, row, events, capacity, pid, name);
            var again := CreateClient(channels, serviceName, created.row, created.events, capacity', pid', name);
            && again.client == created.client && again.row == created.row
            && |again.events| == |created.events|
  {
    var created := CreateClient(channels, serviceName, row, events, capacity, pid, name);
    var j := created.client.value;
    if FindClient(row, name, 0) == row.nextClientId {
      NewClientJoins(channels, serviceName, row, events, capacity, pid, name);
      var entry := created.events[|events|];
      assert entry.ListensOn(channels[(serviceName, row.slots[j].responseChannel)]);
    } else {
      KnownClientRejoins(channels, serviceName, row, events, capacity, pid, name, j);
      var c := channels[(serviceName, row.slots[j].responseChannel)];
      var e :| 0 <= e < |events| && events[e].ListensOn(c);
      assert created.events[e].ListensOn(c);
    }
    KnownClientRejoins(channels, serviceName, created.row, created.events, capacity', pid', name, j);
  }

  // ---------- servers ----------

  lemma {:induction false} ServesUpTo(
    channels: Channels, serviceName: string, row: Row, events: Table, capacity: nat, pid: int, j: nat)
    requires j <= row.maxClients == |row.slots| && |events| <= capacity
    ensures var served := ServeFrom(channels, serviceName, row, events, capacity, pid, j);
            var n := |served.events| - |events|;
            && 0 <= n <= row.maxClients - j && |served.events| <= capacity
            && (forall k :: j <= k < j + n ==> HasChannel(channels, serviceName, 2 * k))
            && (served.complete <==> j + n == row.maxClients)
            && (!served.complete ==>
                  !HasChannel(channels, serviceName, 2 * (j + n)) || |served.events| == capacity)
    decreases row.maxClients - j
  {
    if j < row.maxClients && HasChannel(channels, serviceName, 2 * j) && |events| < capacity {
      var slot := row.slots[j].(requestChannel := 2 * j, requestEvent := |events|);
      ServesUpTo(
        channels, serviceName, row.(slots := row.slots[j := slot]),
        Registered(events, pid, channels[(serviceName, 2 * j)], false), capacity, pid, j + 1);
    }
  }

  lemma {:induction false} ServedSlots(
    channels: Channels, serviceName: string, row: Row, events: Table, capacity: nat, pid: int, j: nat)
    requires j <= row.maxClients == |row.slots|
    ensures var served := ServeFrom(channels, serviceName, row, events, capacity, pid, j);
            var n := |served.events| - |events|;
            && 0 <= n <= row.maxClients - j && served.events[..|events|] == events
            && (forall k :: j <= k < j + n ==>
                  && served.events[|events| + k - j] == Listener(pid, RealChannel(channels, serviceName, 2 * k))
                  && served.row.slots[k]
                     == row.slots[k].(requestChannel := 2 * k, requestEvent := |events| + k - j))
            && (forall k :: 0 <= k < |row.slots| && !(j <= k < j + n) ==> served.row.slots[k] == row.slots[k])
    decreases row.maxClients - j
  {
    if j < row.maxClients && HasChannel(channels, serviceName, 2 * j) && |events| < capacity {
      var slot := row.slots[j].(requestChannel := 2 * j, requestEvent := |events|);
      var row' := row.(slots := row.slots[j := slot]);
      var events' := Registered(events, pid, channels[(serviceName, 2 * j)], false);
      ServedSlots(channels, serviceName, row', events', capacity, pid, j + 1);
      var served := ServeFrom(channels, serviceName, row', events', capacity, pid, j + 1);
      assert served == ServeFrom(channels, serviceName, row, events, capacity, pid, j);
      hide ServeFrom;
      assert served.events[..|events|] == served.events[..|events'|][..|events|];
      assert served.events[|events|] == served.events[..|events'|][|events|];
    }
  }

  /**
    Creating a server listens on the request channels slot by slot and stops at the
    first that does not exist or has no room in the event table. Every slot served
    names its own new entry, and no other slot changes.
  */
  lemma ServerListens(channels: Channels, serviceName: string, row: Row, events: Table, capacity: nat, pid: int)
    requires row.maxClients == |row.slots| && |events| <= capacity
    ensures var served := ServeFrom(channels, serviceName, row, events, capacity, pid, 0);
            var n := |served.events| - |events|;
            && 0 <= n <= row.maxClients && served.events[..|events|] == events
            && (forall k :: 0 <= k < n ==>
                  && HasChannel(channels, serviceName, 2 * k)
                  && served.events[|events| + k] == Listener(pid, channels[(serviceName, 2 * k)])
                  && served.row.slots[k] == row.slots[k].(requestChannel := 2 * k, requestEvent := |events| + k))
            && (forall k :: n <= k < |row.slots| ==> served.row.slots[k] == row.slots[k])
            && (n < row.maxClients ==> !HasChannel(channels, serviceName, 2 * n) || |events| + n == capacity)
  {
    ServesUpTo(channels, serviceName, row, events, capacity, pid, 0);
    ServedSlots(channels, serviceName, row, events, capacity, pid, 0);
    hide ServeFrom;
    var served := ServeFrom(channels, serviceName, row, events, capacity, pid, 0);
    forall k | 0 <= k < |served.events| - |events|
      ensures HasChannel(channels, serviceName, 2 * k)
      ensures served.events[|events| + k] == Listener(pid, channels[(serviceName, 2 * k)]) {
      assert HasChannel(channels, serviceName, 2 * k) && |events| + k - 0 == |events| + k;
      assert served.row.slots[k].requestEvent == |events| + k;
    }
  }

  /** A server is created exactly if all request channels exist and the event table has room for them. */
  lemma ServerIsCreatedIff(
    channels: Channels, serviceName: string, row: Row, events: Table, capacity: nat, pid: int)
    requires row.maxClients == |row.slots| && |events| <= capacity
    ensures ServeFrom(channels, serviceName, row, events, capacity, pid, 0).complete <==>
            && |events| + row.maxClients <= capacity
            && forall k :: 0 <= k < row.maxClients ==> HasChannel(channels, serviceName, 2 * k)
  {
    ServesUpTo(channels, serviceName, row, events, capacity, pid, 0);
  }

  /**
    A server's service is found exactly if the configuration is below the limit and has
    the name, or the table has as many services as it and this process's lookup succeeds.
  */
  lemma ServiceIsFoundIff(s: Shared, services: Services, name: string)
    ensures FindService(s, services, name).id >= 0 <==>
            && |services| < 1024
            && ((|s.rows| == |services| && Lookup(s.index, s.rows, name) >= 0)
                || exists i :: 0 <= i < |services| && services[i].0 == name)
  {
    var loaded := Reloaded(s.rows, services);
    LoadedHasNames(s.rows, services, name);
    LoadedHasNames(loaded, services, name);
  }

  lemma LoadedHasNames(rows: seq<Row>, services: Services, name: string)
    ensures name in IndexOf(Reloaded(rows, services)) <==> exists i :: 0 <= i < |services| && services[i].0 == name
  {
    var loaded := Reloaded(rows, services);
    if name in IndexOf(loaded) {
      assert services[IndexOf(loaded)[name]].0 == name;
    }
    if i :| 0 <= i < |services| && services[i].0 == name {
      assert loaded[i].serviceName == name;
    }
  }

  // ---------- the table they start from ----------

  /** A table loaded for the first time: free slots without names or entries, and channel ids in turn. */
  lemma LoadedSlots(services: Services, i: nat, j: nat)
    requires i < |services| && j < services[i].1
    ensures var rows := Reloaded([], services);
            && |rows| == |services| && rows[i].enabled
            && rows[i].serviceName == services[i].0 && rows[i].maxClients == |rows[i].slots| == services[i].1
            && rows[i].nextClientId == 0
            && rows[i].slots[j] == Slot(false, "", 2 * j, 0, 2 * j + 1, 0)
  {
  }
}
