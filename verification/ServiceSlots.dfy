/**
  The slots of a service over any calls of any processes: how they are handed out, and
  exactly when a service channel has the one listener that the RPC protocol relies on.
*/
module ServiceSlots {
  import opened RecvEvents
  import opened ServiceTable
  import opened ServiceTableTheorems

  /** Entry k listens on the channel and was registered for this reason. */
  predicate EntryOf(t: Tables, k: int, channel: int, origin: Origin) {
    0 <= k < |t.events| && k < |t.origins| && t.events[k].ListensOn(channel) && t.origins[k] == origin
  }

  ghost predicate SlotSound(channels: Channels, t: Tables, row: Row, j: nat)
    requires j < |row.slots|
  {
    var slot, channel := row.slots[j], ResponseChannel(channels, row, j);
    && slot.requestChannel == 2 * j && slot.responseChannel == 2 * j + 1
    && (slot.enabled <==> j < row.nextClientId)
    && (if slot.enabled then
          && channel >= 0 && EntryOf(t, slot.responseEvent, channel, ForClient)
          && forall k :: EntryOf(t, k, channel, ForClient) ==> k == slot.responseEvent
        else
          channel >= 0 ==> forall k :: !EntryOf(t, k, channel, ForClient))
  }

  predicate NamesDistinct(row: Row)
    requires row.nextClientId <= |row.slots|
  {
    forall j, k :: 0 <= j < k < row.nextClientId ==> row.slots[j].clientName != row.slots[k].clientName
  }

  ghost predicate RowSound(channels: Channels, t: Tables, row: Row) {
    && row.enabled
    && row.nextClientId <= row.maxClients == |row.slots|
    && NamesDistinct(row)
    && forall j :: 0 <= j < |row.slots| ==> SlotSound(channels, t, row, j)
  }

  /** A channel of some service: 0 for requests, 1 for responses. */
  ghost predicate IsServiceChannel(channels: Channels, c: int, parity: int) {
    c >= 0 && exists key :: key in channels && channels[key] == c && key.1 % 2 == parity
  }

  /** Servers listen on request channels only, clients on response channels only. */
  ghost predicate Typed(channels: Channels, t: Tables) {
    forall k :: 0 <= k < |t.origins| == |t.events| ==>
      && (t.origins[k] == ForServer ==> IsServiceChannel(channels, t.events[k].channel, 0))
      && (t.origins[k] == ForClient ==> IsServiceChannel(channels, t.events[k].channel, 1))
  }

  ghost predicate Sound(channels: Channels, t: Tables) {
    && Fits(t) && DistinctNames(t.rows) && Typed(channels, t)
    && forall r :: 0 <= r < |t.rows| ==> RowSound(channels, t, t.rows[r])
  }

  /** Different channel ids of different services are different real channels. */
  predicate Injective(channels: Channels) {
    forall k, l :: k in channels && l in channels && channels[k] == channels[l] && channels[k] >= 0 ==> k == l
  }

  // ---------- every call keeps the slots sound ----------

  /** The rows differ in what serving them records, at most. */
  predicate RowLike(row: Row, row': Row) {
    && row'.enabled == row.enabled && row'.serviceName == row.serviceName
    && row'.nextClientId == row.nextClientId && row'.maxClients == row.maxClients && |row'.slots| == |row.slots|
    && forall j :: 0 <= j < |row.slots| ==>
                     row'.slots[j] == row.slots[j].(requestEvent := row'.slots[j].requestEvent)
  }

  lemma {:induction false} ServeKeepsRow(
    channels: Channels, row: Row, events: Table, capacity: nat, pid: int, j: nat)
    requires j <= row.maxClients == |row.slots|
    requires forall i :: 0 <= i < |row.slots| ==> row.slots[i].requestChannel == 2 * i
    ensures RowLike(row, ServeFrom(channels, row.serviceName, row, events, capacity, pid, j).row)
    decreases row.maxClients - j
  {
    var channel := RealChannel(channels, row.serviceName, 2 * j);
    if j < row.maxClients && channel >= 0 && |events| < capacity {
      var slot := row.slots[j].(requestChannel := 2 * j, requestEvent := |events|);
      ServeKeepsRow(channels, row.(slots := row.slots[j := slot]), Registered(events, pid, channel, false),
                    capacity, pid, j + 1);
    }
  }

  /** Which client entries there are does not change by calls that add none. */
  lemma ClientEntriesStay(t: Tables, t': Tables, origin: Origin, k: int, channel: int)
    requires ExtendsBy(t, t', origin) && (origin != ForClient || |t'.events| == |t.events|)
    ensures EntryOf(t', k, channel, ForClient) <==> EntryOf(t, k, channel, ForClient)
  {
  }

  lemma RowKept(channels: Channels, t: Tables, t': Tables, origin: Origin, row: Row, row': Row)
    requires RowSound(channels, t, row) && RowLike(row, row')
    requires ExtendsBy(t, t', origin) && (origin != ForClient || |t'.events| == |t.events|)
    ensures RowSound(channels, t', row')
  {
    forall j | 0 <= j < |row.slots| ensures SlotSound(channels, t', row', j) {
      assert SlotSound(channels, t, row, j);
      forall k ensures EntryOf(t', k, ResponseChannel(channels, row, j), ForClient)
                  <==> EntryOf(t, k, ResponseChannel(channels, row, j), ForClient) {
        ClientEntriesStay(t, t', origin, k, ResponseChannel(channels, row, j));
      }
    }
  }

  lemma SameRow(row: Row)
    ensures RowLike(row, row)
  {
  }

  lemma OtherRowsKept(channels: Channels, t: Tables, t': Tables, origin: Origin, id: nat)
    requires Sound(channels, t) && id < |t.rows| && Fits(t')
    requires |t'.rows| == |t.rows| && t'.rows == t.rows[id := t'.rows[id]] && RowLike(t.rows[id], t'.rows[id])
    requires ExtendsBy(t, t', origin) && (origin != ForClient || |t'.events| == |t.events|)
    requires Typed(channels, t')
    ensures Sound(channels, t')
  {
    forall q | 0 <= q < |t.rows| ensures RowSound(channels, t', t'.rows[q]) {
      SameRow(t.rows[q]);
      RowKept(channels, t, t', origin, t.rows[q], t'.rows[q]);
    }
  }

  lemma TypedKept(channels: Channels, t: Tables, t': Tables, origin: Origin)
    requires Typed(channels, t) && ExtendsBy(t, t', origin)
    requires forall k :: |t.events| <= k < |t'.events| ==>
                           && (origin == ForServer ==> IsServiceChannel(channels, t'.events[k].channel, 0))
                           && (origin == ForClient ==> IsServiceChannel(channels, t'.events[k].channel, 1))
    ensures Typed(channels, t')
  {
  }

  lemma ChannelOfService(channels: Channels, name: string, id: int)
    requires RealChannel(channels, name, id) >= 0
    ensures IsServiceChannel(channels, RealChannel(channels, name, id), id % 2)
  {
    assert (name, id) in channels;
  }

  /** The entries a server registers listen on its request channels, slot by slot. */
  lemma {:induction false} ServeListens(
    channels: Channels, row: Row, events: Table, capacity: nat, pid: int, j: nat, k: nat)
    requires j <= row.maxClients == |row.slots|
    requires |events| <= k < |ServeFrom(channels, row.serviceName, row, events, capacity, pid, j).events|
    ensures var entry := ServeFrom(channels, row.serviceName, row, events, capacity, pid, j).events[k];
            var i := j + (k - |events|);
            && entry.enabled && i < row.maxClients
            && entry.channel == RealChannel(channels, row.serviceName, 2 * i) >= 0
    decreases row.maxClients - j
  {
    var channel := RealChannel(channels, row.serviceName, 2 * j);
    var row' := row.(slots := row.slots[j := row.slots[j].(requestChannel := 2 * j, requestEvent := |events|)]);
    var more := Registered(events, pid, channel, false);
    if k == |events| {
      ServeExtends(channels, row', more, capacity, pid, j + 1);
    } else {
      ServeListens(channels, row', more, capacity, pid, j + 1, k);
    }
  }

  lemma ServesOnRequestChannels(channels: Channels, row: Row, events: Table, capacity: nat, pid: int)
    requires row.maxClients == |row.slots|
    ensures var events' := ServeFrom(channels, row.serviceName, row, events, capacity, pid, 0).events;
            forall k :: |events| <= k < |events'| ==> IsServiceChannel(channels, events'[k].channel, 0)
  {
    var events' := ServeFrom(channels, row.serviceName, row, events, capacity, pid, 0).events;
    forall k | |events| <= k < |events'| ensures IsServiceChannel(channels, events'[k].channel, 0) {
      ServeListens(channels, row, events, capacity, pid, 0, k);
      ChannelOfService(channels, row.serviceName, 2 * (k - |events|));
      assert 2 * (k - |events|) % 2 == 0;
    }
  }

  /** Two services never share a real channel. */
  lemma ChannelsApart(channels: Channels, t: Tables, r: nat, q: nat, j: nat, k: nat)
    requires Injective(channels) && Sound(channels, t) && r < |t.rows| && q < |t.rows|
    requires j < |t.rows[r].slots| && k < |t.rows[q].slots| && (r != q || j != k)
    requires ResponseChannel(channels, t.rows[r], j) >= 0
    ensures ResponseChannel(channels, t.rows[r], j) != ResponseChannel(channels, t.rows[q], k)
  {
    assert SlotSound(channels, t, t.rows[r], j) && SlotSound(channels, t, t.rows[q], k);
    assert r != q ==> t.rows[r].serviceName != t.rows[q].serviceName;
  }

  /** What a new client's registration adds. */
  lemma JoinAdds(channels: Channels, t: Tables, capacity: nat, id: nat, pid: int, name: string, t': Tables)
    requires Sound(channels, t) && id < |t.rows|
    requires var r := Join(channels, t.rows[id].serviceName, t.rows[id], t.events, capacity, pid, name);
             r.client.Some? && t' == Tables(t.rows[id := r.row], r.events, Grown(t.origins, |r.events|, ForClient))
    ensures var row := t.rows[id];
            var channel := ResponseChannel(channels, row, row.nextClientId);
            && channel >= 0 && |t'.events| == |t.events| + 1 && ExtendsBy(t, t', ForClient)
            && EntryOf(t', |t.events|, channel, ForClient)
            && forall k, c :: EntryOf(t', k, c, ForClient) <==>
                                EntryOf(t, k, c, ForClient) || (k == |t.events| && c == channel)
  {
  }

  /** A slot other than the new client's keeps its listeners. */
  lemma OtherSlotKept(channels: Channels, t: Tables, t': Tables, q: nat, j: nat, channel: int)
    requires Sound(channels, t) && q < |t.rows| && j < |t.rows[q].slots|
    requires forall k, c :: EntryOf(t', k, c, ForClient) <==>
                              EntryOf(t, k, c, ForClient) || (k == |t.events| && c == channel)
    requires ResponseChannel(channels, t.rows[q], j) != channel
    ensures SlotSound(channels, t', t.rows[q], j)
  {
    assert SlotSound(channels, t, t.rows[q], j);
  }

  lemma JoinedRowSound(channels: Channels, t: Tables, capacity: nat, id: nat, pid: int, name: string, t': Tables)
    requires Injective(channels) && Sound(channels, t) && id < |t.rows|
    requires FindClient(t.rows[id], name, 0) == t.rows[id].nextClientId
    requires var r := Join(channels, t.rows[id].serviceName, t.rows[id], t.events, capacity, pid, name);
             r.client.Some? && t' == Tables(t.rows[id := r.row], r.events, Grown(t.origins, |r.events|, ForClient))
    ensures RowSound(channels, t', t'.rows[id])
  {
    var row, row' := t.rows[id], t'.rows[id];
    var client := row.nextClientId;
    JoinAdds(channels, t, capacity, id, pid, name, t');
    forall j | 0 <= j < |row.slots| ensures SlotSound(channels, t', row', j) {
      assert SlotSound(channels, t, row, j);
      if j != client {
        ChannelsApart(channels, t, id, id, client, j);
        OtherSlotKept(channels, t, t', id, j, ResponseChannel(channels, row, client));
      }
    }
    forall j | 0 <= j < client ensures row.slots[j].clientName != name {
      assert SlotSound(channels, t, row, j);
    }
  }

  lemma JoinSound(channels: Channels, t: Tables, capacity: nat, id: nat, pid: int, name: string, t': Tables)
    requires Injective(channels) && Sound(channels, t) && id < |t.rows|
    requires FindClient(t.rows[id], name, 0) == t.rows[id].nextClientId
    requires var r := Join(channels, t.rows[id].serviceName, t.rows[id], t.events, capacity, pid, name);
             r.client.Some? && t' == Tables(t.rows[id := r.row], r.events, Grown(t.origins, |r.events|, ForClient))
    ensures Sound(channels, t')
  {
    var row := t.rows[id];
    var client := row.nextClientId;
    JoinAdds(channels, t, capacity, id, pid, name, t');
    JoinedRowSound(channels, t, capacity, id, pid, name, t');
    assert SlotSound(channels, t, row, client);
    ChannelOfService(channels, row.serviceName, 2 * client + 1);
    TypedKept(channels, t, t', ForClient);
    forall q | 0 <= q < |t.rows| && q != id ensures RowSound(channels, t', t'.rows[q]) {
      forall j | 0 <= j < |t.rows[q].slots| ensures SlotSound(channels, t', t.rows[q], j) {
        ChannelsApart(channels, t, id, q, client, j);
        OtherSlotKept(channels, t, t', q, j, ResponseChannel(channels, row, client));
      }
    }
  }

  lemma CreateSound(channels: Channels, capacity: nat, t: Tables, serviceName: string, clientName: string, pid: int)
    requires Injective(channels) && Sound(channels, t)
    ensures Sound(channels, DoCreate(channels, capacity, t, serviceName, clientName, pid).tables)
  {
    var t', id := DoCreate(channels, capacity, t, serviceName, clientName, pid).tables, Scan(t.rows, serviceName);
    CallExtends(channels, capacity, t, Create(serviceName, clientName, pid));
    if ValidNames(serviceName, clientName) && id >= 0 {
      var row := t.rows[id];
      var joined := Join(channels, row.serviceName, row, t.events, capacity, pid, clientName);
      if FindClient(row, clientName, 0) == row.nextClientId && joined.client.Some? {
        JoinSound(channels, t, capacity, id, pid, clientName, t');
      } else {
        SameRow(row);
        TypedKept(channels, t, t', ForClient);
        OtherRowsKept(channels, t, t', ForClient, id);
      }
    }
  }

  lemma ServeSound(channels: Channels, capacity: nat, t: Tables, serviceName: string, pid: int)
    requires Sound(channels, t)
    ensures Sound(channels, DoServe(channels, capacity, t, serviceName, pid))
  {
    var t', id := DoServe(channels, capacity, t, serviceName, pid), Scan(t.rows, serviceName);
    CallExtends(channels, capacity, t, Serve(serviceName, pid));
    if |t.rows| < SERVICE_MAX && id >= 0 {
      forall i | 0 <= i < |t.rows[id].slots| ensures t.rows[id].slots[i].requestChannel == 2 * i {
        assert SlotSound(channels, t, t.rows[id], i);
      }
      ServeKeepsRow(channels, t.rows[id], t.events, capacity, pid, 0);
      ServesOnRequestChannels(channels, t.rows[id], t.events, capacity, pid);
      assert t'.events == ServeFrom(channels, t.rows[id].serviceName, t.rows[id], t.events, capacity, pid, 0).events;
      TypedKept(channels, t, t', ForServer);
      OtherRowsKept(channels, t, t', ForServer, id);
    }
  }

  lemma OtherSound(channels: Channels, capacity: nat, t: Tables, op: Events.Op)
    requires Sound(channels, t)
    ensures Sound(channels, DoOther(capacity, t, op))
  {
    var t' := DoOther(capacity, t, op);
    CallExtends(channels, capacity, t, Other(op));
    TypedKept(channels, t, t', ByApplication);
    forall q | 0 <= q < |t.rows| ensures RowSound(channels, t', t.rows[q]) {
      SameRow(t.rows[q]);
      RowKept(channels, t, t', ByApplication, t.rows[q], t.rows[q]);
    }
  }

  lemma CallSound(channels: Channels, capacity: nat, t: Tables, call: Call)
    requires Injective(channels) && Sound(channels, t)
    ensures Sound(channels, DoCall(channels, capacity, t, call))
  {
    match call
    case Create(serviceName, clientName, pid) => CreateSound(channels, capacity, t, serviceName, clientName, pid);
    case Serve(serviceName, pid) => ServeSound(channels, capacity, t, serviceName, pid);
    case Other(op) => OtherSound(channels, capacity, t, op);
  }

  /** Nobody listens on a channel of the service. */
  ghost predicate Unheard(channels: Channels, t: Tables, row: Row) {
    forall k, id :: 0 <= k < |t.events| && (row.serviceName, id) in channels && channels[(row.serviceName, id)] >= 0 ==>
                      !t.events[k].ListensOn(channels[(row.serviceName, id)])
  }

  /** Tables as the configuration sets them up, before anybody listens on a service channel. */
  ghost predicate FreshTables(channels: Channels, t: Tables) {
    && Fits(t) && DistinctNames(t.rows)
    && (forall k :: 0 <= k < |t.origins| ==> t.origins[k] == ByApplication)
    && forall r :: 0 <= r < |t.rows| ==>
                     && t.rows[r] == ReloadedRow([], r, (t.rows[r].serviceName, t.rows[r].maxClients))
                     && Unheard(channels, t, t.rows[r])
  }

  lemma FreshIsSound(channels: Channels, t: Tables)
    requires FreshTables(channels, t)
    ensures Sound(channels, t)
  {
    forall r | 0 <= r < |t.rows| ensures RowSound(channels, t, t.rows[r]) {
      assert t.rows[r] == ReloadedRow([], r, (t.rows[r].serviceName, t.rows[r].maxClients));
    }
  }

  /**
    Slot allocation: over any creations of clients and servers and any other calls on
    the event table, by any processes, the enabled slots of every service are exactly
    those below its next client id, that id never passes the maximum, names are
    distinct, and every response channel that was handed out has exactly one entry
    registered for a client, the one its slot names.
  */
  lemma {:induction false} SlotsStaySound(channels: Channels, capacity: nat, t: Tables, calls: seq<Call>)
    requires Injective(channels) && FreshTables(channels, t)
    ensures Sound(channels, DoCalls(channels, capacity, t, calls))
  {
    if calls == [] {
      FreshIsSound(channels, t);
    } else {
      SlotsStaySound(channels, capacity, t, calls[..|calls| - 1]);
      CallSound(channels, capacity, DoCalls(channels, capacity, t, calls[..|calls| - 1]), calls[|calls| - 1]);
    }
  }

  /**
    A known name always gets its old id back, at the price of no slot and no receive
    event; an unknown name gets the next id and one new event, or fails and changes
    nothing: exactly when the slots or the event table are full or the channel is
    missing. The service is looked up by an index that agrees with the table.
  */
  lemma CreateAnswersByName(
    channels: Channels, capacity: nat, t: Tables, index: map<string, nat>, serviceName: string, clientName: string,
    pid: int)
    requires Sound(channels, t) && ValidNames(serviceName, clientName)
    requires Agreeing(Shared(t.rows, index)) && Scan(t.rows, serviceName) >= 0
    ensures Lookup(index, t.rows, serviceName) == Scan(t.rows, serviceName)
    ensures var id := Lookup(index, t.rows, serviceName);
            var row := t.rows[id];
            var o := CreateAt(channels, capacity, t, id, serviceName, clientName, pid);
            if exists j :: 0 <= j < row.nextClientId && row.slots[j].clientName == clientName then
              && o.result.ClientOk? && o.result.service == id && o.result.client < row.nextClientId
              && row.slots[o.result.client].clientName == clientName
              && o.tables.rows == t.rows && |o.tables.events| == |t.events|
            else if row.nextClientId < row.maxClients && |t.events| < capacity
                    && ResponseChannel(channels, row, row.nextClientId) >= 0 then
              && o.result == ClientOk(id, row.nextClientId)
              && o.tables.rows[id].nextClientId == row.nextClientId + 1
              && |o.tables.events| == |t.events| + 1
            else
              o == Outcome(t, ClientFailed)
  {
    LookupAgreesIff(index, t.rows, serviceName);
    var row := t.rows[Scan(t.rows, serviceName)];
    var existing := FindClient(row, clientName, 0);
    assert RowSound(channels, t, row);
    forall j | 0 <= j < row.nextClientId ensures row.slots[j].enabled {
      assert SlotSound(channels, t, row, j);
    }
    assert t.rows[Scan(t.rows, serviceName) := row] == t.rows;
    if existing < row.nextClientId {
      assert SlotSound(channels, t, row, existing);
      assert t.events[row.slots[existing].responseEvent].ListensOn(ResponseChannel(channels, row, existing));
    }
  }

  /** Every creation by a process whose index agrees is one of the calls above. */
  lemma CreatesByLookup(
    channels: Channels, capacity: nat, t: Tables, index: map<string, nat>, serviceName: string, clientName: string,
    pid: int)
    requires Fits(t) && Agreeing(Shared(t.rows, index))
    ensures Lookup(index, t.rows, serviceName) < |t.rows|
    ensures CreateAt(channels, capacity, t, Lookup(index, t.rows, serviceName), serviceName, clientName, pid)
         == DoCreate(channels, capacity, t, serviceName, clientName, pid)
  {
    LookupAgreesIff(index, t.rows, serviceName);
  }
}
