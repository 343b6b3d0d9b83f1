/**
  Exactly when a service channel has one listener and no more. Applications may
  register on service channels too, and a server may be created more than once; each
  such registration is one more listener, for good.
*/
module ServiceListeners {
  import opened RecvEvents
  import opened RpcTypes
  import opened ServiceTable
  import opened ServiceTableTheorems
  import opened ServiceSlots

  const ANYBODY: set<Origin> := {ForServer, ForClient, ByApplication}

  // ---------- counting listeners ----------

  predicate Listens(t: Tables, c: int, kinds: set<Origin>, k: nat)
    requires k < |t.events| == |t.origins|
  {
    t.events[k].ListensOn(c) && t.origins[k] in kinds
  }

  /** How many of the first n entries listen on the channel and were registered for one of these reasons. */
  function Listeners(t: Tables, c: int, kinds: set<Origin>, n: nat): nat
    requires n <= |t.events| == |t.origins|
  {
    if n == 0 then 0 else Listeners(t, c, kinds, n - 1) + if Listens(t, c, kinds, n - 1) then 1 else 0
  }

  lemma {:induction false} NoListenersIff(t: Tables, c: int, kinds: set<Origin>, n: nat)
    requires n <= |t.events| == |t.origins|
    ensures Listeners(t, c, kinds, n) == 0 <==> forall k :: 0 <= k < n ==> !Listens(t, c, kinds, k)
  {
    if n > 0 {
      NoListenersIff(t, c, kinds, n - 1);
    }
  }

  predicate OnlyOne(t: Tables, c: int, kinds: set<Origin>, n: nat, e: int)
    requires n <= |t.events| == |t.origins|
  {
    0 <= e < n && Listens(t, c, kinds, e) && forall k :: 0 <= k < n && Listens(t, c, kinds, k) ==> k == e
  }

  lemma {:induction false} OneListenerIff(t: Tables, c: int, kinds: set<Origin>, n: nat)
    requires n <= |t.events| == |t.origins|
    ensures Listeners(t, c, kinds, n) == 1 <==> exists e :: OnlyOne(t, c, kinds, n, e)
  {
    if n > 0 {
      var last: nat := n - 1;
      OneListenerIff(t, c, kinds, last);
      NoListenersIff(t, c, kinds, last);
      if Listens(t, c, kinds, last) {
        if Listeners(t, c, kinds, last) == 0 {
          assert OnlyOne(t, c, kinds, n, last);
        } else {
          var k :| 0 <= k < last && Listens(t, c, kinds, k);
          assert forall e :: OnlyOne(t, c, kinds, n, e) ==> e == k && e == last;
        }
      } else {
        assert forall e :: OnlyOne(t, c, kinds, n, e) ==> OnlyOne(t, c, kinds, last, e);
        assert forall e :: OnlyOne(t, c, kinds, last, e) ==> OnlyOne(t, c, kinds, n, e);
      }
    }
  }

  lemma {:induction false} ListenersSplit(t: Tables, c: int, a: set<Origin>, b: set<Origin>, n: nat)
    requires n <= |t.events| == |t.origins| && a !! b
    ensures Listeners(t, c, a + b, n) == Listeners(t, c, a, n) + Listeners(t, c, b, n)
  {
    if n > 0 {
      ListenersSplit(t, c, a, b, n - 1);
    }
  }

  /** Entries that stay as they are count as they did. */
  lemma {:induction false} ListenersKept(t: Tables, t': Tables, origin: Origin, c: int, kinds: set<Origin>, n: nat)
    requires ExtendsBy(t, t', origin) && n <= |t.events|
    ensures Listeners(t', c, kinds, n) == Listeners(t, c, kinds, n)
  {
    if n > 0 {
      ListenersKept(t, t', origin, c, kinds, n - 1);
    }
  }

  /** Entries that do not match add nothing. */
  lemma {:induction false} ListenersBeyond(t: Tables, c: int, kinds: set<Origin>, m: nat, n: nat)
    requires m <= n <= |t.events| == |t.origins|
    requires forall k :: m <= k < n ==> !Listens(t, c, kinds, k)
    ensures Listeners(t, c, kinds, n) == Listeners(t, c, kinds, m)
  {
    if m < n {
      ListenersBeyond(t, c, kinds, m, n - 1);
    }
  }

  /** The one entry that matches adds one. */
  lemma OneBeyond(t: Tables, c: int, kinds: set<Origin>, m: nat, k: nat)
    requires m <= k < |t.events| == |t.origins| && Listens(t, c, kinds, k)
    requires forall i :: m <= i < |t.events| && Listens(t, c, kinds, i) ==> i == k
    ensures Listeners(t, c, kinds, |t.events|) == Listeners(t, c, kinds, m) + 1
  {
    ListenersBeyond(t, c, kinds, m, k);
    ListenersBeyond(t, c, kinds, k + 1, |t.events|);
  }

  function Total(t: Tables, c: int, kinds: set<Origin>): nat
    requires |t.events| == |t.origins|
  {
    Listeners(t, c, kinds, |t.events|)
  }

  /** A call of one kind adds no listeners of another. */
  lemma OtherKindsKept(t: Tables, t': Tables, origin: Origin, c: int, kinds: set<Origin>)
    requires ExtendsBy(t, t', origin) && origin !in kinds
    ensures Total(t', c, kinds) == Total(t, c, kinds)
  {
    ListenersKept(t, t', origin, c, kinds, |t.events|);
    ListenersBeyond(t', c, kinds, |t.events|, |t'.events|);
  }

  // ---------- registrations by applications ----------

  /** How many registrations by applications went through on the channel. */
  function RegisteredByOthers(channels: Channels, capacity: nat, t: Tables, calls: seq<Call>, c: int): nat
    requires Fits(t)
  {
    if calls == [] then 0
    else
      var before := DoCalls(channels, capacity, t, calls[..|calls| - 1]);
      RegisteredByOthers(channels, capacity, t, calls[..|calls| - 1], c)
      + if Registers(before, capacity, calls[|calls| - 1], c) then 1 else 0
  }

  lemma OtherCounts(channels: Channels, capacity: nat, t: Tables, call: Call, c: int)
    requires Fits(t) && c >= 0
    ensures Fits(DoCall(channels, capacity, t, call))
    ensures Total(DoCall(channels, capacity, t, call), c, {ByApplication})
         == Total(t, c, {ByApplication}) + if Registers(t, capacity, call, c) then 1 else 0
  {
    var t' := DoCall(channels, capacity, t, call);
    CallExtends(channels, capacity, t, call);
    if call.Other? {
      ListenersKept(t, t', ByApplication, c, {ByApplication}, |t.events|);
      if call.op.Register? && |t'.events| > |t.events| {
        assert |t'.events| == |t.events| + 1;
      } else {
        assert |t'.events| == |t.events|;
      }
    } else {
      OtherKindsKept(t, t', OriginOf(call), c, {ByApplication});
    }
  }

  lemma {:induction false} OthersCounted(channels: Channels, capacity: nat, t: Tables, calls: seq<Call>, c: int)
    requires Fits(t) && c >= 0
    ensures Total(DoCalls(channels, capacity, t, calls), c, {ByApplication})
         == Total(t, c, {ByApplication}) + RegisteredByOthers(channels, capacity, t, calls, c)
  {
    if calls != [] {
      OthersCounted(channels, capacity, t, calls[..|calls| - 1], c);
      var before := DoCalls(channels, capacity, t, calls[..|calls| - 1]);
      OtherCounts(channels, capacity, before, calls[|calls| - 1], c);
    }
  }

  // ---------- registrations by servers ----------

  /** The call is a server's, of this row, and got as far as slot j. */
  predicate ServesSlot(channels: Channels, capacity: nat, t: Tables, call: Call, r: nat, j: nat)
    requires Fits(t)
  {
    && call.Serve? && Scan(t.rows, call.serviceName) == r
    && |DoCall(channels, capacity, t, call).events| > |t.events| + j
  }

  function ServedTimes(channels: Channels, capacity: nat, t: Tables, calls: seq<Call>, r: nat, j: nat): nat
    requires Fits(t)
  {
    if calls == [] then 0
    else
      var before := DoCalls(channels, capacity, t, calls[..|calls| - 1]);
      ServedTimes(channels, capacity, t, calls[..|calls| - 1], r, j)
      + if ServesSlot(channels, capacity, before, calls[|calls| - 1], r, j) then 1 else 0
  }

  function RequestChannel(channels: Channels, row: Row, j: nat): int {
    RealChannel(channels, row.serviceName, 2 * j)
  }

  lemma ServeCounts(channels: Channels, capacity: nat, t: Tables, call: Call, r: nat, j: nat)
    requires Injective(channels) && Sound(channels, t) && r < |t.rows|
    requires RequestChannel(channels, t.rows[r], j) >= 0
    ensures Fits(DoCall(channels, capacity, t, call))
    ensures var c := RequestChannel(channels, t.rows[r], j);
            Total(DoCall(channels, capacity, t, call), c, {ForServer})
            == Total(t, c, {ForServer}) + if ServesSlot(channels, capacity, t, call, r, j) then 1 else 0
  {
    var t', c := DoCall(channels, capacity, t, call), RequestChannel(channels, t.rows[r], j);
    CallExtends(channels, capacity, t, call);
    if call.Serve? {
      var q, m := Scan(t.rows, call.serviceName), |t.events|;
      ListenersKept(t, t', ForServer, c, {ForServer}, m);
      forall k | m <= k < |t'.events| ensures Listens(t', c, {ForServer}, k) <==> q == r && k == m + j {
        ServeListens(channels, t.rows[q], t.events, capacity, call.pid, 0, k);
        assert t.rows[q].serviceName == call.serviceName;
        var i := k - m;
        assert (call.serviceName, 2 * i) in channels && (t.rows[r].serviceName, 2 * j) in channels;
        assert q != r ==> t.rows[q].serviceName != t.rows[r].serviceName;
      }
      if ServesSlot(channels, capacity, t, call, r, j) {
        OneBeyond(t', c, {ForServer}, m, m + j);
      } else {
        ListenersBeyond(t', c, {ForServer}, m, |t'.events|);
      }
    } else {
      OtherKindsKept(t, t', OriginOf(call), c, {ForServer});
    }
  }

  lemma CallKeepsNames(channels: Channels, capacity: nat, t: Tables, call: Call, r: nat)
    requires Fits(t) && r < |t.rows|
    ensures r < |DoCall(channels, capacity, t, call).rows|
    ensures DoCall(channels, capacity, t, call).rows[r].serviceName == t.rows[r].serviceName
    ensures |DoCall(channels, capacity, t, call).rows[r].slots| == |t.rows[r].slots|
  {
    CallExtends(channels, capacity, t, call);
  }

  lemma {:induction false} CallsKeepNames(channels: Channels, capacity: nat, t: Tables, calls: seq<Call>, r: nat)
    requires Fits(t) && r < |t.rows|
    ensures DoCalls(channels, capacity, t, calls).rows[r].serviceName == t.rows[r].serviceName
    ensures |DoCalls(channels, capacity, t, calls).rows[r].slots| == |t.rows[r].slots|
  {
    if calls != [] {
      CallsKeepNames(channels, capacity, t, calls[..|calls| - 1], r);
      CallKeepsNames(channels, capacity, DoCalls(channels, capacity, t, calls[..|calls| - 1]), calls[|calls| - 1], r);
    }
  }

  lemma {:induction false} ServersCounted(
    channels: Channels, capacity: nat, t: Tables, calls: seq<Call>, r: nat, j: nat)
    requires Injective(channels) && FreshTables(channels, t) && r < |t.rows|
    requires RequestChannel(channels, t.rows[r], j) >= 0
    ensures var c := RequestChannel(channels, t.rows[r], j);
            Total(DoCalls(channels, capacity, t, calls), c, {ForServer})
            == Total(t, c, {ForServer}) + ServedTimes(channels, capacity, t, calls, r, j)
  {
    if calls != [] {
      var before := DoCalls(channels, capacity, t, calls[..|calls| - 1]);
      ServersCounted(channels, capacity, t, calls[..|calls| - 1], r, j);
      SlotsStaySound(channels, capacity, t, calls[..|calls| - 1]);
      CallsKeepNames(channels, capacity, t, calls[..|calls| - 1], r);
      ServeCounts(channels, capacity, before, calls[|calls| - 1], r, j);
    }
  }

  // ---------- exactly one listener ----------

  /** Servers and clients never meet on a channel. */
  lemma NoOtherKind(channels: Channels, t: Tables, name: string, id: int, k: nat)
    requires Injective(channels) && Typed(channels, t) && k < |t.events| == |t.origins|
    requires RealChannel(channels, name, id) >= 0 && t.events[k].ListensOn(RealChannel(channels, name, id))
    ensures id % 2 == 0 ==> t.origins[k] != ForClient
    ensures id % 2 == 1 ==> t.origins[k] != ForServer
  {
    assert (name, id) in channels;
  }

  /** At first nobody listens. */
  lemma FreshHasNone(channels: Channels, t: Tables, r: nat, id: int, kinds: set<Origin>)
    requires FreshTables(channels, t) && r < |t.rows| && RealChannel(channels, t.rows[r].serviceName, id) >= 0
    ensures Total(t, RealChannel(channels, t.rows[r].serviceName, id), kinds) == 0
  {
    assert (t.rows[r].serviceName, id) in channels;
    NoListenersIff(t, RealChannel(channels, t.rows[r].serviceName, id), kinds, |t.events|);
  }

  lemma SoleIsOnlyOne(t: Tables, c: int, e: int)
    requires |t.events| == |t.origins|
    ensures Events.SoleListener(t.events, c, e) <==> OnlyOne(t, c, ANYBODY, |t.events|, e)
  {
    forall k | 0 <= k < |t.events| ensures Listens(t, c, ANYBODY, k) <==> t.events[k].ListensOn(c) {
      match t.origins[k] case ForServer => case ForClient => case ByApplication =>
    }
  }

  /**
    The response channel of a slot that was handed out has the slot's own entry as its
    only listener exactly if no application ever registered on that channel.
  */
  lemma {:induction false} SoleClientListenerIff(
    channels: Channels, capacity: nat, t: Tables, calls: seq<Call>, r: nat, j: nat)
    requires Injective(channels) && FreshTables(channels, t)
    requires r < |t.rows| && j < |DoCalls(channels, capacity, t, calls).rows[r].slots|
    requires DoCalls(channels, capacity, t, calls).rows[r].slots[j].enabled
    ensures var now := DoCalls(channels, capacity, t, calls);
            var channel := ResponseChannel(channels, now.rows[r], j);
            Events.SoleListener(now.events, channel, now.rows[r].slots[j].responseEvent)
            <==> RegisteredByOthers(channels, capacity, t, calls, channel) == 0
  {
    var now := DoCalls(channels, capacity, t, calls);
    var slot, channel := now.rows[r].slots[j], ResponseChannel(channels, now.rows[r], j);
    SlotsStaySound(channels, capacity, t, calls);
    CallsKeepNames(channels, capacity, t, calls, r);
    assert SlotSound(channels, now, now.rows[r], j);
    FreshHasNone(channels, t, r, 2 * j + 1, {ByApplication});
    OthersCounted(channels, capacity, t, calls, channel);
    NoListenersIff(now, channel, {ByApplication}, |now.events|);
    if RegisteredByOthers(channels, capacity, t, calls, channel) == 0 {
      forall k | 0 <= k < |now.events| && now.events[k].ListensOn(channel) ensures k == slot.responseEvent {
        NoOtherKind(channels, now, now.rows[r].serviceName, 2 * j + 1, k);
        assert !Listens(now, channel, {ByApplication}, k);
        assert EntryOf(now, k, channel, ForClient);
      }
    }
  }

  /**
    And then it is the mailbox that the RPC protocol takes it for, over any further calls
    that leave who listens on it, and whether it holds back, as it is.
  */
  lemma ClientChannelIsMailbox(
    channels: Channels, capacity: nat, t: Tables, calls: seq<Call>, r: nat, j: nat,
    s: Events.Channels, ops: seq<Events.Op>, box: Mailbox<seq<bv8>>)
    requires Injective(channels) && FreshTables(channels, t)
    requires r < |t.rows| && j < |DoCalls(channels, capacity, t, calls).rows[r].slots|
    requires DoCalls(channels, capacity, t, calls).rows[r].slots[j].enabled
    requires s.table == DoCalls(channels, capacity, t, calls).events
    requires var now := DoCalls(channels, capacity, t, calls);
             var e, c := now.rows[r].slots[j].responseEvent, ResponseChannel(channels, now.rows[r], j);
             && RegisteredByOthers(channels, capacity, t, calls, c) == 0
             && 0 <= e < |s.table| && !s.table[e].pendingFlag && s.table[e].recvFlag == box.flag
             && (box.flag ==> Events.BytesOn(s, c) == box.packet)
             && Events.TameRun(s, ops, c, e)
    ensures var now := DoCalls(channels, capacity, t, calls);
            var e, c := now.rows[r].slots[j].responseEvent, ResponseChannel(channels, now.rows[r], j);
            var later, box' := Events.ActAll(s, ops), Events.OnBoxAll(box, s.table[e], ops, c, e);
            && Events.IsBox(later, c, e, s.table[e], box')
            && (WriteAccepted(later.table, c) <==> box'.Accepts())
            && (TakeSucceeds(later.table, s.table[e].procId, c) <==> box'.flag)
  {
    var now := DoCalls(channels, capacity, t, calls);
    SoleClientListenerIff(channels, capacity, t, calls, r, j);
    Events.SoleListenerIsMailbox(
      s, ops, ResponseChannel(channels, now.rows[r], j), now.rows[r].slots[j].responseEvent, box);
  }

  /** It can be otherwise: one registration after the first client has joined is enough. */
  lemma ApplicationSpoilsChannel(
    channels: Channels, capacity: nat, t: Tables, r: nat, clientName: string, pid: int, other: int)
    requires Injective(channels) && FreshTables(channels, t) && r < |t.rows| && t.rows[r].maxClients > 0
    requires ValidNames(t.rows[r].serviceName, clientName) && |t.events| + 1 < capacity
    requires RealChannel(channels, t.rows[r].serviceName, 1) >= 0
    ensures var c := RealChannel(channels, t.rows[r].serviceName, 1);
            var joined := [Create(t.rows[r].serviceName, clientName, pid)];
            var before := DoCalls(channels, capacity, t, joined);
            var now := DoCalls(channels, capacity, t, joined + [Other(Events.Register(other, c, false))]);
            && before.rows[r].nextClientId == 1 && now.rows == before.rows
            && Events.SoleListener(before.events, c, before.rows[r].slots[0].responseEvent)
            && forall e :: !Events.SoleListener(now.events, c, e)
  {
    var name, c := t.rows[r].serviceName, RealChannel(channels, t.rows[r].serviceName, 1);
    var joined, spoil := [Create(name, clientName, pid)], Other(Events.Register(other, c, false));
    FirstJoins(channels, capacity, t, r, clientName, pid);
    var before := DoCalls(channels, capacity, t, joined);
    assert (joined + [spoil])[..1] == joined;
    SoleClientListenerIff(channels, capacity, t, joined, r, 0);
    assert joined[..0] == [];
    var now := DoCalls(channels, capacity, t, joined + [spoil]);
    var e := before.rows[r].slots[0].responseEvent;
    assert now.events == before.events + [now.events[|before.events|]];
    assert now.events[e].ListensOn(c) && now.events[|before.events|].ListensOn(c);
  }

  lemma FirstJoins(channels: Channels, capacity: nat, t: Tables, r: nat, clientName: string, pid: int)
    requires FreshTables(channels, t) && r < |t.rows| && t.rows[r].maxClients > 0
    requires ValidNames(t.rows[r].serviceName, clientName) && |t.events| < capacity
    requires RealChannel(channels, t.rows[r].serviceName, 1) >= 0
    ensures var now := DoCalls(channels, capacity, t, [Create(t.rows[r].serviceName, clientName, pid)]);
            && |now.events| == |t.events| + 1
            && now.rows[r].nextClientId == 1 && |now.rows[r].slots| == t.rows[r].maxClients
            && now.rows[r].slots[0].enabled && now.rows[r].serviceName == t.rows[r].serviceName
            && now.rows[r].slots[0].responseChannel == 1
  {
    var row := t.rows[r];
    var call := Create(row.serviceName, clientName, pid);
    assert row == ReloadedRow([], r, (row.serviceName, row.maxClients));
    assert Scan(t.rows, row.serviceName) == r;
    assert [call][..0] == [];
    assert DoCalls(channels, capacity, t, [call]) == DoCall(channels, capacity, t, call);
  }

  /** Where no client listens, the numbers of the other two decide. */
  lemma SoleByNumbers(t: Tables, c: int)
    requires |t.events| == |t.origins|
    requires forall k :: 0 <= k < |t.events| ==> !Listens(t, c, {ForClient}, k)
    ensures (exists e :: Events.SoleListener(t.events, c, e))
            <==> Total(t, c, {ForServer}) + Total(t, c, {ByApplication}) == 1
  {
    NoListenersIff(t, c, {ForClient}, |t.events|);
    ListenersSplit(t, c, {ForServer}, {ByApplication}, |t.events|);
    ListenersSplit(t, c, {ForServer} + {ByApplication}, {ForClient}, |t.events|);
    assert ANYBODY == {ForServer} + {ByApplication} + {ForClient};
    OneListenerIff(t, c, ANYBODY, |t.events|);
    forall e ensures Events.SoleListener(t.events, c, e) <==> OnlyOne(t, c, ANYBODY, |t.events|, e) {
      SoleIsOnlyOne(t, c, e);
    }
  }

  lemma SoleServerByNumbers(t: Tables, c: int)
    requires |t.events| == |t.origins|
    requires forall k :: 0 <= k < |t.events| ==> !Listens(t, c, {ForClient}, k)
    ensures (exists e :: Events.SoleListener(t.events, c, e) && t.origins[e] == ForServer)
            <==> Total(t, c, {ForServer}) == 1 && Total(t, c, {ByApplication}) == 0
  {
    SoleByNumbers(t, c);
    NoListenersIff(t, c, {ForServer}, |t.events|);
    if e :| Events.SoleListener(t.events, c, e) {
      assert forall k :: 0 <= k < |t.events| && Listens(t, c, {ForServer}, k) ==> k == e;
      assert Listens(t, c, {ForServer}, e) <==> t.origins[e] == ForServer;
    }
  }

  lemma NoClientListens(channels: Channels, t: Tables, name: string, j: nat)
    requires Injective(channels) && Sound(channels, t) && RealChannel(channels, name, 2 * j) >= 0
    ensures forall k :: 0 <= k < |t.events| ==> !Listens(t, RealChannel(channels, name, 2 * j), {ForClient}, k)
  {
    var c := RealChannel(channels, name, 2 * j);
    assert 2 * j % 2 == 0;
    forall k | 0 <= k < |t.events| ensures !Listens(t, c, {ForClient}, k) {
      if t.events[k].ListensOn(c) {
        NoOtherKind(channels, t, name, 2 * j, k);
      }
    }
  }

  /**
    A request channel has exactly one listener exactly if it was registered once, and
    that one is a server's exactly if one server and no application registered.
  */
  lemma SoleServerListenerIff(channels: Channels, capacity: nat, t: Tables, calls: seq<Call>, r: nat, j: nat)
    requires Injective(channels) && FreshTables(channels, t)
    requires r < |t.rows| && RequestChannel(channels, t.rows[r], j) >= 0
    ensures var now, channel := DoCalls(channels, capacity, t, calls), RequestChannel(channels, t.rows[r], j);
            var served, others := ServedTimes(channels, capacity, t, calls, r, j),
                                  RegisteredByOthers(channels, capacity, t, calls, channel);
            && ((exists e :: Events.SoleListener(now.events, channel, e)) <==> served + others == 1)
            && ((exists e :: Events.SoleListener(now.events, channel, e) && now.origins[e] == ForServer)
                <==> served == 1 && others == 0)
  {
    var now, channel := DoCalls(channels, capacity, t, calls), RequestChannel(channels, t.rows[r], j);
    SlotsStaySound(channels, capacity, t, calls);
    FreshHasNone(channels, t, r, 2 * j, {ByApplication});
    FreshHasNone(channels, t, r, 2 * j, {ForServer});
    OthersCounted(channels, capacity, t, calls, channel);
    ServersCounted(channels, capacity, t, calls, r, j);
    NoClientListens(channels, now, t.rows[r].serviceName, j);
    SoleByNumbers(now, channel);
    SoleServerByNumbers(now, channel);
  }

  /**
    A returning client takes over its own entry exactly if no application's entry for
    its channel stands in front of it; otherwise it takes over that one.
  */
  lemma RejoinTakesOwnEntryIff(channels: Channels, t: Tables, r: nat, j: nat)
    requires Injective(channels) && Sound(channels, t) && r < |t.rows| && j < |t.rows[r].slots|
    requires t.rows[r].slots[j].enabled
    ensures var slot, channel := t.rows[r].slots[j], ResponseChannel(channels, t.rows[r], j);
            && FirstAny(t.events, channel) <= slot.responseEvent < |t.events|
            && (FirstAny(t.events, channel) == slot.responseEvent
                <==> Listeners(t, channel, {ByApplication}, slot.responseEvent) == 0)
            && (FirstAny(t.events, channel) != slot.responseEvent ==>
                  t.origins[FirstAny(t.events, channel)] == ByApplication)
  {
    var slot, channel := t.rows[r].slots[j], ResponseChannel(channels, t.rows[r], j);
    assert SlotSound(channels, t, t.rows[r], j);
    var first := FirstAny(t.events, channel);
    assert t.events[slot.responseEvent].ListensOn(channel);
    NoListenersIff(t, channel, {ByApplication}, slot.responseEvent);
    if first != slot.responseEvent {
      NoOtherKind(channels, t, t.rows[r].serviceName, 2 * j + 1, first);
      assert !EntryOf(t, first, channel, ForClient);
      assert Listens(t, channel, {ByApplication}, first);
    }
  }
}
