/**
  What the receive-event table promises its listeners, over every sequence of calls by
  any processes: nothing is notified twice or lost, holding back and resuming costs no
  notification, and a channel with one listener is a one-packet mailbox.
*/
module RecvEventTheorems {
  import opened RecvEvents
  import opened RpcTypes

  datatype Op =
    | Register(pid: int, channel: int, callback: bool)
    | Update(pid: int, channel: int, callback: bool)
    | Write(channel: int, bytes: seq<bv8>)
    | Take(pid: int, channel: int)
    | CallBack(pid: int)
    | SetPending(pid: int, id: int, pending: bool)
    | SetPendingOnChannel(pid: int, channel: int, pending: bool)
    | ClearEntry(i: nat)

  /** The table together with the bytes last written on each channel. */
  datatype Channels = Channels(table: Table, data: map<int, seq<bv8>>)

  function Apply(t: Table, op: Op): Table {
    match op
    case Register(pid, c, callback) => Registered(t, pid, c, callback)
    case Update(pid, c, callback) => Updated(t, pid, c, callback)
    case Write(c, _) => if WriteAccepted(t, c) then Written(t, c) else t
    case Take(pid, c) => Taken(t, pid, c)
    case CallBack(pid) => CalledBack(t, pid)
    case SetPending(pid, id, pending) => PendingSet(t, pid, id, pending)
    case SetPendingOnChannel(pid, c, pending) => PendingSet(t, pid, FirstOwn(t, pid, c), pending)
    case ClearEntry(i) => ClearedAt(t, i)
  }

  function ApplyAll(t: Table, ops: seq<Op>): Table {
    if ops == [] then t else Apply(ApplyAll(t, ops[..|ops| - 1]), ops[|ops| - 1])
  }

  /** One call on table and bytes: a refused write copies nothing. */
  function Act(s: Channels, op: Op): Channels {
    Channels(
      Apply(s.table, op),
      if op.Write? && WriteAccepted(s.table, op.channel) then s.data[op.channel := op.bytes] else s.data)
  }

  function ActAll(s: Channels, ops: seq<Op>): Channels {
    if ops == [] then s else Act(ActAll(s, ops[..|ops| - 1]), ops[|ops| - 1])
  }

  /** Entries are never removed, moved to another channel or switched off. */
  lemma AppendOnly(t: Table, op: Op, e: nat)
    requires e < |t|
    ensures e < |Apply(t, op)|
    ensures Apply(t, op)[e].enabled == t[e].enabled && Apply(t, op)[e].channel == t[e].channel
  {
  }

  lemma {:induction false} AppendOnlyAll(t: Table, ops: seq<Op>, e: nat)
    requires e < |t|
    ensures e < |ApplyAll(t, ops)|
    ensures ApplyAll(t, ops)[e].enabled == t[e].enabled && ApplyAll(t, ops)[e].channel == t[e].channel
  {
    if ops != [] {
      AppendOnlyAll(t, ops[..|ops| - 1], e);
      AppendOnly(ApplyAll(t, ops[..|ops| - 1]), ops[|ops| - 1], e);
    }
  }

  /** The listener is told of a packet by this call. */
  predicate Notifies(t: Table, op: Op, e: nat)
    requires e < |t|
  {
    match op
    case Take(pid, c) => TakeSucceeds(t, pid, c) && FirstOwn(t, pid, c) == e
    case CallBack(pid) => CallbackDue(t[e], pid)
    case _ => false
  }

  /** The listener's channel takes a packet by this call. */
  predicate Delivers(t: Table, op: Op, e: nat)
    requires e < |t|
  {
    op.Write? && t[e].ListensOn(op.channel) && WriteAccepted(t, op.channel)
  }

  /** The call drops whatever waits for the listener: a new run, or a client taking the entry over. */
  predicate Drops(t: Table, op: Op, e: nat)
    requires e < |t|
  {
    match op
    case ClearEntry(i) => i == e && t[e].enabled
    case Update(pid, c, callback) => FirstAny(t, c) == e
    case _ => false
  }

  /** How often each of the three happened to one listener; `lost` counts only packets really dropped. */
  datatype Tally = Tally(delivered: nat, notified: nat, lost: nat, unseen: nat)

  function Count(b: bool): nat {
    if b then 1 else 0
  }

  function TallyNext(t: Table, op: Op, e: nat, tally: Tally): Tally
    requires e < |t|
  {
    Tally(
      tally.delivered + Count(Delivers(t, op, e)),
      tally.notified + Count(Notifies(t, op, e)),
      tally.lost + Count(Drops(t, op, e) && t[e].recvFlag),
      if Notifies(t, op, e) || Drops(t, op, e) then 0 else tally.unseen + Count(Delivers(t, op, e)))
  }

  function TallyOf(t: Table, ops: seq<Op>, e: nat): Tally
    requires e < |t|
  {
    if ops == [] then
      Tally(0, 0, 0, 0)
    else
      var before := ApplyAll(t, ops[..|ops| - 1]);
      AppendOnlyAll(t, ops[..|ops| - 1], e);
      TallyNext(before, ops[|ops| - 1], e, TallyOf(t, ops[..|ops| - 1], e))
  }

  ghost predicate NeverHeldBack(t: Table, ops: seq<Op>, e: nat)
    requires e < |t|
  {
    forall k :: 0 <= k <= |ops| ==> e < |ApplyAll(t, ops[..k])| && !ApplyAll(t, ops[..k])[e].pendingFlag
  }

  /** The flag of a listener changes only by a delivery, a notification or a drop. */
  lemma FlagChanges(t: Table, op: Op, e: nat)
    requires e < |t|
    ensures e < |Apply(t, op)|
    ensures Apply(t, op)[e].recvFlag <==>
              Delivers(t, op, e) || (t[e].recvFlag && !Notifies(t, op, e) && !Drops(t, op, e))
    ensures Notifies(t, op, e) ==> t[e].Busy()
    ensures Delivers(t, op, e) ==> !t[e].Busy()
  {
  }

  /**
    Conservation: a listener that never holds back is notified exactly once for each
    packet its channel accepted, except for the packet still waiting and packets
    dropped by a new run or by a client taking the entry over. This holds for every
    listener of the channel, however many there are.
  */
  lemma {:induction false} BroadcastConserves(t: Table, ops: seq<Op>, e: nat)
    requires e < |t| && !t[e].recvFlag && NeverHeldBack(t, ops, e)
    ensures e < |ApplyAll(t, ops)|
    ensures var tally := TallyOf(t, ops, e);
            tally.delivered == tally.notified + tally.lost + Count(ApplyAll(t, ops)[e].recvFlag)
  {
    if ops != [] {
      var ops', op := ops[..|ops| - 1], ops[|ops| - 1];
      NeverHeldBackBefore(t, ops, e);
      BroadcastConserves(t, ops', e);
      FlagChanges(ApplyAll(t, ops'), op, e);
    }
  }

  /**
    Holding back refines a counter: a packet waits if and only if one was written
    since the last notification or drop, whatever was toggled in between.
  */
  lemma {:induction false} FlagCountsUnseenWrites(t: Table, ops: seq<Op>, e: nat)
    requires e < |t| && !t[e].recvFlag
    ensures e < |ApplyAll(t, ops)|
    ensures ApplyAll(t, ops)[e].recvFlag <==> TallyOf(t, ops, e).unseen > 0
  {
    if ops != [] {
      FlagCountsUnseenWrites(t, ops[..|ops| - 1], e);
      FlagChanges(ApplyAll(t, ops[..|ops| - 1]), ops[|ops| - 1], e);
    }
  }

  /**
    A take by the listener's process succeeds if and only if the listener is not
    holding back and has an unseen write; right after it, a second one fails. So any
    number of writes held back give exactly one notification after the resume.
  */
  lemma TakeSucceedsOncePerBatch(t: Table, ops: seq<Op>, e: nat, pid: int, c: int)
    requires e < |t| && !t[e].recvFlag
    requires FirstOwn(ApplyAll(t, ops), pid, c) == e
    ensures e < |ApplyAll(t, ops)|
    ensures var now := ApplyAll(t, ops);
            && (TakeSucceeds(now, pid, c) <==> !now[e].pendingFlag && TallyOf(t, ops, e).unseen > 0)
            && (TakeSucceeds(now, pid, c) ==>
                  && FirstOwn(Taken(now, pid, c), pid, c) == e
                  && !TakeSucceeds(Taken(now, pid, c), pid, c))
  {
    FlagCountsUnseenWrites(t, ops, e);
    TakenKeepsFirst(ApplyAll(t, ops), pid, c);
  }

  lemma TakenKeepsFirst(t: Table, pid: int, c: int)
    ensures FirstOwn(Taken(t, pid, c), pid, c) == FirstOwn(t, pid, c)
  {
    var t' := Taken(t, pid, c);
    assert forall j :: 0 <= j < |t| ==> t'[j].ListensOn(c) == t[j].ListensOn(c) && t'[j].procId == t[j].procId;
  }

  // ---------- the bytes ----------

  lemma {:induction false} ActAllTable(s: Channels, ops: seq<Op>)
    ensures ActAll(s, ops).table == ApplyAll(s.table, ops)
  {
    if ops != [] {
      ActAllTable(s, ops[..|ops| - 1]);
    }
  }

  /** What lies on a channel. */
  function BytesOn(s: Channels, c: int): seq<bv8> {
    if c in s.data then s.data[c] else []
  }

  /** The bytes of the accepted writes on a channel, in order. */
  function Accepted(s: Channels, ops: seq<Op>, c: int): seq<seq<bv8>> {
    if ops == [] then []
    else
      var before, op := ActAll(s, ops[..|ops| - 1]), ops[|ops| - 1];
      Accepted(s, ops[..|ops| - 1], c)
      + if op.Write? && op.channel == c && WriteAccepted(before.table, c) then [op.bytes] else []
  }

  /** What became of a packet: its listener was told while these bytes lay there, or it was dropped. */
  datatype Fate = Told(bytes: seq<bv8>) | Lost(bytes: seq<bv8>)

  function FatesNext(s: Channels, op: Op, e: nat): seq<Fate>
    requires e < |s.table|
  {
    if Notifies(s.table, op, e) then [Told(BytesOn(s, s.table[e].channel))]
    else if Drops(s.table, op, e) && s.table[e].recvFlag then [Lost(BytesOn(s, s.table[e].channel))]
    else []
  }

  function Fates(s: Channels, ops: seq<Op>, e: nat): seq<Fate>
    requires e < |s.table|
  {
    if ops == [] then []
    else
      var before := ActAll(s, ops[..|ops| - 1]);
      ActAllTable(s, ops[..|ops| - 1]);
      AppendOnlyAll(s.table, ops[..|ops| - 1], e);
      Fates(s, ops[..|ops| - 1], e) + FatesNext(before, ops[|ops| - 1], e)
  }

  function BytesOf(fates: seq<Fate>): (b: seq<seq<bv8>>)
    ensures |b| == |fates|
  {
    seq(|fates|, i requires 0 <= i < |fates| => fates[i].bytes)
  }

  /** After any calls a channel has the bytes of the last accepted write, or still those it had. */
  lemma {:induction false} LastAcceptedStays(s: Channels, ops: seq<Op>, c: int)
    ensures var accepted := Accepted(s, ops, c);
            BytesOn(ActAll(s, ops), c) == if accepted == [] then BytesOn(s, c) else accepted[|accepted| - 1]
  {
    if ops != [] {
      LastAcceptedStays(s, ops[..|ops| - 1], c);
    }
  }

  /** What one call does to the packet that waits at a listener. */
  lemma FateNext(s: Channels, op: Op, e: nat)
    requires e < |s.table| && s.table[e].enabled && !s.table[e].pendingFlag
    ensures e < |Act(s, op).table|
    ensures var c, now := s.table[e].channel, Act(s, op);
            var accepted := op.Write? && op.channel == c && WriteAccepted(s.table, c);
            (if s.table[e].recvFlag then [BytesOn(s, c)] else []) + (if accepted then [op.bytes] else [])
            == BytesOf(FatesNext(s, op, e)) + (if now.table[e].recvFlag then [BytesOn(now, c)] else [])
  {
    FlagChanges(s.table, op, e);
  }

  /**
    No byte is lost or mixed up: the packets accepted on a channel are, in order, those
    a listener was told of while they lay there, those dropped, and the one that still
    waits. This holds for every listener that never holds back, however many there are.
  */
  lemma {:induction false} ListenersReadWhatWasWritten(s: Channels, ops: seq<Op>, e: nat)
    requires e < |s.table| && s.table[e].enabled && !s.table[e].recvFlag && NeverHeldBack(s.table, ops, e)
    ensures e < |ActAll(s, ops).table|
    ensures var now, c := ActAll(s, ops), s.table[e].channel;
            Accepted(s, ops, c)
            == BytesOf(Fates(s, ops, e)) + if now.table[e].recvFlag then [BytesOn(now, c)] else []
  {
    ActAllTable(s, ops);
    AppendOnlyAll(s.table, ops, e);
    if ops != [] {
      var ops', op := ops[..|ops| - 1], ops[|ops| - 1];
      NeverHeldBackBefore(s.table, ops, e);
      ListenersReadWhatWasWritten(s, ops', e);
      ActAllTable(s, ops');
      AppendOnlyAll(s.table, ops', e);
      FateNext(ActAll(s, ops'), op, e);
      BytesOfConcat(Fates(s, ops', e), FatesNext(ActAll(s, ops'), op, e));
    }
  }

  lemma NeverHeldBackBefore(t: Table, ops: seq<Op>, e: nat)
    requires e < |t| && ops != [] && NeverHeldBack(t, ops, e)
    ensures NeverHeldBack(t, ops[..|ops| - 1], e)
    ensures e < |ApplyAll(t, ops[..|ops| - 1])| && !ApplyAll(t, ops[..|ops| - 1])[e].pendingFlag
  {
    var ops' := ops[..|ops| - 1];
    assert forall k :: 0 <= k <= |ops'| ==> ops'[..k] == ops[..k];
    assert ops[..|ops'|] == ops';
  }

  lemma BytesOfConcat(a: seq<Fate>, b: seq<Fate>)
    ensures BytesOf(a + b) == BytesOf(a) + BytesOf(b)
  {
  }

  // ---------- a channel with one listener ----------

  /** Entry e is the only listener of the channel, on which the service protocol relies. */
  predicate SoleListener(t: Table, c: int, e: int) {
    && 0 <= e < |t| && t[e].ListensOn(c)
    && forall i :: 0 <= i < |t| && t[i].ListensOn(c) ==> i == e
  }

  /** Calls that leave who listens on the channel, and whether it holds back, as it is. */
  predicate Tame(t: Table, op: Op, c: int, e: nat)
    requires e < |t|
  {
    match op
    case Register(_, channel, _) => channel != c
    case Update(_, channel, _) => channel != c
    case SetPending(_, id, _) => id != e
    case SetPendingOnChannel(pid, channel, _) => channel != c || pid != t[e].procId
    case _ => true
  }

  /** The same call on the mailbox of the RPC model. */
  function OnBox(box: Mailbox<seq<bv8>>, listener: Entry, op: Op, c: int, e: nat): Mailbox<seq<bv8>> {
    match op
    case Write(channel, bytes) => if channel == c then box.Write(bytes) else box
    case Take(pid, channel) => if channel == c && pid == listener.procId then box.Taken() else box
    case CallBack(pid) => if pid == listener.procId && listener.callback then box.Taken() else box
    case ClearEntry(i) => if i == e then box.Taken() else box
    case _ => box
  }

  function OnBoxAll(box: Mailbox<seq<bv8>>, listener: Entry, ops: seq<Op>, c: int, e: nat): Mailbox<seq<bv8>> {
    if ops == [] then box
    else OnBox(OnBoxAll(box, listener, ops[..|ops| - 1], c, e), listener, ops[|ops| - 1], c, e)
  }

  predicate IsBox(s: Channels, c: int, e: nat, listener: Entry, box: Mailbox<seq<bv8>>) {
    && SoleListener(s.table, c, e) && !s.table[e].pendingFlag
    && s.table[e].procId == listener.procId && s.table[e].callback == listener.callback
    && s.table[e].recvFlag == box.flag
    && (box.flag ==> BytesOn(s, c) == box.packet)
  }

  ghost predicate TameRun(s: Channels, ops: seq<Op>, c: int, e: nat) {
    forall k :: 0 <= k < |ops| ==> e < |ActAll(s, ops[..k]).table| && Tame(ActAll(s, ops[..k]).table, ops[k], c, e)
  }

  lemma BoxNext(s: Channels, op: Op, c: int, e: nat, listener: Entry, box: Mailbox<seq<bv8>>)
    requires IsBox(s, c, e, listener, box) && Tame(s.table, op, c, e)
    ensures IsBox(Act(s, op), c, e, listener, OnBox(box, listener, op, c, e))
  {
    BoxStaysSole(s, op, c, e, listener, box);
    SoleListenerDecides(s.table, c, e);
  }

  lemma BoxStaysSole(s: Channels, op: Op, c: int, e: nat, listener: Entry, box: Mailbox<seq<bv8>>)
    requires IsBox(s, c, e, listener, box) && Tame(s.table, op, c, e)
    ensures SoleListener(Act(s, op).table, c, e)
    ensures Act(s, op).table[e].procId == listener.procId && Act(s, op).table[e].callback == listener.callback
    ensures !Act(s, op).table[e].pendingFlag
  {
    var t, t' := s.table, Apply(s.table, op);
    assert forall i :: 0 <= i < |t| ==> t'[i].enabled == t[i].enabled && t'[i].channel == t[i].channel;
  }

  /**
    A channel with one listener that does not hold back is the one-packet mailbox the
    service protocol relies on: over any calls of any processes on any channels, its
    flag and bytes are those of the mailbox on which the same calls were made, it
    accepts a write exactly when the mailbox does, and a take by its owner succeeds
    exactly when a packet is there.
  */
  lemma {:induction false} SoleListenerIsMailbox(
    s: Channels, ops: seq<Op>, c: int, e: nat, box: Mailbox<seq<bv8>>)
    requires e < |s.table| && IsBox(s, c, e, s.table[e], box) && TameRun(s, ops, c, e)
    ensures var now, box' := ActAll(s, ops), OnBoxAll(box, s.table[e], ops, c, e);
            && IsBox(now, c, e, s.table[e], box')
            && (WriteAccepted(now.table, c) <==> box'.Accepts())
            && (TakeSucceeds(now.table, s.table[e].procId, c) <==> box'.flag)
  {
    if ops != [] {
      var ops', op := ops[..|ops| - 1], ops[|ops| - 1];
      assert forall k :: 0 <= k < |ops'| ==> ops'[..k] == ops[..k];
      SoleListenerIsMailbox(s, ops', c, e, box);
      assert Tame(ActAll(s, ops').table, op, c, e);
      BoxNext(ActAll(s, ops'), op, c, e, s.table[e], OnBoxAll(box, s.table[e], ops', c, e));
    }
    SoleListenerDecides(ActAll(s, ops).table, c, e);
  }

  lemma SoleListenerDecides(t: Table, c: int, e: nat)
    requires SoleListener(t, c, e) && !t[e].pendingFlag
    ensures WriteAccepted(t, c) <==> !t[e].recvFlag
    ensures FirstOwn(t, t[e].procId, c) == e
    ensures TakeSucceeds(t, t[e].procId, c) <==> t[e].recvFlag
  {
  }
}
