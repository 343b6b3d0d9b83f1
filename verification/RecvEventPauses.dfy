/**
  Who is told of a packet, and when: pausing and resuming, registering, taking over a
  channel, and what a new run leaves of it all.
*/
module RecvEventPauses {
  import opened RecvEvents
  import opened RecvEventTheorems

  /** The call holds back or resumes this listener: by its id, or as the first of its process on the channel. */
  predicate Addresses(t: Table, op: Op, e: nat)
    requires e < |t|
  {
    match op
    case SetPending(pid, id, _) => id == e && t[e].enabled && t[e].procId == pid
    case SetPendingOnChannel(pid, c, _) =>
      && t[e].enabled && t[e].procId == pid && t[e].channel == c
      && forall j :: 0 <= j < e ==> !(t[j].enabled && t[j].procId == pid && t[j].channel == c)
    case _ => false
  }

  /** What the listener was last asked for: to hold back or not; a new run asks for nothing. */
  function LastAsked(t: Table, ops: seq<Op>, e: nat): bool
    requires e < |t|
  {
    if ops == [] then t[e].pendingFlag
    else
      var before, op := ApplyAll(t, ops[..|ops| - 1]), ops[|ops| - 1];
      AppendOnlyAll(t, ops[..|ops| - 1], e);
      if Addresses(before, op, e) then op.pending
      else if op.ClearEntry? && op.i == e && before[e].enabled then false
      else LastAsked(t, ops[..|ops| - 1], e)
  }

  lemma PendingNext(t: Table, op: Op, e: nat)
    requires e < |t|
    ensures e < |Apply(t, op)|
    ensures Apply(t, op)[e].pendingFlag ==
            if Addresses(t, op, e) then op.pending
            else if op.ClearEntry? && op.i == e && t[e].enabled then false
            else t[e].pendingFlag
  {
    if op.SetPendingOnChannel? {
      var first := FirstOwn(t, op.pid, op.channel);
      assert Addresses(t, op, e) <==> first == e;
    }
  }

  /** Over any calls of any processes the flag is what the listener was last asked for. */
  lemma {:induction false} PendingIsLastAsked(t: Table, ops: seq<Op>, e: nat)
    requires e < |t|
    ensures e < |ApplyAll(t, ops)| && ApplyAll(t, ops)[e].pendingFlag == LastAsked(t, ops, e)
  {
    AppendOnlyAll(t, ops, e);
    if ops != [] {
      PendingIsLastAsked(t, ops[..|ops| - 1], e);
      PendingNext(ApplyAll(t, ops[..|ops| - 1]), ops[|ops| - 1], e);
    }
  }

  /** A listener that was asked to hold back is told of nothing. */
  lemma HeldBackIsNotTold(t: Table, ops: seq<Op>, op: Op, e: nat)
    requires e < |t| && LastAsked(t, ops, e)
    ensures e < |ApplyAll(t, ops)| && !Notifies(ApplyAll(t, ops), op, e)
  {
    PendingIsLastAsked(t, ops, e);
  }

  /** Calls during a pause: anything that neither ends it nor drops what waits nor takes the channel over. */
  ghost predicate DuringPause(t: Table, ops: seq<Op>, e: nat)
    requires e < |t|
  {
    forall k :: 0 <= k < |ops| ==>
      && e < |ApplyAll(t, ops[..k])|
      && !Addresses(ApplyAll(t, ops[..k]), ops[k], e)
      && !(ops[k].ClearEntry? && ops[k].i == e)
      && !(ops[k].Update? && ops[k].channel == t[e].channel)
  }

  /** A packet came in while the calls were made. */
  ghost predicate SomethingCame(t: Table, ops: seq<Op>, e: nat)
    requires e < |t|
  {
    exists k :: 0 <= k < |ops| && e < |ApplyAll(t, ops[..k])| && Delivers(ApplyAll(t, ops[..k]), ops[k], e)
  }

  /** The listener is the first of its process on its channel. */
  predicate IsFirstOwn(t: Table, e: nat) {
    e < |t| && t[e].enabled && FirstOwn(t, t[e].procId, t[e].channel) == e
  }

  lemma FirstOwnStays(t: Table, op: Op, e: nat)
    requires IsFirstOwn(t, e) && !(op.Update? && op.channel == t[e].channel)
    ensures IsFirstOwn(Apply(t, op), e)
    ensures Apply(t, op)[e].procId == t[e].procId && Apply(t, op)[e].channel == t[e].channel
  {
    var t' := Apply(t, op);
    assert forall j :: 0 <= j <= e ==>
             t'[j].ListensOn(t[e].channel) == t[j].ListensOn(t[e].channel)
             && (t[j].channel == t[e].channel ==> t'[j].procId == t[j].procId);
  }

  lemma {:induction false} PauseLasts(t: Table, ops: seq<Op>, e: nat)
    requires IsFirstOwn(t, e) && t[e].pendingFlag && DuringPause(t, ops, e)
    ensures var now := ApplyAll(t, ops);
            && IsFirstOwn(now, e) && now[e].pendingFlag
            && now[e].procId == t[e].procId && now[e].channel == t[e].channel
            && (now[e].recvFlag <==> t[e].recvFlag || SomethingCame(t, ops, e))
  {
    if ops != [] {
      var before, op := ops[..|ops| - 1], ops[|ops| - 1];
      assert forall k :: 0 <= k <= |before| ==> before[..k] == ops[..k];
      PauseLasts(t, before, e);
      var now := ApplyAll(t, before);
      assert ops[..|before|] == before;
      FirstOwnStays(now, op, e);
      PendingNext(now, op, e);
      FlagChanges(now, op, e);
      assert SomethingCame(t, ops, e) <==> SomethingCame(t, before, e) || Delivers(now, op, e);
    }
  }

  /**
    A pause costs delay and nothing else: while it lasts the listener is told of nothing;
    when its process resumes it, the next take succeeds exactly if a packet waited before
    or came in meanwhile, however many there were, and the one after that fails.
  */
  lemma PauseAndResume(t: Table, ops: seq<Op>, e: nat)
    requires IsFirstOwn(t, e) && DuringPause(Apply(t, SetPending(t[e].procId, e, true)), ops, e)
    ensures var pid, c := t[e].procId, t[e].channel;
            var paused := Apply(t, SetPending(pid, e, true));
            var resumed := Apply(ApplyAll(paused, ops), SetPending(pid, e, false));
            && |paused| == |t|
            && (forall k :: 0 <= k < |ops| ==>
                  e < |ApplyAll(paused, ops[..k])| && !Notifies(ApplyAll(paused, ops[..k]), ops[k], e))
            && (TakeSucceeds(resumed, pid, c) <==> t[e].recvFlag || SomethingCame(paused, ops, e))
            && !TakeSucceeds(Apply(resumed, Take(pid, c)), pid, c)
  {
    var pid, c := t[e].procId, t[e].channel;
    var paused := Apply(t, SetPending(pid, e, true));
    PendingNext(t, SetPending(pid, e, true), e);
    FirstOwnStays(t, SetPending(pid, e, true), e);
    forall k | 0 <= k < |ops|
      ensures e < |ApplyAll(paused, ops[..k])| && !Notifies(ApplyAll(paused, ops[..k]), ops[k], e) {
      assert forall l :: 0 <= l < k ==> ops[..k][..l] == ops[..l];
      PauseLasts(paused, ops[..k], e);
    }
    PauseLasts(paused, ops, e);
    var held := ApplyAll(paused, ops);
    PendingNext(held, SetPending(pid, e, false), e);
    FirstOwnStays(held, SetPending(pid, e, false), e);
    TakenKeepsFirst(Apply(held, SetPending(pid, e, false)), pid, c);
  }

  /** A new listener is told of the first packet, by a take of the process that registered it or by its callback. */
  lemma NewListenerIsTold(t: Table, pid: int, c: int, callback: bool, bytes: seq<bv8>)
    requires WriteAccepted(t, c)
    ensures var told := ApplyAll(t, [Register(pid, c, callback), Write(c, bytes)]);
            && |told| == |t| + 1
            && (FirstOwn(t, pid, c) == |t| ==> TakeSucceeds(told, pid, c))
            && (forall other :: CallbackDue(told[|t|], other) <==> callback && other == pid)
  {
    var ops := [Register(pid, c, callback), Write(c, bytes)];
    assert ops[..1] == [Register(pid, c, callback)] && ops[..1][..0] == [];
    var registered := Apply(t, Register(pid, c, callback));
    assert ApplyAll(t, ops[..1]) == registered;
    assert WriteAccepted(registered, c);
    var told := Apply(registered, Write(c, bytes));
    assert forall j :: 0 <= j < |t| ==> told[j].ListensOn(c) == t[j].ListensOn(c) && told[j].procId == t[j].procId;
    assert told[|t|].ListensOn(c) && told[|t|].procId == pid && told[|t|].Busy();
    assert ApplyAll(t, ops) == told;
  }

  /**
    A client that comes back is told of the next packet in place of whoever had the entry
    before: by a take, if it has none in front, and by a callback if it asks for one.
  */
  lemma TakeoverIsTold(t: Table, pid: int, c: int, callback: bool, bytes: seq<bv8>)
    requires FirstAny(t, c) < |t| && WriteAccepted(t, c)
    ensures var told := ApplyAll(t, [Update(pid, c, callback), Write(c, bytes)]);
            var e := FirstAny(t, c);
            && |told| == |t|
            && (TakeSucceeds(told, pid, c) <==> !t[e].pendingFlag)
            && (forall other :: other != pid ==> FirstOwn(told, other, c) != e)
            && (forall other :: CallbackDue(told[e], other) <==> callback && other == pid && !t[e].pendingFlag)
  {
    var e := FirstAny(t, c);
    var ops := [Update(pid, c, callback), Write(c, bytes)];
    assert ops[..1] == [Update(pid, c, callback)] && ops[..1][..0] == [];
    var updated := Apply(t, Update(pid, c, callback));
    assert ApplyAll(t, ops[..1]) == updated;
    assert forall j :: 0 <= j < |t| ==> updated[j].ListensOn(c) == t[j].ListensOn(c);
    assert WriteAccepted(updated, c);
    var told := Apply(updated, Write(c, bytes));
    assert forall j :: 0 <= j < |t| ==> told[j].ListensOn(c) == t[j].ListensOn(c);
    assert told[e].ListensOn(c) && told[e].procId == pid && told[e].recvFlag;
    assert FirstOwn(told, pid, c) == e;
    assert ApplyAll(t, ops) == told;
  }

  function ClearsUpTo(n: nat): seq<Op> {
    seq(n, (i: nat) => ClearEntry(i))
  }

  lemma {:induction false} ClearedUpTo(t: Table, n: nat)
    requires n <= |t|
    ensures ApplyAll(t, ClearsUpTo(n)) == Cleared(t[..n]) + t[n..]
  {
    if n > 0 {
      assert ClearsUpTo(n)[..n - 1] == ClearsUpTo(n - 1);
      ClearedUpTo(t, n - 1);
      assert Cleared(t[..n]) == Cleared(t[..n - 1]) + [Apply([t[n - 1]], ClearEntry(0))[0]];
    }
  }

  /** Clearing the table is clearing its entries one by one; then nobody is told, nobody holds back, nobody waits. */
  lemma ClearedStartsFresh(t: Table, c: int, pid: int)
    ensures ApplyAll(t, ClearsUpTo(|t|)) == Cleared(t)
    ensures WriteAccepted(Cleared(t), c) && !TakeSucceeds(Cleared(t), pid, c)
    ensures forall e :: 0 <= e < |t| && t[e].enabled ==> !LastAsked(t, ClearsUpTo(|t|), e)
  {
    ClearedUpTo(t, |t|);
    assert Cleared(t[..|t|]) + t[|t|..] == Cleared(t);
    forall e | 0 <= e < |t| && t[e].enabled ensures !LastAsked(t, ClearsUpTo(|t|), e) {
      PendingIsLastAsked(t, ClearsUpTo(|t|), e);
    }
  }
}
