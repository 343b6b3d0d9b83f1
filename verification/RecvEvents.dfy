/**
  The table of receive events: which process listens on which channel, and whether a
  packet waits for it. The table is shared by all processes and only ever grows.
*/
module RecvEvents {

  datatype Entry = Entry(
    enabled: bool, recvFlag: bool, pendingFlag: bool, procId: int, channel: int, callback: bool)
  {
    predicate ListensOn(c: int) {
      enabled && channel == c
    }

    /** Unread and not held back: a write on the channel has to wait. */
    predicate Busy() {
      recvFlag && !pendingFlag
    }
  }

  type Table = seq<Entry>

  /** Index of the first entry of a process on a channel, or the length of the table. */
  function FirstOwn(t: Table, pid: int, c: int): (i: nat)
    ensures i <= |t|
    ensures i < |t| ==> t[i].ListensOn(c) && t[i].procId == pid
    ensures forall j :: 0 <= j < i ==> !(t[j].ListensOn(c) && t[j].procId == pid)
  {
    if t == [] then 0
    else if t[0].ListensOn(c) && t[0].procId == pid then 0
    else FirstOwn(t[1..], pid, c) + 1
  }

  /** Index of the first entry of any process on a channel, or the length of the table. */
  function FirstAny(t: Table, c: int): (i: nat)
    ensures i <= |t|
    ensures i < |t| ==> t[i].ListensOn(c)
    ensures forall j :: 0 <= j < i ==> !t[j].ListensOn(c)
  {
    if t == [] then 0
    else if t[0].ListensOn(c) then 0
    else FirstAny(t[1..], c) + 1
  }

  function Registered(t: Table, pid: int, c: int, callback: bool): Table {
    t + [Entry(true, false, false, pid, c, callback)]
  }

  /** A client that comes back takes over the channel's first entry, whoever had it. */
  function Updated(t: Table, pid: int, c: int, callback: bool): Table {
    var i := FirstAny(t, c);
    if i == |t| then t
    else t[i := t[i].(recvFlag := false, procId := pid, callback := callback)]
  }

  /** A write is accepted when every listener has read the last packet or holds it back. */
  predicate WriteAccepted(t: Table, c: int) {
    forall i :: 0 <= i < |t| ==> !(t[i].ListensOn(c) && t[i].Busy())
  }

  function Written(t: Table, c: int): Table {
    seq(|t|, i requires 0 <= i < |t| => if t[i].ListensOn(c) then t[i].(recvFlag := true) else t[i])
  }

  function Taken(t: Table, pid: int, c: int): Table {
    var i := FirstOwn(t, pid, c);
    if i < |t| && t[i].Busy() then t[i := t[i].(recvFlag := false)] else t
  }

  /** The entry a process is told of, if any. */
  predicate TakeSucceeds(t: Table, pid: int, c: int) {
    var i := FirstOwn(t, pid, c);
    i < |t| && t[i].Busy()
  }

  predicate CallbackDue(e: Entry, pid: int) {
    e.enabled && e.procId == pid && e.callback && e.Busy()
  }

  function CalledBack(t: Table, pid: int): Table {
    seq(|t|, i requires 0 <= i < |t| => if CallbackDue(t[i], pid) then t[i].(recvFlag := false) else t[i])
  }

  function PendingSet(t: Table, pid: int, id: int, pending: bool): Table {
    if 0 <= id < |t| && t[id].enabled && t[id].procId == pid then
      t[id := t[id].(pendingFlag := pending)]
    else t
  }

  function ClearedAt(t: Table, i: nat): Table {
    if i < |t| && t[i].enabled then t[i := t[i].(recvFlag := false, pendingFlag := false)] else t
  }

  function Cleared(t: Table): Table {
    seq(|t|, i requires 0 <= i < |t| =>
      if t[i].enabled then t[i].(recvFlag := false, pendingFlag := false) else t[i])
  }

  class RecvEventTable {
    const capacity: nat
    const entries: array<Entry>
    var entryNum: nat

    ghost predicate Valid()
      reads this
    {
      entries.Length == capacity && entryNum <= capacity
    }

    ghost function View(): Table
      requires Valid()
      reads this, entries
    {
      entries[..entryNum]
    }

    constructor (capacity: nat)
      ensures Valid() && this.capacity == capacity && View() == [] && fresh(entries)
    {
      this.capacity := capacity;
      entries := new Entry[capacity](_ => Entry(false, false, false, 0, 0, false));
      entryNum := 0;
    }

    method Register(pid: int, channel: int, callback: bool) returns (ok: bool, id: int)
      requires Valid()
      modifies this, entries
      ensures Valid()
      ensures ok <==> channel >= 0 && old(entryNum) < capacity
      ensures ok ==> id == old(entryNum) && View() == Registered(old(View()), pid, channel, callback)
      ensures !ok ==> id == -1 && View() == old(View())
    {
      if channel < 0 || entryNum >= capacity {
        return false, -1;
      }
      id := entryNum;
      entries[id] := Entry(true, false, false, pid, channel, callback);
      entryNum := entryNum + 1;
      ok := true;
    }

    method Update(pid: int, channel: int, callback: bool) returns (ok: bool, id: int)
      requires Valid()
      modifies entries
      ensures Valid()
      ensures ok <==> channel >= 0 && FirstAny(old(View()), channel) < old(entryNum)
      ensures ok ==> id == FirstAny(old(View()), channel) && View() == Updated(old(View()), pid, channel, callback)
      ensures !ok ==> id == -1 && View() == old(View())
    {
      if channel < 0 {
        return false, -1;
      }
      ghost var first := FirstAny(View(), channel);
      for i := 0 to entryNum
        invariant i <= first && View() == old(View())
      {
        assert View()[i] == entries[i];
        if entries[i].ListensOn(channel) {
          assert first == i;
          entries[i] := entries[i].(recvFlag := false, procId := pid, callback := callback);
          assert View() == Updated(old(View()), pid, channel, callback);
          return true, i;
        }
      }
      return false, -1;
    }

    method GetRecvEvent(pid: int, channel: int) returns (ok: bool, id: int)
      requires Valid()
      modifies entries
      ensures Valid() && View() == Taken(old(View()), pid, channel)
      ensures ok == TakeSucceeds(old(View()), pid, channel)
      ensures id == if ok then FirstOwn(old(View()), pid, channel) else -1
    {
      id := -1;
      ghost var first := FirstOwn(View(), pid, channel);
      for i := 0 to entryNum
        invariant i <= first && View() == old(View())
      {
        assert View()[i] == entries[i];
        if entries[i].ListensOn(channel) && entries[i].procId == pid {
          assert first == i;
          ok := entries[i].recvFlag && !entries[i].pendingFlag;
          if ok {
            entries[i] := entries[i].(recvFlag := false);
            id := i;
          }
          return;
        }
      }
      ok := false;
    }

    method CallRecvEventCallbacks(pid: int) returns (called: seq<nat>)
      requires Valid()
      modifies entries
      ensures Valid() && View() == CalledBack(old(View()), pid)
      ensures forall i: nat :: i in called <==> i < old(entryNum) && CallbackDue(old(View())[i], pid)
      ensures forall j, k :: 0 <= j < k < |called| ==> called[j] < called[k]
    {
      called := [];
      for i := 0 to entryNum
        invariant forall j :: 0 <= j < i ==> entries[j] == CalledBack(old(View()), pid)[j]
        invariant forall j :: i <= j < entries.Length ==> entries[j] == old(entries[j])
        invariant forall j: nat :: j in called <==> j < i && CallbackDue(old(View())[j], pid)
        invariant forall j :: 0 <= j < |called| ==> called[j] < i
        invariant forall j, k :: 0 <= j < k < |called| ==> called[j] < called[k]
      {
        assert old(View())[i] == entries[i];
        if CallbackDue(entries[i], pid) {
          entries[i] := entries[i].(recvFlag := false);
          called := called + [i];
        }
      }
      assert View() == CalledBack(old(View()), pid);
    }

    method SetPending(pid: int, id: int, pending: bool) returns (ok: bool)
      requires Valid()
      modifies entries
      ensures Valid() && View() == PendingSet(old(View()), pid, id, pending)
      ensures ok <==> 0 <= id < entryNum && old(View())[id].enabled && old(View())[id].procId == pid
    {
      if id < 0 || id >= entryNum || !entries[id].enabled || entries[id].procId != pid {
        return false;
      }
      entries[id] := entries[id].(pendingFlag := pending);
      ok := true;
    }

    method SetPendingOnChannel(pid: int, channel: int, pending: bool) returns (ok: bool)
      requires Valid()
      modifies entries
      ensures Valid()
      ensures View() == PendingSet(old(View()), pid, FirstOwn(old(View()), pid, channel), pending)
      ensures ok <==> FirstOwn(old(View()), pid, channel) < entryNum
    {
      ghost var first := FirstOwn(View(), pid, channel);
      for i := 0 to entryNum
        invariant i <= first && View() == old(View())
      {
        assert View()[i] == entries[i];
        if entries[i].ListensOn(channel) && entries[i].procId == pid {
          assert first == i;
          entries[i] := entries[i].(pendingFlag := pending);
          return true;
        }
      }
      ok := false;
    }

    method OnPduDataBeforeWrite(channel: int) returns (accepted: bool)
      requires Valid()
      ensures accepted == WriteAccepted(View(), channel)
    {
      for i := 0 to entryNum
        invariant forall j :: 0 <= j < i ==> !(entries[j].ListensOn(channel) && entries[j].Busy())
      {
        if entries[i].ListensOn(channel) && entries[i].Busy() {
          assert View()[i] == entries[i];
          return false;
        }
      }
      accepted := true;
    }

    method OnPduDataWrite(channel: int) returns (anyListener: bool)
      requires Valid()
      modifies entries
      ensures Valid() && View() == Written(old(View()), channel)
      ensures anyListener <==> FirstAny(old(View()), channel) < entryNum
    {
      anyListener := false;
      for i := 0 to entryNum
        invariant forall j :: 0 <= j < i ==> entries[j] == Written(old(View()), channel)[j]
        invariant forall j :: i <= j < entries.Length ==> entries[j] == old(entries[j])
        invariant anyListener <==> FirstAny(old(View()), channel) < i
      {
        assert old(View())[i] == entries[i];
        if entries[i].ListensOn(channel) {
          entries[i] := entries[i].(recvFlag := true);
          anyListener := true;
        }
      }
      assert View() == Written(old(View()), channel);
    }

    method ClearRunFlags()
      requires Valid()
      modifies entries
      ensures Valid() && View() == Cleared(old(View()))
    {
      for i := 0 to entryNum
        invariant forall j :: 0 <= j < i ==> entries[j] == Cleared(old(View()))[j]
        invariant forall j :: i <= j < entries.Length ==> entries[j] == old(entries[j])
      {
        if entries[i].enabled {
          entries[i] := entries[i].(recvFlag := false, pendingFlag := false);
        }
      }
      assert View() == Cleared(old(View()));
    }
  }
}
