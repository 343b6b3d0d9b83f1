/**
  What holds in every run, however the applications behave: nothing written in one
  run is ever reported in another, the clearing of flags never costs a run its own
  packets, and replies go round the clients in strict order.
*/
module RpcSafety {
  import opened Arithmetic
  import opened RpcTypes
  import opened ServiceServer
  import opened ServiceClient
  import opened RpcSystem

  /** Boxes a starting run has still to clear. */
  function Todo(phase: Phase): set<BoxId> {
    if phase.Starting? then phase.todo else {}
  }

  /** The flag is up and the starting run will not take it down again. */
  predicate ReqVisible(phase: Phase, link: Link, i: nat) {
    link.req.flag && RequestBox(i) !in Todo(phase)
  }

  predicate RespVisible(phase: Phase, link: Link, i: nat) {
    link.resp.flag && ResponseBox(i) !in Todo(phase)
  }

  predicate StampUpTo(generation: nat, stamp: Stamp) {
    stamp.generation <= generation && stamp.era <= generation
  }

  function OwnStamp(generation: nat): Stamp {
    Stamp(generation, generation, true)
  }

  /** Nothing of this run exists before the run is Running. */
  predicate NotYetRunning(generation: nat, phase: Phase, slot: ServiceState, link: Link, journal: Journal, i: nat) {
    phase.Starting? ==>
      && ClientResetIfNewRun(link.client, generation).state == Idle
      && slot == Idle
      && !RespVisible(phase, link, i)
      && (ReqVisible(phase, link, i) ==> journal.reqStamp.era != generation)
      && (link.req.flag ==> !(journal.reqStamp.generation == generation && journal.reqStamp.running))
      && (link.resp.flag ==> !(journal.respStamp.generation == generation && journal.respStamp.running))
  }

  /** A client that has not noticed this run has nothing of this run on its way. */
  predicate LeftoverClient(generation: nat, phase: Phase, slot: ServiceState, link: Link, journal: Journal, i: nat) {
    link.client.runGeneration != generation ==>
      && slot == Idle
      && (ReqVisible(phase, link, i) ==> journal.reqStamp.era != generation)
  }

  /** Which run a packet that can still be taken belongs to. */
  predicate Stamped(generation: nat, phase: Phase, slot: ServiceState, link: Link, journal: Journal, i: nat) {
    && (ReqVisible(phase, link, i) ==>
          && journal.reqStamp.generation == generation
          && (journal.reqStamp.era != generation ==> slot == Idle && link.req.packet.header.opcode == OPCODE_CANCEL)
          && (phase == Running && journal.reqStamp.era == generation ==> journal.reqStamp.running))
    && (RespVisible(phase, link, i) ==> journal.respStamp == OwnStamp(generation))
  }

  predicate SafeLink(generation: nat, phase: Phase, slot: ServiceState, link: Link, journal: Journal, i: nat) {
    && link.client.runGeneration <= generation
    && StampUpTo(generation, journal.reqStamp)
    && StampUpTo(generation, journal.respStamp)
    && NotYetRunning(generation, phase, slot, link, journal, i)
    && LeftoverClient(generation, phase, slot, link, journal, i)
    && Stamped(generation, phase, slot, link, journal, i)
  }

  predicate SafeAt(s: System, i: nat)
    requires WellFormed(s) && i < |s.world.links|
  {
    SafeLink(s.world.generation, s.world.phase, RunServer(s.world).slots[i], s.world.links[i], s.journals[i], i)
  }

  predicate SafeServer(s: System) {
    s.world.server.requestGeneration <= s.world.server.runGeneration <= s.world.generation
  }

  /** The turn is where a strict rotation from client 0 has brought it. */
  predicate Rotating(s: System)
    requires WellFormed(s)
  {
    var n := |s.world.links|;
    && Turn(s) == |s.attempts| % n
    && forall k :: 0 <= k < |s.attempts| ==> s.attempts[k] == k % n
  }

  ghost predicate Safe(s: System) {
    && WellFormed(s)
    && SafeServer(s)
    && Rotating(s)
    && forall i :: 0 <= i < |s.world.links| ==> SafeAt(s, i)
  }

  lemma InitialSafe(s: System)
    requires Initial(s)
    ensures Safe(s)
  {
  }

  /** A server call advances the turn exactly when it tries to reply. */
  predicate Advances(server: Server, step: ServerStep)
    requires server.Valid()
  {
    step.server.current == if step.attempted then (server.current + 1) % |server.slots| else server.current
  }

  lemma PollAdvances(s: System, now: int)
    requires WellFormed(s)
    ensures Advances(RunServer(s.world), PollStep(s, now))
    ensures PollStep(s, now).server.runGeneration == s.world.generation
  {
  }

  lemma ReplyAdvances(s: System, packet: ResponsePacket)
    requires WellFormed(s)
    ensures Advances(s.world.server, ReplyStep(s, packet))
    ensures ReplyStep(s, packet).server.runGeneration == s.world.server.runGeneration
  {
  }

  lemma AdvanceRotates(s: System, c: nat, step: ServerStep)
    requires WellFormed(s) && Rotating(s) && c == Turn(s)
    requires SameTable(s.world.server, step.server) && Advances(RunServer(s.world), step)
    requires step.server.runGeneration == s.world.generation
    ensures Rotating(AfterServerStep(s, c, step))
  {
    NextTurn(|s.attempts|, |s.world.links|);
  }

  /** The slots a server call leaves alone. */
  predicate OnlySlot(before: Server, after: Server, c: nat) {
    && |after.slots| == |before.slots|
    && forall j :: 0 <= j < |before.slots| && j != c ==> after.slots[j] == before.slots[j]
  }

  lemma PollSafeServer(s: System, now: int)
    requires WellFormed(s) && SafeServer(s)
    ensures OnlySlot(RunServer(s.world), PollStep(s, now).server, Turn(s))
    ensures PollStep(s, now).server.requestGeneration <= PollStep(s, now).server.runGeneration
  {
  }

  /** A poll empties the request box; a cancel alone never makes an idle slot busy. */
  lemma PollMovesPackets(s: System, now: int)
    requires WellFormed(s)
    ensures var c, step := Turn(s), PollStep(s, now);
            var link, slot := s.world.links[c], RunServer(s.world).slots[c];
            && !step.req.flag
            && (step.delivered.None? ==> step.resp == link.resp)
            && (slot == Idle && (!link.req.flag || link.req.packet.header.opcode == OPCODE_CANCEL) ==>
                  step.server.slots[c] == Idle)
  {
  }

  lemma PollSafeLink(s: System, now: int)
    requires WellFormed(s) && SafeServer(s) && SafeAt(s, Turn(s)) && s.world.phase == Running
    ensures var c, step := Turn(s), PollStep(s, now);
            && OnlySlot(RunServer(s.world), step.server, c)
            && step.server.requestGeneration <= step.server.runGeneration
            && SafeAt(AfterServerStep(s, c, step), c)
  {
    PollSafeServer(s, now);
    PollAdvances(s, now);
    PollMovesPackets(s, now);
    hide PollStep;
  }

  lemma PollSafe(s: System, now: int)
    requires Safe(s) && s.world.phase == Running
    ensures Safe(AfterServerStep(s, Turn(s), PollStep(s, now)))
  {
    var c, step := Turn(s), PollStep(s, now);
    var s' := AfterServerStep(s, c, step);
    PollSafeLink(s, now);
    PollAdvances(s, now);
    AdvanceRotates(s, c, step);
    forall j | 0 <= j < |s.world.links| ensures SafeAt(s', j) {
      assert SafeAt(s, j);
    }
  }

  lemma ReplySafeLink(s: System, packet: ResponsePacket)
    requires WellFormed(s) && SafeServer(s) && SafeAt(s, s.world.server.current) && s.world.phase == Running
    requires ReplyAllowed(s.world.server, s.world.generation)
    ensures var c, step := s.world.server.current, ReplyStep(s, packet);
            && OnlySlot(s.world.server, step.server, c)
            && step.server.requestGeneration <= step.server.runGeneration
            && SafeAt(AfterServerStep(s, c, step), c)
  {
  }

  /** A reply that is refused is no step at all. */
  lemma RefusedReplyChangesNothing(s: System, packet: ResponsePacket)
    requires WellFormed(s) && !ReplyAllowed(s.world.server, s.world.generation)
    ensures AfterServerStep(s, s.world.server.current, ReplyStep(s, packet)) == s
  {
    var c := s.world.server.current;
    assert s.world.links[c := s.world.links[c]] == s.world.links;
    assert s.journals[c := s.journals[c]] == s.journals;
  }

  lemma ReplySafe(s: System, packet: ResponsePacket)
    requires Safe(s) && s.world.phase == Running
    ensures Safe(AfterServerStep(s, s.world.server.current, ReplyStep(s, packet)))
  {
    var c, step := s.world.server.current, ReplyStep(s, packet);
    var s' := AfterServerStep(s, c, step);
    if ReplyAllowed(s.world.server, s.world.generation) {
      ReplySafeLink(s, packet);
      ReplyAdvances(s, packet);
      AdvanceRotates(s, c, step);
      forall j | 0 <= j < |s.world.links| ensures SafeAt(s', j) {
        assert SafeAt(s, j);
      }
    } else {
      RefusedReplyChangesNothing(s, packet);
    }
  }

  lemma RequestSafe(s: System, i: nat, packet: RequestPacket, timeoutMsec: int, now: int)
    requires Safe(s) && s.world.phase == Running && i < |s.world.links|
    ensures Safe(AfterRequest(s, i, RequestStep(s, i, packet, timeoutMsec, now)))
  {
    var s' := AfterRequest(s, i, RequestStep(s, i, packet, timeoutMsec, now));
    forall j | 0 <= j < |s.world.links| ensures SafeAt(s', j) {
      assert SafeAt(s, j);
    }
  }

  lemma CancelSafe(s: System, i: nat)
    requires Safe(s) && i < |s.world.links|
    ensures Safe(AfterCancel(s, i, CancelStep(s, i)))
  {
    var s' := AfterCancel(s, i, CancelStep(s, i));
    forall j | 0 <= j < |s.world.links| ensures SafeAt(s', j) {
      assert SafeAt(s, j);
    }
  }

  lemma ClientPollSafe(s: System, i: nat, now: int)
    requires Safe(s) && i < |s.world.links|
    ensures Safe(AfterClientPoll(s, i, ClientPollStep(s, i, now)))
  {
    var s' := AfterClientPoll(s, i, ClientPollStep(s, i, now));
    forall j | 0 <= j < |s.world.links| ensures SafeAt(s', j) {
      assert SafeAt(s, j);
    }
  }

  lemma NewRunSafe(s: System)
    requires Safe(s) && !s.world.phase.Starting?
    ensures Safe(NewRun(s))
  {
    var s' := NewRun(s);
    forall j | 0 <= j < |s.world.links| ensures SafeAt(s', j) {
      assert SafeAt(s, j);
    }
  }

  /** Leaving one of these phases for another never reveals a box. */
  lemma PhaseSafe(s: System, phase: Phase)
    requires Safe(s) && Todo(s.world.phase) == {} && !phase.Starting?
    requires phase == Running ==> s.world.phase.Starting?
    ensures Safe(InPhase(s, phase))
  {
    var s' := InPhase(s, phase);
    forall j | 0 <= j < |s.world.links| ensures SafeAt(s', j) {
      assert SafeAt(s, j);
    }
  }

  lemma ClearSafe(s: System, box: BoxId, phase: Phase)
    requires Safe(s)
    requires || (s.world.phase.Resetting? && phase.Resetting?)
             || (s.world.phase.Starting? && phase == Starting(s.world.phase.todo - {box}))
    ensures Safe(InPhase(Lower(s, box), phase))
  {
    var s' := InPhase(Lower(s, box), phase);
    forall j | 0 <= j < |s.world.links| ensures SafeAt(s', j) {
      assert SafeAt(s, j);
    }
  }

  lemma ProgressSafe(s: System, percentage: int)
    requires Safe(s)
    ensures Safe(Next(s, SetProgress(percentage)))
  {
    var s' := Next(s, SetProgress(percentage));
    forall j | 0 <= j < |s.world.links| ensures SafeAt(s', j) {
      assert SafeAt(s, j);
    }
  }

  lemma NextSafe(s: System, step: Step)
    requires Safe(s)
    ensures Safe(Next(s, step))
  {
    var phase := s.world.phase;
    match step
    case PollServer(now) =>
      if phase == Running { PollSafe(s, now); }
    case ReplyFromApp(packet) =>
      if phase == Running { ReplySafe(s, packet); }
    case SetProgress(percentage) =>
      ProgressSafe(s, percentage);
    case RequestFromApp(i, packet, timeoutMsec, now) =>
      if phase == Running && i < |s.world.links| { RequestSafe(s, i, packet, timeoutMsec, now); }
    case PollClient(i, now) =>
      if i < |s.world.links| { ClientPollSafe(s, i, now); }
    case CancelFromApp(i) =>
      if i < |s.world.links| { CancelSafe(s, i); }
    case Stop =>
      if phase == Running { PhaseSafe(s, Stopped); }
    case BeginReset =>
      if phase == Stopped || phase == ResetDone { PhaseSafe(s, Resetting(AllBoxes(|s.world.links|))); }
    case EndReset =>
      if phase == Resetting({}) { PhaseSafe(s, ResetDone); }
    case BeginStart =>
      if phase == Stopped || phase == ResetDone { NewRunSafe(s); }
    case EndStart =>
      if phase == Starting({}) { PhaseSafe(s, Running); }
    case ClearFlag(box) =>
      if phase.Resetting? && box in phase.todo { ClearSafe(s, box, Resetting(phase.todo - {box})); }
      if phase.Starting? && box in phase.todo { ClearSafe(s, box, Starting(phase.todo - {box})); }
  }

  /** The server, what it took and whom it replied to are as they were, the percentage aside. */
  predicate ServerAlone(s: System, s': System)
    requires WellFormed(s) && SameShape(s, s')
  {
    && s'.attempts == s.attempts && s'.world.generation == s.world.generation
    && RunServer(s'.world) == RunServer(s.world).(percentage := RunServer(s'.world).percentage)
    && forall i :: 0 <= i < |s.world.links| ==>
                     s'.journals[i].taken == s.journals[i].taken && s.journals[i].sent <= s'.journals[i].sent
  }

  lemma OthersLeaveServerAlone(s: System, step: Step)
    requires WellFormed(s) && !step.PollServer? && !step.ReplyFromApp? && !step.BeginStart?
    ensures ServerAlone(s, Next(s, step))
  {
  }

  lemma {:induction false} RunSafe(s: System, steps: seq<Step>)
    requires Initial(s)
    ensures Safe(Run(s, steps))
  {
    if steps == [] {
      InitialSafe(s);
    } else {
      RunSafe(s, steps[..|steps| - 1]);
      NextSafe(Run(s, steps[..|steps| - 1]), steps[|steps| - 1]);
    }
  }

  /**
    Cross-run safety: after any calls, in any order, with any packets, a poll that
    reports a request, a cancel or a completion reports a packet written while this
    very run was Running, by a writer that had noticed this run.
  */
  lemma NoStaleReport(s: System, steps: seq<Step>, step: Step)
    requires Initial(s)
    ensures var now := Run(s, steps);
            ReportOf(now, step) != Quiet ==> ReportOf(now, step).stamp == OwnStamp(now.world.generation)
  {
    RunSafe(s, steps);
    var r := Run(s, steps);
    match step
    case PollServer(now) =>
      assert SafeAt(r, Turn(r));
    case PollClient(i, now) =>
      if i < |r.world.links| { assert SafeAt(r, i); }
    case _ =>
  }

  /** Client i is told by this step that its request is completed. */
  predicate CompletesFor(s: System, step: Step, i: nat)
    requires WellFormed(s)
  {
    ReportOf(s, step).ToClient? && ReportOf(s, step).client == i
  }

  /** The application reads its response in the client's buffer: only a completion writes there, and what it reports. */
  lemma OnlyCompletionsFillBuffer(s: System, step: Step, i: nat)
    requires WellFormed(s) && i < |s.world.links|
    ensures Next(s, step).world.links[i].client.responseBuffer
         == if CompletesFor(s, step, i) then ReportOf(s, step).response else s.world.links[i].client.responseBuffer
  {
  }

  lemma AcceptedGrowsByCompletions(s: System, step: Step, i: nat)
    requires WellFormed(s) && i < |s.world.links|
    ensures var before, after := s.journals[i].accepted, Next(s, step).journals[i].accepted;
            || after == before + (if CompletesFor(s, step, i) then [ReportOf(s, step).response] else [])
            || (after == [] && !CompletesFor(s, step, i))
  {
  }

  /**
    The buffer holds the last completion of the run, from the moment it is reported until
    the next one, whatever else is called by anybody.
  */
  lemma {:induction false} BufferHoldsLastCompletion(s: System, steps: seq<Step>, i: nat)
    requires Initial(s) && i < |s.world.links|
    ensures var client, accepted := Run(s, steps).world.links[i].client, Run(s, steps).journals[i].accepted;
            accepted != [] ==> client.responseBuffer == accepted[|accepted| - 1]
  {
    if steps != [] {
      var before, last := steps[..|steps| - 1], steps[|steps| - 1];
      BufferHoldsLastCompletion(s, before, i);
      OnlyCompletionsFillBuffer(Run(s, before), last, i);
      AcceptedGrowsByCompletions(Run(s, before), last, i);
    }
  }

  /**
    The clearing that opens a run takes down only flags of packets written before the
    run was Running; while a run is Running, nothing is cleared at all.
  */
  lemma {:induction false} ClearingSparesOwnPackets(s: System, steps: seq<Step>, box: BoxId)
    requires Initial(s)
    requires box.client < |s.world.links|
    ensures var r := Run(s, steps);
            var link, journal := r.world.links[box.client], r.journals[box.client];
            var link' := Next(r, ClearFlag(box)).world.links[box.client];
            && (r.world.phase == Running ==> Next(r, ClearFlag(box)) == r)
            && (r.world.phase.Starting? && link.req.flag && !link'.req.flag ==>
                  journal.reqStamp.generation < r.world.generation || !journal.reqStamp.running)
            && (r.world.phase.Starting? && link.resp.flag && !link'.resp.flag ==>
                  journal.respStamp.generation < r.world.generation || !journal.respStamp.running)
  {
    RunSafe(s, steps);
    assert SafeAt(Run(s, steps), box.client);
  }

  /** The k-th reply of a run, whatever it says and whether or not it fits, is made to client k mod n. */
  lemma {:induction false} StrictRotation(s: System, steps: seq<Step>, k: nat)
    requires Initial(s)
    requires k < |Run(s, steps).attempts|
    ensures Run(s, steps).attempts[k] == k % |s.world.links|
  {
    RunSafe(s, steps);
  }
}
