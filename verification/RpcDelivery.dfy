/**
  Delivery under the rules of use: an application requests only while its client is
  idle, with a header built for that request and without progress polling, and the
  server application answers the request in progress with DONE or ERROR. Then every
  request is served once, answered once and completed once, in order, although
  neither side ever compares request ids.
*/
module RpcDelivery {
  import opened Options
  import opened RpcTypes
  import opened ServiceServer
  import opened ServiceClient
  import opened RpcSystem
  import opened RpcSafety

  function Last<T>(s: seq<T>): T
    requires s != []
  {
    s[|s| - 1]
  }

  /** The client as it is once it has noticed the current run. */
  function RunClient(w: World, link: Link): Client {
    ClientResetIfNewRun(link.client, w.generation)
  }

  predicate OwnRequest(me: Address, client: Client, header: RequestHeader) {
    && header == RequestHeaderFor(me, client.requestId, OPCODE_REQUEST, header.pollIntervalMsec)
    && header.pollIntervalMsec <= 0
  }

  predicate Answers(config: Config, server: Server, header: ResponseHeader)
    requires server.Valid() && |server.slots| == |config.clientNames|
  {
    && header.requestId == server.requestHeader.requestId
    && header.serviceName == config.serviceName
    && header.clientName == config.clientNames[server.current]
    && (header.status == STATUS_DONE || header.status == STATUS_ERROR)
    && header.resultCode < RESULT_NUM
  }

  /** The rules of use, as what the caller of a step has to see to. */
  predicate FollowsRules(s: System, step: Step)
    requires WellFormed(s)
  {
    match step
    case RequestFromApp(i, packet, _, _) =>
      s.world.phase == Running && i < |s.world.links| ==>
        var client := RunClient(s.world, s.world.links[i]);
        client.state == Idle && OwnRequest(s.world.config.AddressOf(i), client, packet.header)
    case ReplyFromApp(packet) =>
      s.world.phase == Running && ReplyAllowed(s.world.server, s.world.generation) ==>
        Answers(s.world.config, s.world.server, packet.header)
    case _ => true
  }

  predicate RunFollowsRules(s: System, steps: seq<Step>)
    requires WellFormed(s)
  {
    steps == [] ||
    (RunFollowsRules(s, steps[..|steps| - 1]) &&
     FollowsRules(Run(s, steps[..|steps| - 1]), steps[|steps| - 1]))
  }

  /**
    The streams of one client: what is taken was sent, what is accepted was replied,
    id by id, the buffer held the request that was due, and the ids it sends count up.
  */
  predicate Streams(journal: Journal) {
    && (forall k :: 0 < k < |journal.sent| ==>
          journal.sent[k].header.requestId == journal.sent[k - 1].header.requestId + 1)
    && journal.taken <= journal.sent
    && journal.accepted <= journal.replied
    && journal.answered <= journal.sent && |journal.answered| == |journal.replied|
    && |journal.accepted| <= |journal.replied| <= |journal.taken| <= |journal.sent| <= |journal.accepted| + 1
    && forall k :: 0 <= k < |journal.replied| ==>
         && journal.replied[k].header.requestId == journal.taken[k].header.requestId
         && (journal.replied[k].header.status == STATUS_DONE || journal.replied[k].header.status == STATUS_ERROR)
  }

  /** A client waits exactly while the last request it sent is not completed. */
  predicate Waiting(me: Address, client: Client, journal: Journal) {
    if client.state == Idle then
      && |journal.sent| == |journal.accepted|
      && (journal.sent != [] ==> client.requestId == Last(journal.sent).header.requestId + 1)
    else
      && |journal.sent| == |journal.accepted| + 1
      && OwnRequest(me, client, Last(journal.sent).header)
  }

  predicate InRequestBox(phase: Phase, link: Link, i: nat) {
    ReqVisible(phase, link, i) && link.req.packet.header.opcode == OPCODE_REQUEST
  }

  predicate CancelInBox(phase: Phase, link: Link, i: nat) {
    ReqVisible(phase, link, i) && link.req.packet.header.opcode != OPCODE_REQUEST
  }

  /** A cancel this client built, for whichever of its requests. */
  predicate CancelOf(me: Address, header: RequestHeader) {
    header == RequestHeaderFor(me, header.requestId, OPCODE_CANCEL, -1)
  }

  predicate RequestBoxSound(
    me: Address, phase: Phase, client: Client, slot: ServiceState, link: Link, journal: Journal, i: nat)
  {
    && (InRequestBox(phase, link, i) ==>
          && client.state == Doing && slot == Idle && !RespVisible(phase, link, i)
          && |journal.sent| == |journal.taken| + 1
          && link.req.packet == Last(journal.sent))
    && (CancelInBox(phase, link, i) ==>
          && CancelOf(me, link.req.packet.header)
          && client.state != Doing && slot != Canceling
          && (slot == Doing && journal.sent != [] ==>
                link.req.packet.header.requestId == Last(journal.sent).header.requestId))
  }

  predicate SlotSound(phase: Phase, client: Client, slot: ServiceState, link: Link, journal: Journal, i: nat) {
    slot != Idle ==>
      && client.state != Idle && !RespVisible(phase, link, i)
      && (slot == Canceling ==> client.state == Canceling)
      && |journal.sent| == |journal.taken| == |journal.replied| + 1
  }

  predicate ResponseBoxSound(
    me: Address, phase: Phase, client: Client, slot: ServiceState, link: Link, journal: Journal, i: nat)
  {
    RespVisible(phase, link, i) ==>
      && client.state != Idle && slot == Idle
      && |journal.sent| == |journal.taken| == |journal.replied|
      && journal.replied != []
      && link.resp.packet == Last(journal.replied)
      && ValidResponseHeader(me, link.resp.packet.header)
  }

  /** Until flags are cleared, a request on its way is somewhere. */
  predicate Present(phase: Phase, client: Client, slot: ServiceState, link: Link, i: nat) {
    (phase == Running || phase == Stopped) && client.state != Idle ==>
      InRequestBox(phase, link, i) || slot != Idle || RespVisible(phase, link, i)
  }

  predicate DeliversLink(
    me: Address, phase: Phase, client: Client, slot: ServiceState, link: Link, journal: Journal, i: nat)
  {
    && Streams(journal)
    && Waiting(me, client, journal)
    && RequestBoxSound(me, phase, client, slot, link, journal, i)
    && SlotSound(phase, client, slot, link, journal, i)
    && ResponseBoxSound(me, phase, client, slot, link, journal, i)
    && Present(phase, client, slot, link, i)
  }

  /** A busy slot is the current one, and the server's one request buffer holds its request. */
  predicate Seated(server: Server, generation: nat, journal: Journal, i: nat)
    requires i < |server.slots|
  {
    server.slots[i] != Idle ==>
      && server.current == i
      && journal.sent != []
      && server.requestBuffer == Last(journal.sent)
      && server.requestHeader == Last(journal.sent).header
      && server.requestGeneration == generation
  }

  predicate DeliversAt(s: System, i: nat)
    requires WellFormed(s) && i < |s.world.links|
  {
    var server, link := RunServer(s.world), s.world.links[i];
    && DeliversLink(s.world.config.AddressOf(i), s.world.phase, RunClient(s.world, link), server.slots[i], link,
                    s.journals[i], i)
    && Seated(server, s.world.generation, s.journals[i], i)
  }

  ghost predicate Delivers(s: System) {
    && Safe(s)
    && forall i :: 0 <= i < |s.world.links| ==> DeliversAt(s, i)
  }

  lemma InitialDelivers(s: System)
    requires Initial(s)
    ensures Delivers(s)
  {
    InitialSafe(s);
  }

  /** What the rules leave of a poll: nothing new, a request taken in, a cancel dropped or taken up. */
  datatype PollCase = NothingNew | TakesRequest | DropsCancel | TakesCancel

  function PollCaseOf(s: System): PollCase
    requires WellFormed(s)
  {
    var link := s.world.links[Turn(s)];
    if !link.req.flag then NothingNew
    else if link.req.packet.header.opcode == OPCODE_REQUEST then TakesRequest
    else if RunServer(s.world).State() == Idle then DropsCancel
    else TakesCancel
  }

  function PollResult(s: System): ServerStep
    requires WellFormed(s)
  {
    var server, link, c := RunServer(s.world), s.world.links[Turn(s)], Turn(s);
    match PollCaseOf(s)
    case NothingNew => ServerStep(server, link.req, link.resp, ServerNone, false, None)
    case TakesRequest =>
      ServerStep(
        server.(
          slots := server.slots[c := Doing],
          requestHeader := link.req.packet.header,
          requestBuffer := link.req.packet,
          requestGeneration := server.runGeneration,
          percentage := 0),
        link.req.Taken(), link.resp, RequestIn, false, None)
    case DropsCancel => ServerStep(server, link.req.Taken(), link.resp, ServerNone, false, None)
    case TakesCancel =>
      ServerStep(
        server.(slots := server.slots[c := Canceling]), link.req.Taken(), link.resp, RequestCancel, false, None)
  }

  /** Invalid, busy and progress packets never come up. */
  lemma PollIsPlain(s: System, now: int)
    requires WellFormed(s) && s.world.phase == Running && DeliversAt(s, Turn(s))
    ensures PollStep(s, now) == PollResult(s)
  {
  }

  lemma TakenRequestDeliversAt(s: System)
    requires WellFormed(s) && s.world.phase == Running && DeliversAt(s, Turn(s)) && PollCaseOf(s) == TakesRequest
    requires SameTable(s.world.server, PollResult(s).server)
    ensures DeliversAt(AfterServerStep(s, Turn(s), PollResult(s)), Turn(s))
  {
    var c, step := Turn(s), PollResult(s);
    var s' := AfterServerStep(s, c, step);
    assert RunServer(s'.world) == step.server;
    assert s'.journals[c].taken == s.journals[c].sent;
  }

  lemma PollResultDeliversAt(s: System)
    requires WellFormed(s) && s.world.phase == Running && DeliversAt(s, Turn(s))
    requires SameTable(s.world.server, PollResult(s).server)
    ensures DeliversAt(AfterServerStep(s, Turn(s), PollResult(s)), Turn(s))
  {
    if PollCaseOf(s) == TakesRequest {
      TakenRequestDeliversAt(s);
    } else {
      var c, step := Turn(s), PollResult(s);
      var s' := AfterServerStep(s, c, step);
      assert RunServer(s'.world) == step.server;
      assert s'.journals[c] == s.journals[c];
    }
  }

  lemma PollDeliversAt(s: System, now: int)
    requires WellFormed(s) && s.world.phase == Running && DeliversAt(s, Turn(s))
    ensures DeliversAt(AfterServerStep(s, Turn(s), PollStep(s, now)), Turn(s))
    ensures !PollStep(s, now).attempted
  {
    PollIsPlain(s, now);
    PollResultDeliversAt(s);
  }

  lemma PollDelivers(s: System, now: int)
    requires Delivers(s) && s.world.phase == Running
    ensures Delivers(AfterServerStep(s, Turn(s), PollStep(s, now)))
  {
    var s' := AfterServerStep(s, Turn(s), PollStep(s, now));
    PollSafe(s, now);
    PollSafeLink(s, now);
    forall j | 0 <= j < |s.world.links| ensures DeliversAt(s', j) {
      assert DeliversAt(s, j);
      if j == Turn(s) {
        PollDeliversAt(s, now);
      }
    }
  }

  lemma ReplyDeliversAt(s: System, packet: ResponsePacket)
    requires Delivers(s) && s.world.phase == Running && FollowsRules(s, ReplyFromApp(packet))
    requires ReplyAllowed(s.world.server, s.world.generation)
    ensures DeliversAt(AfterServerStep(s, s.world.server.current, ReplyStep(s, packet)), s.world.server.current)
    ensures ReplyStep(s, packet).delivered == Some(packet)
  {
    assert DeliversAt(s, s.world.server.current);
  }

  lemma ReplyDelivers(s: System, packet: ResponsePacket)
    requires Delivers(s) && s.world.phase == Running && FollowsRules(s, ReplyFromApp(packet))
    ensures Delivers(AfterServerStep(s, s.world.server.current, ReplyStep(s, packet)))
  {
    var c := s.world.server.current;
    var s' := AfterServerStep(s, c, ReplyStep(s, packet));
    ReplySafe(s, packet);
    if ReplyAllowed(s.world.server, s.world.generation) {
      ReplySafeLink(s, packet);
      forall j | 0 <= j < |s.world.links| ensures DeliversAt(s', j) {
        if j == c {
          ReplyDeliversAt(s, packet);
        } else {
          assert DeliversAt(s, j);
        }
      }
    } else {
      RefusedReplyChangesNothing(s, packet);
    }
  }

  lemma RequestDeliversAt(s: System, i: nat, packet: RequestPacket, timeoutMsec: int, now: int)
    requires WellFormed(s) && s.world.phase == Running && i < |s.world.links| && DeliversAt(s, i)
    requires FollowsRules(s, RequestFromApp(i, packet, timeoutMsec, now))
    ensures DeliversAt(AfterRequest(s, i, RequestStep(s, i, packet, timeoutMsec, now)), i)
  {
  }

  lemma RequestDelivers(s: System, i: nat, packet: RequestPacket, timeoutMsec: int, now: int)
    requires Delivers(s) && s.world.phase == Running && i < |s.world.links|
    requires FollowsRules(s, RequestFromApp(i, packet, timeoutMsec, now))
    ensures Delivers(AfterRequest(s, i, RequestStep(s, i, packet, timeoutMsec, now)))
  {
    var s' := AfterRequest(s, i, RequestStep(s, i, packet, timeoutMsec, now));
    RequestSafe(s, i, packet, timeoutMsec, now);
    forall j | 0 <= j < |s.world.links| ensures DeliversAt(s', j) {
      assert DeliversAt(s, j);
      if j == i {
        RequestDeliversAt(s, i, packet, timeoutMsec, now);
      }
    }
  }

  lemma CancelDeliversAt(s: System, i: nat)
    requires WellFormed(s) && i < |s.world.links| && SafeAt(s, i) && DeliversAt(s, i)
    ensures DeliversAt(AfterCancel(s, i, CancelStep(s, i)), i)
  {
  }

  lemma CancelDelivers(s: System, i: nat)
    requires Delivers(s) && i < |s.world.links|
    ensures Delivers(AfterCancel(s, i, CancelStep(s, i)))
  {
    var s' := AfterCancel(s, i, CancelStep(s, i));
    CancelSafe(s, i);
    forall j | 0 <= j < |s.world.links| ensures DeliversAt(s', j) {
      assert SafeAt(s, j) && DeliversAt(s, j);
      if j == i {
        CancelDeliversAt(s, i);
      }
    }
  }

  lemma ClientPollKeepsStreams(s: System, i: nat, now: int)
    requires WellFormed(s) && i < |s.world.links| && SafeAt(s, i) && DeliversAt(s, i)
    ensures Streams(AfterClientPoll(s, i, ClientPollStep(s, i, now)).journals[i])
  {
    hide RequestBoxSound, Present;
  }

  lemma ClientPollKeepsWaiting(s: System, i: nat, now: int)
    requires WellFormed(s) && i < |s.world.links| && SafeAt(s, i) && DeliversAt(s, i)
    ensures var s' := AfterClientPoll(s, i, ClientPollStep(s, i, now));
            Waiting(s.world.config.AddressOf(i), RunClient(s'.world, s'.world.links[i]), s'.journals[i])
  {
    hide RequestBoxSound, SlotSound, Present;
  }

  lemma ClientPollDeliversAt(s: System, i: nat, now: int)
    requires WellFormed(s) && i < |s.world.links| && SafeAt(s, i) && DeliversAt(s, i)
    ensures DeliversAt(AfterClientPoll(s, i, ClientPollStep(s, i, now)), i)
  {
    ClientPollKeepsStreams(s, i, now);
    ClientPollKeepsWaiting(s, i, now);
  }

  lemma ClientPollDelivers(s: System, i: nat, now: int)
    requires Delivers(s) && i < |s.world.links|
    ensures Delivers(AfterClientPoll(s, i, ClientPollStep(s, i, now)))
  {
    var s' := AfterClientPoll(s, i, ClientPollStep(s, i, now));
    ClientPollSafe(s, i, now);
    forall j | 0 <= j < |s.world.links| ensures DeliversAt(s', j) {
      assert SafeAt(s, j) && DeliversAt(s, j);
      if j == i {
        ClientPollDeliversAt(s, i, now);
      }
    }
  }

  lemma NewRunDelivers(s: System)
    requires Delivers(s) && !s.world.phase.Starting?
    ensures Delivers(NewRun(s))
  {
    var s' := NewRun(s);
    NewRunSafe(s);
    forall j | 0 <= j < |s.world.links| ensures DeliversAt(s', j) {
      assert SafeAt(s, j) && DeliversAt(s, j);
    }
  }

  lemma PhaseDelivers(s: System, phase: Phase)
    requires Delivers(s) && Todo(s.world.phase) == {} && !phase.Starting?
    requires phase == Running ==> s.world.phase.Starting?
    requires phase == Stopped ==> s.world.phase == Running
    ensures Delivers(InPhase(s, phase))
  {
    var s' := InPhase(s, phase);
    PhaseSafe(s, phase);
    forall j | 0 <= j < |s.world.links| ensures DeliversAt(s', j) {
      assert SafeAt(s, j) && DeliversAt(s, j);
    }
  }

  /** Lowering a flag takes a packet out of sight; it puts nothing anywhere. */
  lemma ClearDeliversAt(s: System, box: BoxId, phase: Phase)
    requires Delivers(s) && box.client < |s.world.links|
    requires || (s.world.phase.Resetting? && phase.Resetting?)
             || (s.world.phase.Starting? && phase == Starting(s.world.phase.todo - {box}))
    ensures DeliversAt(InPhase(Lower(s, box), phase), box.client)
  {
    var i := box.client;
    var s' := InPhase(Lower(s, box), phase);
    assert SafeAt(s, i) && DeliversAt(s, i);
    assert ReqVisible(phase, s'.world.links[i], i) ==> ReqVisible(s.world.phase, s.world.links[i], i);
    assert RespVisible(phase, s'.world.links[i], i) ==> RespVisible(s.world.phase, s.world.links[i], i);
  }

  lemma ClearDelivers(s: System, box: BoxId, phase: Phase)
    requires Delivers(s)
    requires || (s.world.phase.Resetting? && phase.Resetting?)
             || (s.world.phase.Starting? && phase == Starting(s.world.phase.todo - {box}))
    ensures Delivers(InPhase(Lower(s, box), phase))
  {
    var s' := InPhase(Lower(s, box), phase);
    ClearSafe(s, box, phase);
    forall j | 0 <= j < |s.world.links| ensures DeliversAt(s', j) {
      assert DeliversAt(s, j);
      if j == box.client {
        ClearDeliversAt(s, box, phase);
      } else {
        OtherBoxesStay(s, box, phase, j);
      }
    }
  }

  lemma OtherBoxesStay(s: System, box: BoxId, phase: Phase, j: nat)
    requires WellFormed(s) && j < |s.world.links| && j != box.client && DeliversAt(s, j)
    requires || (s.world.phase.Resetting? && phase.Resetting?)
             || (s.world.phase.Starting? && phase == Starting(s.world.phase.todo - {box}))
    ensures DeliversAt(InPhase(Lower(s, box), phase), j)
  {
    var s' := InPhase(Lower(s, box), phase);
    assert s'.world.links[j] == s.world.links[j];
    assert ReqVisible(phase, s'.world.links[j], j) <==> ReqVisible(s.world.phase, s.world.links[j], j);
    assert RespVisible(phase, s'.world.links[j], j) <==> RespVisible(s.world.phase, s.world.links[j], j);
  }

  lemma ProgressDelivers(s: System, percentage: int)
    requires Delivers(s)
    ensures Delivers(Next(s, SetProgress(percentage)))
  {
    var s' := Next(s, SetProgress(percentage));
    ProgressSafe(s, percentage);
    forall j | 0 <= j < |s.world.links| ensures DeliversAt(s', j) {
      assert DeliversAt(s, j);
    }
  }

  lemma NextDelivers(s: System, step: Step)
    requires Delivers(s) && FollowsRules(s, step)
    ensures Delivers(Next(s, step))
  {
    var phase := s.world.phase;
    match step
    case PollServer(now) =>
      if phase == Running { PollDelivers(s, now); }
    case ReplyFromApp(packet) =>
      if phase == Running { ReplyDelivers(s, packet); }
    case SetProgress(percentage) =>
      ProgressDelivers(s, percentage);
    case RequestFromApp(i, packet, timeoutMsec, now) =>
      if phase == Running && i < |s.world.links| { RequestDelivers(s, i, packet, timeoutMsec, now); }
    case PollClient(i, now) =>
      if i < |s.world.links| { ClientPollDelivers(s, i, now); }
    case CancelFromApp(i) =>
      if i < |s.world.links| { CancelDelivers(s, i); }
    case Stop =>
      if phase == Running { PhaseDelivers(s, Stopped); }
    case BeginReset =>
      if phase == Stopped || phase == ResetDone { PhaseDelivers(s, Resetting(AllBoxes(|s.world.links|))); }
    case EndReset =>
      if phase == Resetting({}) { PhaseDelivers(s, ResetDone); }
    case BeginStart =>
      if phase == Stopped || phase == ResetDone { NewRunDelivers(s); }
    case EndStart =>
      if phase == Starting({}) { PhaseDelivers(s, Running); }
    case ClearFlag(box) =>
      if phase.Resetting? && box in phase.todo { ClearDelivers(s, box, Resetting(phase.todo - {box})); }
      if phase.Starting? && box in phase.todo { ClearDelivers(s, box, Starting(phase.todo - {box})); }
  }

  lemma {:induction false} RunDelivers(s: System, steps: seq<Step>)
    requires Initial(s) && RunFollowsRules(s, steps)
    ensures Delivers(Run(s, steps))
  {
    if steps == [] {
      InitialDelivers(s);
    } else {
      RunDelivers(s, steps[..|steps| - 1]);
      NextDelivers(Run(s, steps[..|steps| - 1]), steps[|steps| - 1]);
    }
  }
}
