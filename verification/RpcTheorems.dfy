/**
  The promises of the RPC protocol, for every run that follows the rules of use:
  exactly-once service in order, one place for each request, matched completions,
  cancels that hit only their own request, and a shared request buffer that is never
  overwritten while in use.
*/
module RpcTheorems {
  import opened Options
  import opened RpcTypes
  import opened ServiceServer
  import opened RpcSystem
  import opened RpcSafety
  import opened RpcDelivery

  /** A state some run that follows the rules ends in. */
  ghost predicate Reachable(s: System) {
    WellFormed(s) &&
    exists start, steps :: Initial(start) && RunFollowsRules(start, steps) && s == Run(start, steps)
  }

  lemma ReachableDelivers(s: System)
    requires Reachable(s)
    ensures Delivers(s)
  {
    var start, steps :| Initial(start) && RunFollowsRules(start, steps) && s == Run(start, steps);
    RunDelivers(start, steps);
  }

  /** What the theorems use of reachability, for one client. */
  lemma ReachableAt(s: System, i: nat)
    requires Reachable(s) && i < |s.world.links|
    ensures SafeServer(s) && SafeAt(s, i) && DeliversAt(s, i)
  {
    ReachableDelivers(s);
  }

  /**
    Exactly once, in order: the server takes the requests a client sent, as sent; the
    k-th reply answers the k-th of them, by its id and by what the server's buffer held
    when the reply was made, byte for byte; the client accepts the replies as replied; no
    two requests of a run carry the same id; and only the last can be outstanding.
  */
  lemma ExactlyOnce(s: System, i: nat)
    requires Reachable(s) && i < |s.world.links|
    ensures var j := s.journals[i];
            && j.taken <= j.sent
            && j.accepted <= j.replied
            && |j.accepted| <= |j.replied| <= |j.taken| <= |j.sent| <= |j.accepted| + 1
            && |j.answered| == |j.replied|
            && (forall k :: 0 <= k < |j.replied| ==>
                  j.replied[k].header.requestId == j.sent[k].header.requestId && j.answered[k] == j.sent[k])
            && (forall k, l :: 0 <= k < l < |j.sent| ==>
                  j.sent[k].header.requestId < j.sent[l].header.requestId)
  {
    ReachableAt(s, i);
    IdsCountUp(s.journals[i]);
  }

  lemma IdsCountUp(j: Journal)
    requires Streams(j)
    ensures forall k, l :: 0 <= k < l < |j.sent| ==> j.sent[k].header.requestId < j.sent[l].header.requestId
  {
    forall k, l | 0 <= k < l < |j.sent|
      ensures j.sent[k].header.requestId < j.sent[l].header.requestId
    {
      IdsCountUpFrom(j, k, l);
    }
  }

  lemma {:induction false} IdsCountUpFrom(j: Journal, k: nat, l: nat)
    requires Streams(j) && k < l < |j.sent|
    ensures j.sent[k].header.requestId < j.sent[l].header.requestId
  {
    if k + 1 < l {
      IdsCountUpFrom(j, k, l - 1);
    }
  }

  /** Where the outstanding request of a client is: 1 request box, 2 server, 3 response box, 0 nowhere. */
  function Place(s: System, i: nat): nat
    requires WellFormed(s) && i < |s.world.links|
  {
    var link := s.world.links[i];
    if InRequestBox(s.world.phase, link, i) then 1
    else if RunServer(s.world).slots[i] != Idle then 2
    else if RespVisible(s.world.phase, link, i) then 3
    else 0
  }

  predicate BeforeClearing(s: System) {
    s.world.phase == Running || s.world.phase == Stopped
  }

  /**
    A client waits if and only if its request is somewhere, and then it is in that one
    place only.
  */
  lemma OnePlace(s: System, i: nat)
    requires Reachable(s) && i < |s.world.links| && BeforeClearing(s)
    ensures var link := s.world.links[i];
            var inRequestBox := InRequestBox(s.world.phase, link, i);
            var atServer := RunServer(s.world).slots[i] != Idle;
            var inResponseBox := RespVisible(s.world.phase, link, i);
            && (RunClient(s.world, link).state != Idle <==> inRequestBox || atServer || inResponseBox)
            && !(inRequestBox && atServer) && !(atServer && inResponseBox) && !(inResponseBox && inRequestBox)
  {
    ReachableAt(s, i);
  }

  /** The request of client i is where it was, or one place further on and `mover` says so. */
  predicate Moved(s: System, s': System, i: nat, from: nat, mover: bool)
    requires WellFormed(s) && WellFormed(s') && i < |s.world.links| == |s'.world.links|
  {
    Place(s', i) == Place(s, i) || (mover && Place(s, i) == from && Place(s', i) == (from + 1) % 4)
  }

  lemma PollMoves(s: System, i: nat, now: int)
    requires WellFormed(s) && i < |s.world.links| && s.world.phase == Running
    requires DeliversAt(s, i) && DeliversAt(s, Turn(s))
    ensures Moved(s, Next(s, PollServer(now)), i, 1, Turn(s) == i && PollStep(s, now).event == RequestIn)
  {
    PollIsPlain(s, now);
  }

  lemma ReplyMoves(s: System, i: nat, packet: ResponsePacket)
    requires WellFormed(s) && i < |s.world.links| && s.world.phase == Running && SafeServer(s)
    requires DeliversAt(s, i) && DeliversAt(s, s.world.server.current)
    ensures Moved(s, Next(s, ReplyFromApp(packet)), i, 2, s.world.server.current == i)
  {
  }

  lemma RequestMoves(s: System, i: nat, step: Step)
    requires WellFormed(s) && i < |s.world.links| && s.world.phase == Running
    requires step.RequestFromApp? && FollowsRules(s, step) && DeliversAt(s, i)
    ensures Moved(s, Next(s, step), i, 0, step.client == i)
  {
  }

  lemma ClientPollMoves(s: System, i: nat, client: nat, now: int)
    requires WellFormed(s) && i < |s.world.links| && BeforeClearing(s) && DeliversAt(s, i)
    ensures Moved(s, Next(s, PollClient(client, now)), i, 3,
                  client == i && Completes(ClientPollStep(s, i, now).event))
  {
  }

  lemma CancelStays(s: System, i: nat, client: nat)
    requires WellFormed(s) && i < |s.world.links| && BeforeClearing(s) && SafeAt(s, i) && DeliversAt(s, i)
    ensures Place(Next(s, CancelFromApp(client)), i) == Place(s, i)
  {
  }

  lemma OtherStepsStay(s: System, i: nat, step: Step)
    requires WellFormed(s) && i < |s.world.links| && BeforeClearing(s) && BeforeClearing(Next(s, step))
    requires step.SetProgress? || step.Stop? || step.BeginReset? || step.EndReset? || step.BeginStart?
             || step.EndStart? || step.ClearFlag?
    ensures Place(Next(s, step), i) == Place(s, i)
  {
  }

  /**
    A request moves from its request box to the server, to its response box and away,
    one place at a time and never back, and each move is made by one kind of step
    only: the request itself, the poll that reports it, its reply, its completion.
  */
  lemma PlaceMovesForward(s: System, step: Step, i: nat)
    requires Reachable(s) && i < |s.world.links|
    requires FollowsRules(s, step)
    requires BeforeClearing(s) && BeforeClearing(Next(s, step))
    ensures var s' := Next(s, step);
            match step
            case RequestFromApp(client, _, _, _) => Moved(s, s', i, 0, client == i)
            case PollServer(now) => Moved(s, s', i, 1, Turn(s) == i && PollStep(s, now).event == RequestIn)
            case ReplyFromApp(_) => Moved(s, s', i, 2, s.world.server.current == i)
            case PollClient(client, now) =>
              Moved(s, s', i, 3, client == i && Completes(ClientPollStep(s, i, now).event))
            case _ => Place(s', i) == Place(s, i)
  {
    ReachableAt(s, i);
    match step
    case PollServer(now) =>
      ReachableAt(s, Turn(s));
      if s.world.phase == Running { PollMoves(s, i, now); }
    case ReplyFromApp(packet) =>
      ReachableAt(s, s.world.server.current);
      if s.world.phase == Running { ReplyMoves(s, i, packet); }
    case RequestFromApp(_, _, _, _) =>
      if s.world.phase == Running { RequestMoves(s, i, step); }
    case PollClient(client, now) =>
      ClientPollMoves(s, i, client, now);
    case CancelFromApp(client) =>
      CancelStays(s, i, client);
    case _ =>
      OtherStepsStay(s, i, step);
  }

  lemma ReplyAnswersAt(s: System, packet: ResponsePacket)
    requires WellFormed(s) && DeliversAt(s, s.world.server.current) && SafeServer(s)
    requires ReplyAllowed(s.world.server, s.world.generation)
    ensures var c := s.world.server.current;
            var j, step := s.journals[c], ReplyStep(s, packet);
            && |j.sent| == |j.replied| + 1
            && s.world.server.requestBuffer == j.sent[|j.replied|]
            && s.world.server.requestHeader == j.sent[|j.replied|].header
            && (s.world.phase == Running ==> step.delivered == Some(packet))
  {
  }

  /**
    The server application answers what the client sent: when a reply passes, the
    request buffer holds the request whose answer is due, byte for byte, the reply is
    delivered and becomes the answer to exactly that request.
  */
  lemma ReplyAnswersSentRequest(s: System, packet: ResponsePacket)
    requires Reachable(s) && s.world.phase == Running && FollowsRules(s, ReplyFromApp(packet))
    requires ReplyAllowed(s.world.server, s.world.generation)
    ensures var c := s.world.server.current;
            var j, j' := s.journals[c], Next(s, ReplyFromApp(packet)).journals[c];
            && |j.sent| == |j.replied| + 1
            && s.world.server.requestBuffer == j.sent[|j.replied|]
            && j'.replied == j.replied + [packet]
            && packet.header.requestId == j.sent[|j.replied|].header.requestId
  {
    ReachableAt(s, s.world.server.current);
    ReplyAnswersAt(s, packet);
  }

  lemma CompletionMatchesAt(s: System, i: nat, now: int)
    requires WellFormed(s) && i < |s.world.links| && SafeAt(s, i) && DeliversAt(s, i)
    requires Completes(ClientPollStep(s, i, now).event)
    ensures var j, link := s.journals[i], s.world.links[i];
            && link.resp.packet.header.requestId == link.client.requestId
            && |j.sent| == |j.replied| == |j.accepted| + 1
            && link.resp.packet == j.replied[|j.accepted|]
            && link.resp.packet.header.requestId == j.sent[|j.accepted|].header.requestId
  {
  }

  lemma CompletionIsRecorded(s: System, i: nat, now: int)
    requires WellFormed(s) && i < |s.world.links|
    requires ReportOf(s, PollClient(i, now)) != Quiet
    ensures var packet := s.world.links[i].resp.packet;
            && Completes(ClientPollStep(s, i, now).event)
            && ReportOf(s, PollClient(i, now)).ToClient? && ReportOf(s, PollClient(i, now)).response == packet
            && Next(s, PollClient(i, now)).journals[i]
               == s.journals[i].(accepted := s.journals[i].accepted + [packet])
  {
  }

  /**
    A completion a client is told of is the next reply of its own outstanding request:
    it carries the client's current request id, though no code compares ids.
  */
  lemma MatchingCompletion(s: System, i: nat, now: int)
    requires Reachable(s) && i < |s.world.links|
    requires ReportOf(s, PollClient(i, now)) != Quiet
    ensures var j, j' := s.journals[i], Next(s, PollClient(i, now)).journals[i];
            var response := ReportOf(s, PollClient(i, now)).response;
            && response.header.requestId == s.world.links[i].client.requestId
            && |j.sent| == |j.replied| == |j.accepted| + 1
            && response == j.replied[|j.accepted|]
            && response.header.requestId == j.sent[|j.accepted|].header.requestId
            && j'.accepted == j'.replied == j.replied
  {
    ReachableAt(s, i);
    CompletionIsRecorded(s, i, now);
    CompletionMatchesAt(s, i, now);
    hide Next, ReportOf;
  }

  /** The server is told to cancel only the request it is working on, by the id of that request. */
  lemma CancelHitsItsOwnRequest(s: System, now: int)
    requires Reachable(s)
    requires ReportOf(s, PollServer(now)) != Quiet
    requires ReportOf(s, PollServer(now)).serverEvent == RequestCancel
    ensures var c := Turn(s);
            && RunServer(s.world).slots[c] == Doing
            && RunClient(s.world, s.world.links[c]).state == Canceling
            && s.journals[c].sent != []
            && ReportOf(s, PollServer(now)).request.header.requestId
               == RunServer(s.world).requestHeader.requestId
               == Last(s.journals[c].sent).header.requestId
  {
    ReachableAt(s, Turn(s));
  }

  /**
    A cancel the reply overtook harms nobody: while it lies in the box, the client's
    next request is refused; the server drops it silently when the turn comes round.
  */
  lemma OvertakenCancelIsDropped(s: System, i: nat, step: Step)
    requires Reachable(s) && s.world.phase == Running && i < |s.world.links|
    requires CancelInBox(s.world.phase, s.world.links[i], i) && RunServer(s.world).slots[i] == Idle
    requires FollowsRules(s, step)
    ensures var s' := Next(s, step);
            && (step.RequestFromApp? && step.client == i ==>
                  s'.journals[i] == s.journals[i] && s'.world.links[i].req == s.world.links[i].req)
            && (step.PollServer? && Turn(s) == i ==>
                  && ReportOf(s, step) == Quiet
                  && !s'.world.links[i].req.flag
                  && s'.attempts == s.attempts
                  && RunServer(s'.world).slots == RunServer(s.world).slots)
  {
    ReachableAt(s, i);
  }

  /**
    One request buffer for all clients is enough: at most the current client has a
    request at the server, the buffer holds that request, its response box is free.
  */
  lemma SharedBufferIsSafe(s: System, i: nat)
    requires Reachable(s) && i < |s.world.links| && RunServer(s.world).slots[i] != Idle
    ensures i == Turn(s)
    ensures s.journals[i].sent != []
    ensures RunServer(s.world).requestBuffer == Last(s.journals[i].sent)
    ensures RunServer(s.world).requestHeader == Last(s.journals[i].sent).header
    ensures s.world.phase == Running ==> s.world.links[i].resp.Accepts()
  {
    ReachableAt(s, i);
  }

  /** The request of client i at the server, and what the server keeps for it. */
  predicate KeepsRequest(before: Server, after: Server, i: nat) {
    && i < |after.slots| && after.slots[i] != Idle
    && after.requestBuffer == before.requestBuffer
    && after.requestHeader == before.requestHeader
    && after.current == i
  }

  lemma PollKeepsRequest(s: System, i: nat, now: int)
    requires WellFormed(s) && s.world.phase == Running && i < |s.world.links|
    requires DeliversAt(s, i) && RunServer(s.world).slots[i] != Idle
    ensures KeepsRequest(RunServer(s.world), PollStep(s, now).server, i)
    ensures PollStep(s, now).server.runGeneration == s.world.generation
  {
    PollIsPlain(s, now);
  }

  /**
    While a request is at the server no step overwrites the buffer; it leaves the
    server only by its reply or with its run.
  */
  lemma BufferOutlivesOtherSteps(s: System, i: nat, step: Step)
    requires Reachable(s) && i < |s.world.links| && RunServer(s.world).slots[i] != Idle
    requires !step.BeginStart?
    ensures var s' := Next(s, step);
            || (step.ReplyFromApp? && s'.journals[i].replied == s.journals[i].replied + [step.reply])
            || KeepsRequest(RunServer(s.world), RunServer(s'.world), i)
  {
    ReachableAt(s, i);
    match step
    case PollServer(now) =>
      if s.world.phase == Running { PollKeepsRequest(s, i, now); }
    case ReplyFromApp(packet) =>
      ReplyTakesRequestAway(s, i, packet);
    case BeginStart =>
    case _ =>
      OthersLeaveServerAlone(s, step);
      hide Next;
  }

  lemma ReplyTakesRequestAway(s: System, i: nat, packet: ResponsePacket)
    requires WellFormed(s) && i < |s.world.links| && SafeServer(s) && DeliversAt(s, i)
    requires RunServer(s.world).slots[i] != Idle
    ensures var s' := Next(s, ReplyFromApp(packet));
            || s'.journals[i].replied == s.journals[i].replied + [packet]
            || KeepsRequest(RunServer(s.world), RunServer(s'.world), i)
  {
    if s.world.phase == Running && ReplyAllowed(s.world.server, s.world.generation) {
      ReplyAnswersAt(s, packet);
    }
  }

  /** Under the rules no reply ever fails, and the server never has to send a busy or error packet. */
  lemma RepliesNeverFail(s: System, packet: ResponsePacket, now: int)
    requires Reachable(s) && s.world.phase == Running
    ensures ReplyAllowed(s.world.server, s.world.generation) ==>
              ReplyStep(s, packet).delivered == Some(packet)
    ensures !PollStep(s, now).attempted
  {
    ReachableAt(s, s.world.server.current);
    ReachableAt(s, Turn(s));
    if ReplyAllowed(s.world.server, s.world.generation) {
      ReplyAnswersAt(s, packet);
    }
    PollIsPlain(s, now);
  }

  /**
    Outside the rules a poll can lose the request in progress: status, busy and error
    packets go out as replies and free the slot. It does so exactly when the response
    box is free and either a progress report is due, or something arrived that is not a
    valid cancel of a request that was not being cancelled yet.
  */
  lemma WhenAPollDropsTheRequest(s: System, now: int)
    requires WellFormed(s) && s.world.phase == Running && RunServer(s.world).State() != Idle
    ensures var server, link := RunServer(s.world), s.world.links[Turn(s)];
            var header := link.req.packet.header;
            PollStep(s, now).server.slots[Turn(s)] == Idle <==>
              && link.resp.Accepts()
              && (if link.req.flag then
                    || server.State() == Canceling
                    || !ValidRequestHeader(s.world.config, header) || header.opcode != OPCODE_CANCEL
                  else
                    WantsProgressReport(server, now))
  {
  }

  /** The header is one that client i can use for its next request. */
  predicate OwnNow(s: System, i: nat, header: RequestHeader)
    requires WellFormed(s) && i < |s.world.links|
  {
    OwnRequest(s.world.config.AddressOf(i), RunClient(s.world, s.world.links[i]), header)
  }

  lemma OwnOneStepLater(s: System, i: nat, header: RequestHeader, step: Step)
    requires WellFormed(s) && i < |s.world.links| && OwnNow(s, i, header) && !CompletesFor(s, step, i)
    ensures OwnNow(Next(s, step), i, header)
  {
  }

  /**
    A request header stays good from when it was built until its client completes:
    whatever is called in between, new runs included.
  */
  lemma {:induction false} BuiltRequestStaysOwn(s: System, i: nat, header: RequestHeader, steps: seq<Step>)
    requires WellFormed(s) && i < |s.world.links| && OwnNow(s, i, header)
    requires forall k :: 0 <= k < |steps| ==> !CompletesFor(Run(s, steps[..k]), steps[k], i)
    ensures OwnNow(Run(s, steps), i, header)
  {
    if steps != [] {
      var before, last := steps[..|steps| - 1], steps[|steps| - 1];
      assert forall k :: 0 <= k < |before| ==> before[..k] == steps[..k];
      BuiltRequestStaysOwn(s, i, header, before);
      OwnOneStepLater(Run(s, before), i, header, last);
    }
  }

  /** A response header stays the right answer as long as the server keeps its request. */
  lemma BuiltReplyStaysAnswer(config: Config, before: Server, after: Server, i: nat, header: ResponseHeader)
    requires before.Valid() && before.current == i && |before.slots| == |config.clientNames|
    requires SameTable(before, after) && KeepsRequest(before, after, i)
    ensures Answers(config, before, header) <==> Answers(config, after, header)
  {
  }

  lemma AskedAt(s: System, request: RequestPacket, now: int)
    requires Delivers(s) && s.world.phase == Running && s.world.links[Turn(s)].req.Accepts()
    requires FollowsRules(s, RequestFromApp(Turn(s), request, 0, now))
    ensures var asked := Next(s, RequestFromApp(Turn(s), request, 0, now));
            && Delivers(asked) && asked.world.phase == Running && Turn(asked) == Turn(s)
            && asked.world.generation == s.world.generation && asked.world.config == s.world.config
            && asked.world.links[Turn(s)].req == Mailbox(true, request)
            && asked.journals[Turn(s)].reqStamp == OwnStamp(s.world.generation)
  {
    RequestDelivers(s, Turn(s), request, 0, now);
  }

  lemma TakenAt(s: System, request: RequestPacket, now: int)
    requires Delivers(s) && s.world.phase == Running && s.world.links[Turn(s)].req == Mailbox(true, request)
    requires request.header.opcode == OPCODE_REQUEST
    ensures var taken := Next(s, PollServer(now));
            && Delivers(taken) && taken.world.phase == Running && taken.world.server.current == Turn(s)
            && taken.world.generation == s.world.generation && taken.world.config == s.world.config
            && ReportOf(s, PollServer(now)) == ToServer(Turn(s), RequestIn, request, s.journals[Turn(s)].reqStamp)
            && taken.world.server.State() == Doing && taken.world.server.requestHeader == request.header
            && taken.world.server.requestGeneration == s.world.generation
  {
    PollDelivers(s, now);
    assert DeliversAt(s, Turn(s));
    PollIsPlain(s, now);
  }

  lemma AnsweredAt(s: System, response: ResponsePacket, now: int)
    requires Delivers(s) && s.world.phase == Running && FollowsRules(s, ReplyFromApp(response))
    requires ReplyAllowed(s.world.server, s.world.generation)
    ensures var c := s.world.server.current;
            var answered := Next(s, ReplyFromApp(response));
            && Delivers(answered) && RespVisible(Running, answered.world.links[c], c)
            && answered.world.links[c].resp.packet == response
            && answered.world.phase == Running && answered.world.generation == s.world.generation
  {
    ReplyDelivers(s, response);
    assert DeliversAt(s, s.world.server.current);
    ReplyAnswersAt(s, response);
  }

  lemma AcceptedAt(s: System, i: nat, now: int)
    requires Delivers(s) && s.world.phase == Running && i < |s.world.links|
    requires RespVisible(Running, s.world.links[i], i)
    ensures var packet := s.world.links[i].resp.packet;
            ReportOf(s, PollClient(i, now)) ==
              ToClient(i, if packet.header.resultCode == RESULT_CANCELED then CancelDone else ResponseIn,
                       packet, OwnStamp(s.world.generation))
  {
    assert SafeAt(s, i) && DeliversAt(s, i);
  }

  /** When its turn has come, an idle client with an empty box gets its answer in four calls. */
  lemma RoundTripCompletes(s: System, request: RequestPacket, response: ResponsePacket, now: int)
    requires Reachable(s) && s.world.phase == Running
    requires s.world.links[Turn(s)].req.Accepts()
    requires FollowsRules(s, RequestFromApp(Turn(s), request, 0, now))
    requires response.header == ResponseHeader(
               request.header.requestId, s.world.config.serviceName, s.world.config.clientNames[Turn(s)],
               STATUS_DONE, 0, RESULT_OK)
    ensures var c := Turn(s);
            var asked := Next(s, RequestFromApp(c, request, 0, now));
            var taken := Next(asked, PollServer(now));
            var answered := Next(taken, ReplyFromApp(response));
            && ReportOf(asked, PollServer(now)) ==
                 ToServer(c, RequestIn, request, OwnStamp(s.world.generation))
            && ReportOf(answered, PollClient(c, now)) ==
                 ToClient(c, ResponseIn, response, OwnStamp(s.world.generation))
  {
    ReachableDelivers(s);
    AskedAt(s, request, now);
    var asked := Next(s, RequestFromApp(Turn(s), request, 0, now));
    TakenAt(asked, request, now);
    var taken := Next(asked, PollServer(now));
    AnsweredAt(taken, response, now);
    AcceptedAt(Next(taken, ReplyFromApp(response)), Turn(s), now);
  }
}
