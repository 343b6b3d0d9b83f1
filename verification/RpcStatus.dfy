/**
  What server and client say of a request that is not finished: the packets the server
  sends on its own, the progress a client sees, and the timeouts it reports.
*/
module RpcStatus {
  import opened RpcTypes
  import opened ServiceServer
  import opened RpcSystem
  import opened RpcSafety

  // ---------- the server ----------

  /** Service and client exist, and the operation is one of the two. */
  predicate Acceptable(config: Config, header: RequestHeader) {
    && header.serviceName == config.serviceName && header.clientName in config.clientNames
    && (header.opcode == OPCODE_REQUEST || header.opcode == OPCODE_CANCEL)
  }

  /** A report is due at once, and then whenever the last poll was longer ago than the interval. */
  predicate ReportIsDue(server: Server, now: int)
    requires server.Valid()
  {
    && server.State() == Doing && server.requestHeader.pollIntervalMsec > 0
    && (server.lastPollTime == 0 || server.lastPollTime + 1000 * server.requestHeader.pollIntervalMsec < now)
  }

  /**
    When a poll sends something on its own: a progress report that is due, or an answer
    to a packet that is unacceptable, or not a cancel while the request is in progress,
    or anything at all while it is being cancelled. It reaches the client if its box is free.
  */
  lemma PollSendsIff(s: System, now: int)
    requires WellFormed(s) && s.world.phase == Running
    ensures var server, link, step := RunServer(s.world), s.world.links[Turn(s)], PollStep(s, now);
            var header := link.req.packet.header;
            && (step.attempted <==>
                  if !link.req.flag then ReportIsDue(server, now)
                  else
                    || !Acceptable(s.world.config, header)
                    || server.State() == Canceling
                    || (server.State() == Doing && header.opcode != OPCODE_CANCEL))
            && (step.delivered.Some? <==> step.attempted && !link.resp.flag)
            && (step.delivered.Some? ==> step.resp == Mailbox(true, step.delivered.value))
  {
  }

  /**
    What it sends: never that the request is done, always under the id of the current
    request and to the client whose turn it is.
  */
  lemma OwnPacketsSayWhy(s: System, now: int)
    requires WellFormed(s) && s.world.phase == Running && PollStep(s, now).delivered.Some?
    ensures var server, link := RunServer(s.world), s.world.links[Turn(s)];
            var packet := PollStep(s, now).delivered.value;
            var header := packet.header;
            && packet.body == [] && header.requestId == server.requestHeader.requestId
            && header.serviceName == s.world.config.serviceName
            && header.clientName == s.world.config.clientNames[Turn(s)]
            && header.percentage == server.percentage % 256
            && (header.status, header.resultCode) ==
               if !link.req.flag then (STATUS_DOING, RESULT_OK)
               else if !Acceptable(s.world.config, link.req.packet.header) then (STATUS_ERROR, RESULT_INVALID)
               else if server.State() == Doing then (STATUS_DOING, RESULT_BUSY)
               else (STATUS_CANCELING, RESULT_BUSY)
  {
  }

  /** The server notices a new run. */
  predicate Notices(s: System, step: Step) {
    step.PollServer? && s.world.phase == Running && s.world.server.runGeneration != s.world.generation
  }

  /** The server takes a request. */
  predicate Takes(s: System, step: Step)
    requires WellFormed(s)
  {
    ReportOf(s, step).ToServer? && ReportOf(s, step).serverEvent == RequestIn
  }

  /** The progress last put by the application; a new request and a new run start at 0. */
  function LastProgress(start: System, steps: seq<Step>): int
    requires WellFormed(start)
  {
    if steps == [] then start.world.server.percentage
    else
      var before, step := steps[..|steps| - 1], steps[|steps| - 1];
      var s := Run(start, before);
      if step.SetProgress? then step.percentage
      else if Takes(s, step) || Notices(s, step) then 0
      else LastProgress(start, before)
  }

  /** The header of the request last taken in this run; a new run starts with an empty one. */
  function LastTaken(start: System, steps: seq<Step>): RequestHeader
    requires WellFormed(start)
  {
    if steps == [] then start.world.server.requestHeader
    else
      var before, step := steps[..|steps| - 1], steps[|steps| - 1];
      var s := Run(start, before);
      if Takes(s, step) then ReportOf(s, step).request.header
      else if Notices(s, step) then RequestHeader(0, "", "", 0, 0)
      else LastTaken(start, before)
  }

  lemma PollNotes(s: System, now: int)
    requires WellFormed(s) && s.world.phase == Running
    ensures var before, after := s.world.server, PollStep(s, now).server;
            var taken := PollStep(s, now).event == RequestIn;
            && (taken ==> after.percentage == 0 && after.requestHeader == s.world.links[Turn(s)].req.packet.header)
            && (!taken ==>
                  && after.percentage == RunServer(s.world).percentage
                  && after.requestHeader == RunServer(s.world).requestHeader)
  {
  }

  lemma NotesNext(s: System, step: Step)
    requires WellFormed(s)
    ensures var before, after := s.world.server, Next(s, step).world.server;
            && after.percentage ==
               (if step.SetProgress? then step.percentage
                else if Takes(s, step) || Notices(s, step) then 0 else before.percentage)
            && after.requestHeader ==
               (if Takes(s, step) then ReportOf(s, step).request.header
                else if Notices(s, step) then RequestHeader(0, "", "", 0, 0) else before.requestHeader)
  {
    if step.PollServer? && s.world.phase == Running {
      PollNotes(s, step.now);
      hide PollStep;
    }
  }

  lemma {:induction false} ServerKeepsNotes(start: System, steps: seq<Step>)
    requires WellFormed(start)
    ensures Run(start, steps).world.server.percentage == LastProgress(start, steps)
    ensures Run(start, steps).world.server.requestHeader == LastTaken(start, steps)
  {
    if steps != [] {
      ServerKeepsNotes(start, steps[..|steps| - 1]);
      NotesNext(Run(start, steps[..|steps| - 1]), steps[|steps| - 1]);
    }
  }

  lemma OwnPacketIsNoted(s: System, now: int)
    requires WellFormed(s) && s.world.phase == Running && PollStep(s, now).delivered.Some?
    ensures var header, server := PollStep(s, now).delivered.value.header, Next(s, PollServer(now)).world.server;
            header.requestId == server.requestHeader.requestId && header.percentage == server.percentage % 256
  {
  }

  /**
    After any calls, what a poll sends on its own has the id of the request last taken in
    this run and the progress last put for it.
  */
  lemma OwnPacketsAreOfThisRun(start: System, steps: seq<Step>, now: int)
    requires WellFormed(start)
    requires Run(start, steps).world.phase == Running && PollStep(Run(start, steps), now).delivered.Some?
    ensures var header := PollStep(Run(start, steps), now).delivered.value.header;
            && header.requestId == LastTaken(start, steps + [PollServer(now)]).requestId
            && header.percentage == LastProgress(start, steps + [PollServer(now)]) % 256
  {
    hide Next, PollStep;
    var s, all := Run(start, steps), steps + [PollServer(now)];
    assert all[..|all| - 1] == steps;
    ServerKeepsNotes(start, all);
    OwnPacketIsNoted(s, now);
    hide LastProgress, LastTaken;
  }

  function Polls(times: seq<int>): (steps: seq<Step>)
    ensures |steps| == |times|
  {
    seq(|times|, k requires 0 <= k < |times| => PollServer(times[k]))
  }

  function LastOf(last: int, times: seq<int>): int {
    if times == [] then last else times[|times| - 1]
  }

  /** Each time is within the interval of the one before. */
  predicate Frequent(last: int, times: seq<int>, interval: int) {
    times == [] ||
    (Frequent(last, times[..|times| - 1], interval)
     && LastOf(last, times) != 0
     && LastOf(last, times) - LastOf(last, times[..|times| - 1]) <= interval)
  }

  lemma QuietPoll(s: System, now: int)
    requires WellFormed(s) && s.world.phase == Running && s.world.server.runGeneration == s.world.generation
    requires s.world.server.State() == Doing && s.world.server.requestHeader.pollIntervalMsec > 0
    requires !s.world.links[Turn(s)].req.flag && !ReportIsDue(s.world.server, now)
    ensures Next(s, PollServer(now)) == s.(world := s.world.(server := s.world.server.(lastPollTime := now)))
  {
    var c, s' := Turn(s), Next(s, PollServer(now));
    assert s.world.links[c := s.world.links[c]] == s.world.links && s.journals[c := s.journals[c]] == s.journals;
    assert s'.world.links == s.world.links && s'.journals == s.journals;
  }

  /**
    The time of the last poll counts, not that of the last report: a server that polls
    more often than the client asked for sends its first report and no other.
  */
  lemma {:induction false} FrequentPollsNeverReport(s: System, times: seq<int>)
    requires WellFormed(s) && s.world.phase == Running && s.world.server.runGeneration == s.world.generation
    requires s.world.server.State() == Doing && s.world.server.requestHeader.pollIntervalMsec > 0
    requires !s.world.links[Turn(s)].req.flag && s.world.server.lastPollTime != 0
    requires Frequent(s.world.server.lastPollTime, times, 1000 * s.world.server.requestHeader.pollIntervalMsec)
    ensures var last := LastOf(s.world.server.lastPollTime, times);
            last != 0 && Run(s, Polls(times)) == s.(world := s.world.(server := s.world.server.(lastPollTime := last)))
  {
    if times != [] {
      var before := times[..|times| - 1];
      assert Polls(times)[..|before|] == Polls(before);
      FrequentPollsNeverReport(s, before);
      QuietPoll(Run(s, Polls(before)), times[|times| - 1]);
    }
  }

  // ---------- the client ----------

  /** A packet the client can use lies in its box. */
  predicate Hears(s: System, i: nat)
    requires WellFormed(s) && i < |s.world.links|
  {
    var link := s.world.links[i];
    && link.resp.flag
    && link.resp.packet.header.serviceName == s.world.config.serviceName
    && link.resp.packet.header.clientName == s.world.config.clientNames[i]
    && link.resp.packet.header.resultCode < RESULT_NUM
  }

  /** The client waits for an answer in this run. */
  predicate Waits(s: System, i: nat)
    requires WellFormed(s) && i < |s.world.links|
  {
    s.world.links[i].client.state != Idle && s.world.links[i].client.runGeneration == s.world.generation
  }

  /** When the client last heard of its request: it was sent, or a packet came. A new run makes it forget. */
  function LastHeard(start: System, steps: seq<Step>, i: nat): int
    requires WellFormed(start) && i < |start.world.links|
  {
    if steps == [] then start.world.links[i].client.heartbeatTime
    else
      var s, step := Run(start, steps[..|steps| - 1]), steps[|steps| - 1];
      var before := LastHeard(start, steps[..|steps| - 1], i);
      var current := s.world.links[i].client.runGeneration == s.world.generation;
      match step
      case RequestFromApp(client, _, _, now) =>
        if client != i || s.world.phase != Running then before
        else if !s.world.links[i].req.flag then now
        else if current then before else 0
      case PollClient(client, now) =>
        if client != i then before
        else if Waits(s, i) && Hears(s, i) then now
        else if current then before else 0
      case _ => before
  }

  lemma HeartbeatNext(s: System, step: Step, i: nat)
    requires WellFormed(s) && i < |s.world.links|
    ensures var before, after := s.world.links[i].client, Next(s, step).world.links[i].client;
            var current := before.runGeneration == s.world.generation;
            after.heartbeatTime ==
            match step
            case RequestFromApp(client, _, _, now) =>
              if client != i || s.world.phase != Running then before.heartbeatTime
              else if !s.world.links[i].req.flag then now
              else if current then before.heartbeatTime else 0
            case PollClient(client, now) =>
              if client != i then before.heartbeatTime
              else if Waits(s, i) && Hears(s, i) then now
              else if current then before.heartbeatTime else 0
            case _ => before.heartbeatTime
  {
  }

  lemma {:induction false} HeartbeatIsLastHeard(start: System, steps: seq<Step>, i: nat)
    requires WellFormed(start) && i < |start.world.links|
    ensures Run(start, steps).world.links[i].client.heartbeatTime == LastHeard(start, steps, i)
  {
    if steps != [] {
      HeartbeatIsLastHeard(start, steps[..|steps| - 1], i);
      HeartbeatNext(Run(start, steps[..|steps| - 1]), steps[|steps| - 1], i);
    }
  }

  /**
    A poll reports a timeout exactly if the client waits, is not cancelling, has nothing
    in its box and has not heard of its request for longer than the caller allowed.
  */
  lemma TimeoutIff(start: System, steps: seq<Step>, i: nat, now: int)
    requires WellFormed(start) && i < |start.world.links|
    ensures var s := Run(start, steps);
            var client := s.world.links[i].client;
            ClientPollStep(s, i, now).event == RequestTimeout <==>
              && Waits(s, i) && client.state != Canceling && !s.world.links[i].resp.flag
              && client.timeoutMsec > 0 && now - LastHeard(start, steps, i) > 1000 * client.timeoutMsec
  {
    HeartbeatIsLastHeard(start, steps, i);
  }

  /** The limit is the one given with the last request that was written. */
  lemma LimitIsLastRequests(s: System, step: Step, i: nat)
    requires WellFormed(s) && i < |s.world.links|
    ensures var before, after := s.world.links[i].client, Next(s, step).world.links[i].client;
            var written := step.RequestFromApp? && step.client == i && s.world.phase == Running
                           && !s.world.links[i].req.flag;
            && after.timeoutMsec == (if written then step.timeoutMsec else before.timeoutMsec)
            && after.requestHeader == (if written then step.request.header else before.requestHeader)
  {
  }

  /**
    A progress report is read, and shown if the last one was read longer ago than the
    interval; the client goes on waiting.
  */
  lemma ProgressIsShown(s: System, i: nat, now: int)
    requires WellFormed(s) && i < |s.world.links| && Waits(s, i) && Hears(s, i)
    requires s.world.links[i].resp.packet.header.status == STATUS_DOING
    requires s.world.links[i].client.requestHeader.pollIntervalMsec > 0
    ensures var client, s' := s.world.links[i].client, Next(s, PollClient(i, now));
            var after := s'.world.links[i].client;
            && after.state == client.state && after.requestId == client.requestId
            && after.responseBuffer == client.responseBuffer
            && after.lastPollTime == now && !s'.world.links[i].resp.flag
            && after.percentage ==
               (if client.lastPollTime == 0
                   || now - client.lastPollTime > 1000 * client.requestHeader.pollIntervalMsec then
                  s.world.links[i].resp.packet.header.percentage
                else client.percentage)
            && ReportOf(s, PollClient(i, now)) == Quiet
  {
  }

  /** The call looks for a new run first: a poll of the client, or a request while Running. */
  predicate Looks(s: System, step: Step, i: nat) {
    || (step.PollClient? && step.client == i)
    || (step.RequestFromApp? && step.client == i && s.world.phase == Running)
  }

  /** The client reads a progress report that it asked for. */
  predicate ReadsProgress(s: System, step: Step, i: nat)
    requires WellFormed(s) && i < |s.world.links|
  {
    && step.PollClient? && step.client == i && Waits(s, i) && Hears(s, i)
    && s.world.links[i].resp.packet.header.status == STATUS_DOING
    && s.world.links[i].client.requestHeader.pollIntervalMsec > 0
  }

  /** What a client shows changes with a report it reads, and is forgotten when it notices a new run. */
  lemma ProgressNext(s: System, step: Step, i: nat)
    requires WellFormed(s) && i < |s.world.links|
    ensures var before, after := s.world.links[i].client, Next(s, step).world.links[i].client;
            var forgets := Looks(s, step, i) && before.runGeneration != s.world.generation;
            && after.runGeneration == (if Looks(s, step, i) then s.world.generation else before.runGeneration)
            && (forgets ==> after.percentage == 0)
            && (!forgets && after.percentage != before.percentage ==>
                  ReadsProgress(s, step, i) && after.percentage == s.world.links[i].resp.packet.header.percentage)
            && after.lastPollTime ==
               if ReadsProgress(s, step, i) then step.now
               else if forgets || (Looks(s, step, i) && step.RequestFromApp? && !s.world.links[i].req.flag) then 0
               else before.lastPollTime
  {
  }

  /** The percentage came with a report read in step k, which was written in the present run. */
  ghost predicate ShownAt(start: System, steps: seq<Step>, i: nat, k: nat)
    requires WellFormed(start) && i < |start.world.links| && k < |steps|
  {
    var s, now := Run(start, steps[..k]), Run(start, steps);
    && ReadsProgress(s, steps[k], i) && s.journals[i].respStamp == OwnStamp(now.world.generation)
    && now.world.links[i].client.percentage == s.world.links[i].resp.packet.header.percentage
  }

  lemma ProgressIsThisRuns(s: System, step: Step, i: nat)
    requires Safe(s) && i < |s.world.links|
    ensures ReadsProgress(s, step, i) ==> s.journals[i].respStamp == OwnStamp(s.world.generation)
    ensures var now := Next(s, step).world;
            now.links[i].client.runGeneration == now.generation ==> now.generation == s.world.generation
  {
    assert SafeAt(s, i);
  }

  /**
    No stale progress: after any calls, what a client that has noticed the run shows is 0
    or came with a report that was written while this very run was Running.
  */
  lemma {:induction false} ShownIsThisRuns(start: System, steps: seq<Step>, i: nat)
    requires Initial(start) && i < |start.world.links|
    ensures var now := Run(start, steps).world;
            now.generation != start.world.generation && now.links[i].client.runGeneration == now.generation ==>
              now.links[i].client.percentage == 0 || exists k: nat :: k < |steps| && ShownAt(start, steps, i, k)
  {
    if steps != [] {
      var before, step := steps[..|steps| - 1], steps[|steps| - 1];
      var s, s' := Run(start, before), Run(start, steps);
      ShownIsThisRuns(start, before, i);
      RunSafe(start, before);
      ProgressNext(s, step, i);
      ProgressIsThisRuns(s, step, i);
      hide Next, ReadsProgress, Looks, Safe;
      var shown := s'.world.links[i].client.percentage;
      if s'.world.links[i].client.runGeneration == s'.world.generation != start.world.generation && shown != 0 {
        if shown != s.world.links[i].client.percentage {
          assert ShownAt(start, steps, i, |before|);
        } else {
          var k: nat :| k < |before| && ShownAt(start, before, i, k);
          assert before[..k] == steps[..k] && ShownAt(start, steps, i, k);
        }
      }
    }
  }

  /** A completion raises the id by one and ends the wait; no other call changes the id. */
  lemma IdRisesWithCompletion(s: System, step: Step, i: nat)
    requires WellFormed(s) && i < |s.world.links|
    ensures var before, after := s.world.links[i].client, Next(s, step).world.links[i].client;
            && after.requestId == before.requestId + (if CompletesFor(s, step, i) then 1 else 0)
            && (CompletesFor(s, step, i) ==> after.state == Idle)
  {
  }
}
