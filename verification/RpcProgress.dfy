/**
  What calls can and cannot bring about: every service can be brought to Running, a
  waiting request is served exactly when everybody in front of it asks as well, and a
  progress report can cost the server its request.
*/
module RpcProgress {
  import opened RpcTypes
  import opened ServiceServer
  import opened ServiceClient
  import opened RpcSystem
  import opened RpcSafety
  import opened RpcDelivery
  import opened RpcTheorems

  // ---------- reaching Running ----------

  lemma Append(start: System, steps: seq<Step>, step: Step)
    requires WellFormed(start) && RunFollowsRules(start, steps) && FollowsRules(Run(start, steps), step)
    ensures RunFollowsRules(start, steps + [step])
    ensures Run(start, steps + [step]) == Next(Run(start, steps), step)
  {
    assert (steps + [step])[..|steps|] == steps;
  }

  /** Nothing lies in any box, and the server has yet to notice the run. */
  predicate Blank(s: System) {
    && WellFormed(s) && s.world.server.runGeneration != s.world.generation
    && forall i :: 0 <= i < |s.world.links| ==> s.world.links[i].req.Accepts() && s.world.links[i].resp.Accepts()
  }

  lemma ClearingGoesOn(s: System, box: BoxId)
    requires Blank(s) && s.world.phase.Starting? && box in s.world.phase.todo
    ensures Next(s, ClearFlag(box)).world.phase == Starting(s.world.phase.todo - {box})
    ensures Blank(Next(s, ClearFlag(box)))
  {
  }

  lemma ReachableNext(s: System, step: Step)
    requires Reachable(s) && FollowsRules(s, step)
    ensures Reachable(Next(s, step))
  {
    var start, steps :| Initial(start) && RunFollowsRules(start, steps) && s == Run(start, steps);
    Append(start, steps, step);
  }

  /** However many flags there are, each can be cleared, and then the run begins. */
  lemma {:induction false} ClearsAndRuns(s: System) returns (r: System)
    requires Reachable(s) && s.world.phase.Starting? && Blank(s)
    ensures Reachable(r) && r.world.phase == Running && Blank(r)
    ensures r.world.generation == s.world.generation && SameShape(s, r)
    decreases |s.world.phase.todo|
  {
    hide Reachable;
    if s.world.phase.todo == {} {
      ReachableNext(s, EndStart);
      r := Next(s, EndStart);
    } else {
      var box :| box in s.world.phase.todo;
      ClearingGoesOn(s, box);
      ReachableNext(s, ClearFlag(box));
      r := ClearsAndRuns(Next(s, ClearFlag(box)));
    }
  }

  /** From any initial state, calls that follow the rules lead to a Running simulation with empty boxes. */
  lemma EveryServiceCanRun(start: System) returns (s: System)
    requires Initial(start)
    ensures Reachable(s) && s.world.phase == Running && SameShape(start, s)
    ensures Blank(s) && RunServer(s.world).slots == AllIdle(|s.world.links|)
  {
    assert Reachable(start) by {
      assert RunFollowsRules(start, []) && start == Run(start, []);
    }
    hide Reachable;
    ReachableNext(start, BeginStart);
    s := ClearsAndRuns(Next(start, BeginStart));
  }

  /** What is not on the list any more has been cleared. */
  predicate ClearedBut(s: System, todo: set<BoxId>) {
    forall i: nat :: i < |s.world.links| ==>
      && (RequestBox(i) !in todo ==> s.world.links[i].req.Accepts())
      && (ResponseBox(i) !in todo ==> s.world.links[i].resp.Accepts())
  }

  lemma ResettingGoesOn(s: System, box: BoxId)
    requires WellFormed(s) && s.world.phase.Resetting? && box in s.world.phase.todo
    requires ClearedBut(s, s.world.phase.todo)
    ensures var s', todo := Next(s, ClearFlag(box)), s.world.phase.todo - {box};
            s'.world.phase == Resetting(todo) && ClearedBut(s', todo)
            && s'.world.generation == s.world.generation && s'.world.server == s.world.server
  {
  }

  lemma {:induction false} ClearsAndResets(s: System) returns (r: System)
    requires WellFormed(s) && Reachable(s) && s.world.phase.Resetting? && ClearedBut(s, s.world.phase.todo)
    ensures Reachable(r) && r.world.phase == ResetDone && ClearedBut(r, {})
    ensures r.world.generation == s.world.generation && SameShape(s, r)
    decreases |s.world.phase.todo|
  {
    hide Reachable;
    if s.world.phase.todo == {} {
      ReachableNext(s, EndReset);
      r := Next(s, EndReset);
    } else {
      var box :| box in s.world.phase.todo;
      ResettingGoesOn(s, box);
      ReachableNext(s, ClearFlag(box));
      r := ClearsAndResets(Next(s, ClearFlag(box)));
    }
  }

  /**
    A run can be stopped, reset and started again at any time, whatever lies in the
    boxes and whoever waits; the next run starts with empty boxes and an idle server.
  */
  lemma AnotherRun(s: System) returns (r: System)
    requires Reachable(s) && s.world.phase == Running
    ensures Reachable(r) && r.world.phase == Running && SameShape(s, r)
    ensures r.world.generation == s.world.generation + 1
    ensures Blank(r) && RunServer(r.world).slots == AllIdle(|r.world.links|)
  {
    hide Reachable;
    ReachableNext(s, Stop);
    var stopped := Next(s, Stop);
    ReachableNext(stopped, BeginReset);
    var reset := ClearsAndResets(Next(stopped, BeginReset));
    ReachableNext(reset, BeginStart);
    ReachableDelivers(reset);
    r := ClearsAndRuns(Next(reset, BeginStart));
  }

  // ---------- waiting for a silent client ----------

  /** The server has nothing to do for the client whose turn it is; a cancel does not count. */
  predicate WaitsForTurn(s: System) {
    && WellFormed(s) && s.world.phase == Running
    && RunServer(s.world).slots[Turn(s)] == Idle
    && var req := s.world.links[Turn(s)].req;
       req.flag ==> CancelOf(s.world.config.AddressOf(Turn(s)), req.packet.header)
  }

  predicate Asking(step: Step, client: nat) {
    step.RequestFromApp? && step.client == client
  }

  /** A poll finds nothing, or drops a cancel. */
  lemma SilentPoll(s: System, now: int)
    requires Safe(s) && WaitsForTurn(s)
    ensures var s' := Next(s, PollServer(now));
            && WaitsForTurn(s') && Turn(s') == Turn(s) && ReportOf(s, PollServer(now)) == Quiet
            && forall j :: 0 <= j < |s.world.links| && j != Turn(s) ==> s'.world.links[j] == s.world.links[j]
  {
  }

  predicate KeepsRequestBox(s: System, s': System, j: nat)
    requires WellFormed(s) && SameShape(s, s') && j < |s.world.links|
  {
    s.world.links[j].req.flag ==> s'.world.links[j].req == s.world.links[j].req
  }

  lemma OthersKeepRequestBoxes(s: System, step: Step, j: nat)
    requires WellFormed(s) && s.world.phase == Running && j < |s.world.links|
    requires !step.PollServer? && !step.ReplyFromApp?
    ensures KeepsRequestBox(s, Next(s, step), j)
  {
  }

  /** What can come into the box of a client that does not ask is a cancel. */
  lemma OnlyCancelsComeIn(s: System, step: Step, c: nat)
    requires WellFormed(s) && s.world.phase == Running && c < |s.world.links| && !Asking(step, c)
    requires !step.PollServer? && !step.ReplyFromApp?
    ensures var req, req' := s.world.links[c].req, Next(s, step).world.links[c].req;
            req' == req || CancelOf(s.world.config.AddressOf(c), req'.packet.header)
  {
  }

  lemma SilenceKeepsTurn(s: System, step: Step)
    requires Safe(s) && WaitsForTurn(s) && !Asking(step, Turn(s)) && !step.Stop?
    ensures WaitsForTurn(Next(s, step)) && Turn(Next(s, step)) == Turn(s)
    ensures step.PollServer? ==> ReportOf(s, step) == Quiet
    ensures forall j :: 0 <= j < |s.world.links| && j != Turn(s) ==> KeepsRequestBox(s, Next(s, step), j)
  {
    assert SafeAt(s, Turn(s));
    if step.PollServer? {
      SilentPoll(s, step.now);
    } else if step.ReplyFromApp? {
      RefusedReplyChangesNothing(s, step.reply);
    } else {
      OthersLeaveServerAloneWhileRunning(s, step);
      OnlyCancelsComeIn(s, step, Turn(s));
      forall j | 0 <= j < |s.world.links| ensures KeepsRequestBox(s, Next(s, step), j) {
        OthersKeepRequestBoxes(s, step, j);
      }
      hide Next, Safe, CancelOf, KeepsRequestBox;
    }
  }

  lemma OthersLeaveServerAloneWhileRunning(s: System, step: Step)
    requires WellFormed(s) && s.world.phase == Running
    requires !step.PollServer? && !step.ReplyFromApp? && !step.Stop?
    ensures ServerAlone(s, Next(s, step)) && Next(s, step).world.phase == Running
  {
    if !step.BeginStart? {
      OthersLeaveServerAlone(s, step);
    }
  }

  /** From s to r the turn and all boxes but that of the client whose turn it is were kept. */
  ghost predicate Held(s: System, r: System)
    requires WellFormed(s)
  {
    && SameShape(s, r) && Safe(r) && WaitsForTurn(r) && Turn(r) == Turn(s)
    && forall j :: 0 <= j < |s.world.links| && j != Turn(s) ==> KeepsRequestBox(s, r, j)
  }

  lemma HeldOneStepLater(s: System, r: System, step: Step)
    requires WellFormed(s) && Held(s, r) && !Asking(step, Turn(s)) && !step.Stop?
    ensures Held(s, Next(r, step))
  {
    NextSafe(r, step);
    SilenceKeepsTurn(r, step);
    hide Next, Safe, WaitsForTurn, Turn;
    forall j | 0 <= j < |s.world.links| && j != Turn(s) ensures KeepsRequestBox(s, Next(r, step), j) {
      assert KeepsRequestBox(s, r, j) && KeepsRequestBox(r, Next(r, step), j);
    }
  }

  /**
    The server polls only the client whose turn it is, and the turn passes only with a
    reply. So as long as that client does not ask, whatever else is called, its cancels
    included, the server reports nothing and every other box keeps what it has.
  */
  lemma {:induction false} SilentClientHoldsTheTurn(s: System, steps: seq<Step>, now: int)
    requires Safe(s) && WaitsForTurn(s)
    requires forall k :: 0 <= k < |steps| ==> !Asking(steps[k], Turn(s)) && !steps[k].Stop?
    ensures Held(s, Run(s, steps))
    ensures ReportOf(Run(s, steps), PollServer(now)) == Quiet
  {
    if steps != [] {
      SilentClientHoldsTheTurn(s, steps[..|steps| - 1], now);
      HeldOneStepLater(s, Run(s, steps[..|steps| - 1]), steps[|steps| - 1]);
    }
    SilentPoll(Run(s, steps), now);
    hide Next, Safe, WaitsForTurn, Turn;
  }

  // ---------- being served ----------

  /** The client has a request waiting in its box. */
  predicate Asks(s: System, i: nat)
    requires WellFormed(s) && i < |s.world.links|
  {
    InRequestBox(s.world.phase, s.world.links[i], i)
  }

  /** The next request of a client, as the rules want it. */
  function PlainRequest(s: System, i: nat, body: seq<bv8>): RequestPacket
    requires WellFormed(s) && i < |s.world.links|
  {
    RequestPacket(
      RequestHeaderFor(s.world.config.AddressOf(i), s.world.links[i].client.requestId, OPCODE_REQUEST, 0), body)
  }

  /** It does happen, on every service with two clients: one asks while it is the other one's turn. */
  lemma SomebodyWaits(start: System, body: seq<bv8>) returns (s: System)
    requires Initial(start) && |start.world.links| > 1
    ensures Reachable(s) && SameShape(start, s)
    ensures WaitsForTurn(s) && Turn(s) == 0 && Asks(s, 1)
  {
    var running := EveryServiceCanRun(start);
    var step := RequestFromApp(1, PlainRequest(running, 1, body), 0, 0);
    OnePlace(running, 1);
    assert RunServer(running.world).slots[1] == Idle && RunServer(running.world).slots[0] == Idle;
    ReachableNext(running, step);
    s := Next(running, step);
  }

  /** A server without a request in progress. */
  ghost predicate Free(s: System) {
    Delivers(s) && s.world.phase == Running && RunServer(s.world).slots[Turn(s)] == Idle
  }

  lemma PollReportsIff(s: System, now: int)
    requires Free(s)
    ensures ReportOf(s, PollServer(now)) != Quiet <==> Asks(s, Turn(s))
  {
    assert DeliversAt(s, Turn(s));
    PollIsPlain(s, now);
  }

  /** How the server application answers a request it is told of. */
  datatype Answer = Answer(now: int, failed: bool, resultCode: nat, body: seq<bv8>)

  predicate Proper(a: Answer) {
    a.resultCode < RESULT_NUM
  }

  function ReplyWith(s: System, a: Answer): ResponsePacket
    requires WellFormed(s)
  {
    ResponsePacket(
      ResponseHeaderFor(s.world.config, s.world.server, if a.failed then STATUS_ERROR else STATUS_DONE, a.resultCode),
      a.body)
  }

  /** One round of a server application: a poll, and the reply if it is told of a request. */
  function Round(s: System, a: Answer): (s': System)
    requires WellFormed(s)
    ensures SameShape(s, s')
  {
    var polled := Next(s, PollServer(a.now));
    if ReportOf(s, PollServer(a.now)) == Quiet then polled else Next(polled, ReplyFromApp(ReplyWith(polled, a)))
  }

  function Rounds(s: System, answers: seq<Answer>): (s': System)
    requires WellFormed(s)
    ensures SameShape(s, s')
    decreases |answers|
  {
    if answers == [] then s else Rounds(Round(s, answers[0]), answers[1..])
  }

  /** The client i turns after c. */
  function After(c: nat, i: nat, n: nat): (k: nat)
    requires c < n && i < n
    ensures k < n
  {
    if c + i < n then c + i else c + i - n
  }

  lemma PollTakes(s: System, now: int)
    requires Free(s) && Asks(s, Turn(s))
    ensures var c, taken := Turn(s), Next(s, PollServer(now));
            && Delivers(taken) && taken.world.phase == Running && taken.world.server.current == c
            && taken.world.generation == s.world.generation
            && taken.world.server.State() == Doing && taken.world.server.requestGeneration == s.world.generation
            && taken.journals[c].taken == s.journals[c].sent && !taken.world.links[c].req.flag
            && forall j :: 0 <= j < |s.world.links| && j != c ==>
                             taken.world.links[j] == s.world.links[j] && taken.journals[j] == s.journals[j]
  {
    PollDelivers(s, now);
    assert DeliversAt(s, Turn(s));
    PollIsPlain(s, now);
  }

  lemma ReplyPassesTheTurn(s: System, packet: ResponsePacket)
    requires Delivers(s) && s.world.phase == Running && FollowsRules(s, ReplyFromApp(packet))
    requires ReplyAllowed(s.world.server, s.world.generation)
    ensures var c, n, s' := s.world.server.current, |s.world.links|, Next(s, ReplyFromApp(packet));
            && Free(s') && Turn(s') == (c + 1) % n
            && s'.journals[c].taken == s.journals[c].taken
            && (forall j :: 0 <= j < n ==> s'.world.links[j].req == s.world.links[j].req)
            && forall j :: 0 <= j < n && j != c ==> s'.journals[j] == s.journals[j]
  {
    var c := s.world.server.current;
    ReplyDelivers(s, packet);
    assert DeliversAt(s, c) && DeliversAt(s, (c + 1) % |s.world.links|);
    ReplyAnswersAt(s, packet);
  }

  lemma NextAfter(c: nat, n: nat)
    requires c < n
    ensures (c + 1) % n == if c + 1 < n then c + 1 else 0
  {
  }

  /** A round serves the client whose turn it is, if it asks, and passes the turn. */
  lemma RoundServes(s: System, a: Answer)
    requires Free(s) && Proper(a) && Asks(s, Turn(s))
    ensures var c, n, s' := Turn(s), |s.world.links|, Round(s, a);
            && Free(s') && Turn(s') == (if c + 1 < n then c + 1 else 0)
            && s'.journals[c].taken == s.journals[c].sent && !s'.world.links[c].req.flag
            && forall j :: 0 <= j < n && j != c ==>
                             s'.world.links[j].req == s.world.links[j].req && s'.journals[j] == s.journals[j]
  {
    PollReportsIff(s, a.now);
    PollTakes(s, a.now);
    var polled := Next(s, PollServer(a.now));
    ReplyPassesTheTurn(polled, ReplyWith(polled, a));
    NextAfter(Turn(s), |s.world.links|);
  }

  /** Otherwise it leaves everything to that client. */
  lemma RoundWaits(s: System, a: Answer)
    requires Free(s) && !Asks(s, Turn(s))
    ensures var s' := Round(s, a);
            && Free(s') && Turn(s') == Turn(s) && !Asks(s', Turn(s)) && s'.journals == s.journals
            && forall j :: 0 <= j < |s.world.links| && j != Turn(s) ==> s'.world.links[j] == s.world.links[j]
  {
    PollReportsIff(s, a.now);
    PollDelivers(s, a.now);
    assert DeliversAt(s, Turn(s));
    PollIsPlain(s, a.now);
  }

  /** A client without a request is not served, however many rounds there are. */
  lemma {:induction false} NothingToServe(s: System, answers: seq<Answer>, j: nat)
    requires Free(s) && j < |s.world.links| && !s.world.links[j].req.flag
    requires forall k :: 0 <= k < |answers| ==> Proper(answers[k])
    ensures Rounds(s, answers).journals[j].taken == s.journals[j].taken
    decreases |answers|
  {
    if answers != [] {
      if Asks(s, Turn(s)) {
        RoundServes(s, answers[0]);
      } else {
        RoundWaits(s, answers[0]);
        EmptyStaysEmpty(s, answers[0], j);
      }
      NothingToServe(Round(s, answers[0]), answers[1..], j);
    }
  }

  lemma EmptyStaysEmpty(s: System, a: Answer, j: nat)
    requires Free(s) && !Asks(s, Turn(s)) && j < |s.world.links| && !s.world.links[j].req.flag
    ensures !Round(s, a).world.links[j].req.flag
  {
    PollReportsIff(s, a.now);
    assert DeliversAt(s, Turn(s));
    PollIsPlain(s, a.now);
  }

  /** While the client whose turn it is does not ask, no round serves anybody. */
  lemma {:induction false} NobodyIsServed(s: System, answers: seq<Answer>, j: nat)
    requires Free(s) && !Asks(s, Turn(s)) && j < |s.world.links| && j != Turn(s)
    ensures Rounds(s, answers).journals[j].taken == s.journals[j].taken
    ensures Rounds(s, answers).world.links[j].req == s.world.links[j].req
    decreases |answers|
  {
    if answers != [] {
      RoundWaits(s, answers[0]);
      NobodyIsServed(Round(s, answers[0]), answers[1..], j);
    }
  }

  /** Everybody from the client whose turn it is to the one d turns later asks. */
  predicate AllAsk(s: System, d: nat)
    requires WellFormed(s) && d < |s.world.links|
  {
    forall i :: 0 <= i <= d ==> Asks(s, After(Turn(s), i, |s.world.links|))
  }

  lemma AllAskNext(s: System, a: Answer, d: nat)
    requires Free(s) && Proper(a) && Asks(s, Turn(s)) && 0 < d < |s.world.links|
    ensures Free(Round(s, a))
    ensures AllAsk(s, d) <==> AllAsk(Round(s, a), d - 1)
    ensures After(Turn(Round(s, a)), d - 1, |s.world.links|) == After(Turn(s), d, |s.world.links|) != Turn(s)
  {
    var c, n, s' := Turn(s), |s.world.links|, Round(s, a);
    RoundServes(s, a);
    forall i | 0 < i <= d
      ensures After(Turn(s'), i - 1, n) == After(c, i, n) != c
      ensures Asks(s', After(Turn(s'), i - 1, n)) <==> Asks(s, After(c, i, n))
    {
    }
    if AllAsk(s', d - 1) {
      forall i | 0 <= i <= d ensures Asks(s, After(c, i, n)) {
        if i > 0 {
          assert Asks(s', After(Turn(s'), i - 1, n));
        }
      }
    }
    if AllAsk(s, d) {
      forall i | 0 <= i <= d - 1 ensures Asks(s', After(Turn(s'), i, n)) {
        assert Asks(s, After(c, i + 1, n)) && After(Turn(s'), (i + 1) - 1, n) == After(c, i + 1, n);
      }
    }
  }

  /** What becomes of the request of the client d turns away. */
  predicate ServedOrWaits(s: System, s': System, d: nat, served: bool)
    requires WellFormed(s) && d < |s.world.links| && SameShape(s, s')
  {
    var j := After(Turn(s), d, |s.world.links|);
    if served then
      s'.journals[j].taken == s.journals[j].sent
    else
      s'.journals[j].taken == s.journals[j].taken && s'.world.links[j].req == s.world.links[j].req
  }

  /** The next client's distance is one less after a round. */
  lemma ServedFromNext(s: System, a: Answer, s': System, d: nat, served: bool)
    requires Free(s) && Proper(a) && Asks(s, Turn(s)) && 0 < d < |s.world.links|
    requires SameShape(s, s') && ServedOrWaits(Round(s, a), s', d - 1, served)
    ensures ServedOrWaits(s, s', d, served)
  {
    RoundServes(s, a);
    AllAskNext(s, a, d);
  }

  lemma SilenceServesNobody(s: System, answers: seq<Answer>, d: nat)
    requires Free(s) && d < |s.world.links| && !Asks(s, Turn(s)) && Asks(s, After(Turn(s), d, |s.world.links|))
    ensures !AllAsk(s, d) && ServedOrWaits(s, Rounds(s, answers), d, false)
  {
    assert After(Turn(s), 0, |s.world.links|) == Turn(s);
    NobodyIsServed(s, answers, After(Turn(s), d, |s.world.links|));
  }

  lemma FirstIsServed(s: System, answers: seq<Answer>)
    requires Free(s) && Asks(s, Turn(s)) && answers != []
    requires forall k :: 0 <= k < |answers| ==> Proper(answers[k])
    ensures AllAsk(s, 0) && ServedOrWaits(s, Rounds(s, answers), 0, true)
  {
    RoundServes(s, answers[0]);
    NothingToServe(Round(s, answers[0]), answers[1..], Turn(s));
  }

  /** The request of the client d turns away is taken, or lies where it lay. */
  lemma {:induction false} RoundsServe(s: System, answers: seq<Answer>, d: nat)
    requires Free(s) && d < |s.world.links| && Asks(s, After(Turn(s), d, |s.world.links|))
    requires forall k :: 0 <= k < |answers| ==> Proper(answers[k])
    ensures ServedOrWaits(s, Rounds(s, answers), d, |answers| > d && AllAsk(s, d))
    decreases |answers|
  {
    if !Asks(s, Turn(s)) {
      SilenceServesNobody(s, answers, d);
    } else if answers != [] {
      if d == 0 {
        FirstIsServed(s, answers);
      } else {
        LaterIsServed(s, answers, d);
      }
    }
  }

  lemma {:induction false} LaterIsServed(s: System, answers: seq<Answer>, d: nat)
    requires Free(s) && Asks(s, Turn(s)) && answers != []
    requires 0 < d < |s.world.links| && Asks(s, After(Turn(s), d, |s.world.links|))
    requires forall k :: 0 <= k < |answers| ==> Proper(answers[k])
    ensures ServedOrWaits(s, Rounds(s, answers), d, |answers| > d && AllAsk(s, d))
    decreases |answers|, 0
  {
    hide Round, Asks, AllAsk, ServedOrWaits, After;
    AllAskNext(s, answers[0], d);
    AskLater(s, answers[0], d);
    RoundsServe(Round(s, answers[0]), answers[1..], d - 1);
    ServedFromNext(s, answers[0], Rounds(s, answers), d, |answers| > d && AllAsk(s, d));
  }

  lemma AskLater(s: System, a: Answer, d: nat)
    requires Free(s) && Proper(a) && Asks(s, Turn(s)) && 0 < d < |s.world.links|
    requires Asks(s, After(Turn(s), d, |s.world.links|))
    ensures Asks(Round(s, a), After(Turn(Round(s, a)), d - 1, |s.world.links|))
  {
    RoundServes(s, a);
    AllAskNext(s, a, d);
  }

  /**
    When a waiting request is served: rounds of poll and reply take the request of the
    client d turns away exactly if there are more than d of them and every client from
    the one whose turn it is up to this one has a request in its box. Otherwise it lies
    where it lay. Whatever was taken is the client's latest request, which is new.
  */
  lemma RequestIsServedIff(s: System, answers: seq<Answer>, d: nat)
    requires Reachable(s) && s.world.phase == Running && RunServer(s.world).slots[Turn(s)] == Idle
    requires d < |s.world.links| && Asks(s, After(Turn(s), d, |s.world.links|))
    requires forall k :: 0 <= k < |answers| ==> Proper(answers[k])
    ensures var j, s' := After(Turn(s), d, |s.world.links|), Rounds(s, answers);
            && |s.journals[j].sent| == |s.journals[j].taken| + 1
            && (s'.journals[j].taken == s.journals[j].sent <==> |answers| > d && AllAsk(s, d))
            && (s'.journals[j].taken != s.journals[j].sent ==>
                  s'.journals[j].taken == s.journals[j].taken && s'.world.links[j].req == s.world.links[j].req)
  {
    ReachableDelivers(s);
    assert DeliversAt(s, After(Turn(s), d, |s.world.links|));
    RoundsServe(s, answers, d);
  }

  // ---------- losing a request ----------

  /** The next request of the client whose turn it is, but with progress reports, which the rules exclude. */
  function PolledRequest(s: System, body: seq<bv8>): RequestPacket
    requires WellFormed(s)
  {
    var c := Turn(s);
    RequestPacket(
      RequestHeaderFor(s.world.config.AddressOf(c), s.world.links[c].client.requestId, OPCODE_REQUEST, 1), body)
  }

  /**
    It does happen: on every service, a request with progress reports, a poll that takes
    it and a second poll leave the server without the request, and whatever the
    application then replies is refused, while the client goes on waiting.
  */
  lemma ProgressReportLosesRequest(start: System, body: seq<bv8>, now: int) returns (s: System)
    requires Initial(start)
    ensures Reachable(s) && s.world.phase == Running && SameShape(start, s)
    ensures var c := Turn(s);
            var asked := Next(s, RequestFromApp(c, PolledRequest(s, body), 0, now));
            var taken := Next(asked, PollServer(now));
            var lost := Next(taken, PollServer(now));
            && ReportOf(asked, PollServer(now)).ToServer?
            && ReportOf(asked, PollServer(now)).serverEvent == RequestIn
            && ReportOf(asked, PollServer(now)).request == PolledRequest(s, body)
            && taken.world.server.slots[c] == Doing && lost.world.server.slots[c] == Idle
            && (forall reply :: Next(lost, ReplyFromApp(reply)) == lost)
            && RunClient(lost.world, lost.world.links[c]).state == Doing
  {
    s := EveryServiceCanRun(start);
    ReachableAt(s, Turn(s));
    var packet, c := PolledRequest(s, body), Turn(s);
    var asked := Next(s, RequestFromApp(c, packet, 0, now));
    PolledRequestIsTaken(s, asked, packet, now);
    var taken := Next(asked, PollServer(now));
    ReportFreesSlot(taken, c, now);
    var lost := Next(taken, PollServer(now));
    forall reply ensures Next(lost, ReplyFromApp(reply)) == lost {
      RefusedReplyChangesNothing(lost, reply);
    }
  }

  lemma PolledRequestIsTaken(s: System, asked: System, packet: RequestPacket, now: int)
    requires Blank(s) && s.world.phase == Running && RunServer(s.world).slots == AllIdle(|s.world.links|)
    requires asked == Next(s, RequestFromApp(Turn(s), packet, 0, now))
    requires ValidRequestHeader(s.world.config, packet.header)
    requires packet.header.opcode == OPCODE_REQUEST && packet.header.pollIntervalMsec > 0
    requires RunClient(s.world, s.world.links[Turn(s)]).state == Idle
    ensures var c, taken := Turn(s), Next(asked, PollServer(now));
            && ReportOf(asked, PollServer(now)) == ToServer(c, RequestIn, packet, asked.journals[c].reqStamp)
            && taken.world.phase == Running && taken.world.server.runGeneration == taken.world.generation
            && taken.world.server.current == c && taken.world.server.requestHeader == packet.header
            && taken.world.server.lastPollTime == 0
            && taken.world.server.slots == AllIdle(|s.world.links|)[c := Doing]
            && !taken.world.links[c].req.flag && taken.world.links[c].resp.Accepts()
            && RunClient(taken.world, taken.world.links[c]).state == Doing
  {
  }

  lemma ReportFreesSlot(s: System, c: nat, now: int)
    requires WellFormed(s) && s.world.phase == Running && s.world.server.runGeneration == s.world.generation
    requires s.world.server.current == c && s.world.server.slots == AllIdle(|s.world.links|)[c := Doing]
    requires s.world.server.requestHeader.pollIntervalMsec > 0 && s.world.server.lastPollTime == 0
    requires !s.world.links[c].req.flag && s.world.links[c].resp.Accepts()
    ensures var lost := Next(s, PollServer(now));
            && lost.world.server.slots == AllIdle(|s.world.links|) && lost.world.phase == Running
            && RunClient(lost.world, lost.world.links[c]).state == RunClient(s.world, s.world.links[c]).state
  {
  }
}
