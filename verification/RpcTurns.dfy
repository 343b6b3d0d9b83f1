/**
  When a waiting request is taken, over any calls that follow the rules: counted in the
  replies the server makes, whoever asks in the meantime.
*/
module RpcTurns {
  import opened RpcTypes
  import opened ServiceServer
  import opened RpcSystem
  import opened RpcSafety
  import opened RpcDelivery
  import opened RpcTheorems
  import opened RpcProgress

  /** How many replies have been made since. */
  function Passed(s: System, s': System): int {
    |s'.attempts| - |s.attempts|
  }

  /** Client j's request that waited at s has been taken since. */
  predicate TakenSince(s: System, s': System, j: nat)
    requires WellFormed(s) && SameShape(s, s') && j < |s.world.links|
  {
    |s'.journals[j].taken| > |s.journals[j].taken|
  }

  predicate AtServer(s: System, j: nat)
    requires WellFormed(s) && j < |s.world.links|
  {
    RunServer(s.world).slots[j] != Idle
  }

  /** What holds on the way, for the client d turns away. */
  ghost predicate OnTheWay(s: System, s': System, d: nat)
    requires WellFormed(s) && d < |s.world.links|
  {
    var n := |s.world.links|;
    var j, passed := After(Turn(s), d, n), Passed(s, s');
    && SameShape(s, s') && Delivers(s') && s'.world.phase == Running
    && 0 <= passed && (passed <= d ==> Turn(s') == After(Turn(s), passed, n))
    && |s.journals[j].taken| <= |s'.journals[j].taken| && s.journals[j].sent <= s'.journals[j].sent
    && (TakenSince(s, s', j) <==> passed > d || (passed == d && AtServer(s', j)))
  }

  /** A poll takes a request of the client whose turn it is into its slot, and does no more. */
  lemma PollTakesIntoSlot(s: System, now: int)
    requires Delivers(s) && s.world.phase == Running
    ensures var c, s' := Turn(s), Next(s, PollServer(now));
            && Delivers(s') && s'.world.phase == Running && s'.attempts == s.attempts && Turn(s') == c
            && (forall j :: 0 <= j < |s.world.links| && j != c ==>
                  AtServer(s', j) == AtServer(s, j) && s'.journals[j] == s.journals[j])
            && s'.journals[c].sent == s.journals[c].sent
            && (if s'.journals[c].taken == s.journals[c].taken then AtServer(s', c) == AtServer(s, c)
                else !AtServer(s, c) && AtServer(s', c) && |s'.journals[c].taken| == |s.journals[c].taken| + 1)
  {
    PollDelivers(s, now);
    assert DeliversAt(s, Turn(s));
    PollIsPlain(s, now);
  }

  lemma PollOnTheWay(s: System, s': System, d: nat, now: int)
    requires WellFormed(s) && d < |s.world.links| && OnTheWay(s, s', d)
    ensures OnTheWay(s, Next(s', PollServer(now)), d)
  {
    PollTakesIntoSlot(s', now);
    hide Next, Delivers, AtServer;
  }

  /** Only the client whose turn it is can be at the server. */
  lemma OneAtServer(s: System, j: nat)
    requires Delivers(s) && j < |s.world.links| && AtServer(s, j)
    ensures j == Turn(s)
  {
    assert DeliversAt(s, j);
  }

  lemma ReplyLeavesSlot(s: System, packet: ResponsePacket)
    requires Delivers(s) && s.world.phase == Running && FollowsRules(s, ReplyFromApp(packet))
    requires ReplyAllowed(s.world.server, s.world.generation)
    ensures var c, n, s' := Turn(s), |s.world.links|, Next(s, ReplyFromApp(packet));
            && s.world.server.current == c && AtServer(s, c)
            && Delivers(s') && s'.world.phase == Running && Passed(s, s') == 1
            && Turn(s') == (if c + 1 < n then c + 1 else 0)
            && forall j :: 0 <= j < n ==>
                 && !AtServer(s', j)
                 && s'.journals[j].taken == s.journals[j].taken && s'.journals[j].sent == s.journals[j].sent
  {
    var c, s' := s.world.server.current, Next(s, ReplyFromApp(packet));
    assert DeliversAt(s, c);
    ReplyDelivers(s, packet);
    ReplyPassesTheTurn(s, packet);
    NextAfter(c, |s.world.links|);
    forall j | 0 <= j < |s.world.links| ensures !AtServer(s', j) {
      if AtServer(s', j) {
        OneAtServer(s', j);
      }
    }
  }

  lemma ReplyOnTheWay(s: System, s': System, d: nat, packet: ResponsePacket)
    requires WellFormed(s) && d < |s.world.links| && OnTheWay(s, s', d)
    requires FollowsRules(s', ReplyFromApp(packet))
    ensures OnTheWay(s, Next(s', ReplyFromApp(packet)), d)
  {
    if ReplyAllowed(s'.world.server, s'.world.generation) {
      ReplyLeavesSlot(s', packet);
      hide Next, Delivers, AtServer, FollowsRules, ReplyAllowed;
    } else {
      RefusedReplyChangesNothing(s', packet);
    }
  }

  lemma NextOnTheWay(s: System, s': System, d: nat, step: Step)
    requires WellFormed(s) && d < |s.world.links| && OnTheWay(s, s', d)
    requires FollowsRules(s', step) && Next(s', step).world.phase == Running
    ensures OnTheWay(s, Next(s', step), d)
  {
    match step
    case PollServer(now) => PollOnTheWay(s, s', d, now);
    case ReplyFromApp(packet) => ReplyOnTheWay(s, s', d, packet);
    case BeginStart =>
    case _ =>
      NextDelivers(s', step);
      OthersLeaveServerAlone(s', step);
      hide Next, Delivers, FollowsRules;
  }

  /** The simulation is Running all the time. */
  predicate StaysRunning(s: System, steps: seq<Step>)
    requires WellFormed(s)
  {
    forall k :: 0 <= k <= |steps| ==> Run(s, steps[..k]).world.phase == Running
  }

  lemma {:induction false} RunOnTheWay(s: System, steps: seq<Step>, d: nat)
    requires Delivers(s) && d < |s.world.links| && Asks(s, After(Turn(s), d, |s.world.links|))
    requires RunFollowsRules(s, steps) && StaysRunning(s, steps)
    ensures OnTheWay(s, Run(s, steps), d)
  {
    if steps == [] {
      assert steps[..0] == [];
      assert DeliversAt(s, After(Turn(s), d, |s.world.links|));
    } else {
      var before := steps[..|steps| - 1];
      assert forall k :: 0 <= k <= |before| ==> before[..k] == steps[..k];
      assert steps[..|steps|] == steps;
      RunOnTheWay(s, before, d);
      NextOnTheWay(s, Run(s, before), d, steps[|steps| - 1]);
    }
  }

  /**
    When a waiting request is taken: over any calls that follow the rules, by anybody,
    within one run, the request of the client d turns away has been taken exactly if the
    server has replied more than d times since, or d times and has this client's request
    in its slot. What was taken is then the very request that waited.
  */
  lemma WaitingRequestIsTakenIff(s: System, steps: seq<Step>, d: nat)
    requires Reachable(s) && d < |s.world.links| && Asks(s, After(Turn(s), d, |s.world.links|))
    requires RunFollowsRules(s, steps) && StaysRunning(s, steps)
    ensures var j, s' := After(Turn(s), d, |s.world.links|), Run(s, steps);
            && s.journals[j].sent == s.journals[j].taken + [s.world.links[j].req.packet]
            && (TakenSince(s, s', j) <==> Passed(s, s') > d || (Passed(s, s') == d && AtServer(s', j)))
            && (TakenSince(s, s', j) ==>
                  s'.journals[j].taken[|s.journals[j].taken|] == s.world.links[j].req.packet)
            && (!TakenSince(s, s', j) ==> Asks(s', j))
  {
    var j, s' := After(Turn(s), d, |s.world.links|), Run(s, steps);
    ReachableDelivers(s);
    RunOnTheWay(s, steps, d);
    assert DeliversAt(s, j) && DeliversAt(s', j);
    WaitsOrTaken(s, s', j);
  }

  lemma WaitsOrTaken(s: System, s': System, j: nat)
    requires WellFormed(s) && SameShape(s, s') && j < |s.world.links|
    requires DeliversAt(s, j) && Asks(s, j) && DeliversAt(s', j) && s'.world.phase == Running
    requires |s.journals[j].taken| <= |s'.journals[j].taken| && s.journals[j].sent <= s'.journals[j].sent
    ensures s.journals[j].sent == s.journals[j].taken + [s.world.links[j].req.packet]
    ensures TakenSince(s, s', j) ==> s'.journals[j].taken[|s.journals[j].taken|] == s.world.links[j].req.packet
    ensures !TakenSince(s, s', j) ==> Asks(s', j)
  {
  }
}
