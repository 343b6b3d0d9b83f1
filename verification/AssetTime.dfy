/**
  How an asset's own time follows world time: one step callback for each delta, never
  ahead of world time, until the simulation is stopped, reset or left.
*/
module AssetTime {
  import opened Arithmetic

  datatype Event = NoEvent | StartEvent | StopEvent | ResetEvent | UnknownEvent

  /**
    What the controller answers in one round of a waiting loop: the run state at the
    attempt to step and again after it, the step's conditions, the force-stop flag and
    the asset's next event.
  */
  datatype Observation = Observation(
    running: bool, pduCreated: bool, syncMode: bool, simulationMode: bool, worldTime: int,
    forceStop: bool, stillRunning: bool, event: Event)

  /** The asset's time, and the times at which its step callback has run. */
  datatype Clock = Clock(current: int, steps: seq<int>)

  /** Pending: the answers given so far end inside a loop. */
  datatype Outcome = Done | ForceStopped | UnexpectedEvent | StoppedAndReset | Pending

  /** What a call makes of the answers it gets, and the answers it leaves over. */
  datatype Call = Call(outcome: Outcome, clock: Clock, rest: seq<Observation>)

  predicate Executes(clock: Clock, delta: int, o: Observation) {
    o.running && o.pduCreated && !o.syncMode && o.simulationMode && clock.current + delta <= o.worldTime
  }

  function Stepped(clock: Clock, delta: int): Clock {
    Clock(clock.current + delta, clock.steps + [clock.current])
  }

  function AfterEvent(clock: Clock, event: Event): Clock {
    if event == ResetEvent then clock.(current := 0) else clock
  }

  function WaitEvent(target: Event, clock: Clock, env: seq<Observation>): Call
    decreases |env|
  {
    if env == [] then Call(Pending, clock, [])
    else if env[0].forceStop then Call(ForceStopped, clock, env[1..])
    else if env[0].event == UnknownEvent then Call(UnexpectedEvent, clock, env[1..])
    else
      var clock' := AfterEvent(clock, env[0].event);
      if env[0].event == target then Call(Done, clock', env[1..]) else WaitEvent(target, clock', env[1..])
  }

  function WaitStopAndReset(clock: Clock, env: seq<Observation>): Call {
    var stop := WaitEvent(StopEvent, clock, env);
    if stop.outcome != Done then stop
    else
      var reset := WaitEvent(ResetEvent, stop.clock, stop.rest);
      if reset.outcome != Done then reset else reset.(outcome := StoppedAndReset)
  }

  /** Waits until one step can be made, and makes it. */
  function Proc(clock: Clock, delta: int, env: seq<Observation>): Call
    decreases |env|
  {
    if env == [] then Call(Pending, clock, [])
    else if Executes(clock, delta, env[0]) then Call(Done, Stepped(clock, delta), env[1..])
    else if env[0].forceStop then Call(ForceStopped, clock, env[1..])
    else if !env[0].stillRunning then WaitStopAndReset(clock, env[1..])
    else Proc(clock, delta, env[1..])
  }

  lemma {:induction false} ProcConsumes(clock: Clock, delta: int, env: seq<Observation>)
    ensures Proc(clock, delta, env).outcome == Done ==> |Proc(clock, delta, env).rest| < |env|
  {
    if env != [] {
      ProcConsumes(clock, delta, env[1..]);
    }
  }

  function StepTo(clock: Clock, delta: int, target: int, env: seq<Observation>): Call
    decreases |env|
  {
    if clock.current >= target then Call(Done, clock, env)
    else
      var call := Proc(clock, delta, env);
      ProcConsumes(clock, delta, env);
      if call.outcome != Done then call else StepTo(call.clock, delta, target, call.rest)
  }

  /** Division as the implementation language does it: towards zero. */
  function TruncatedQuotient(a: int, b: int): int
    requires b > 0
  {
    if a >= 0 then a / b else -(-a / b)
  }

  function StepCount(sleep: int, delta: int): int
    requires delta >= 1
  {
    if sleep == 0 then 1 else TruncatedQuotient(sleep + (delta - 1), delta)
  }

  function Usleep(clock: Clock, delta: int, sleep: int, env: seq<Observation>): Call
    requires delta >= 1
  {
    StepTo(clock, delta, clock.current + StepCount(sleep, delta) * delta, env)
  }

  // ---------- the asset instance ----------

  /** `env` holds the answers the controller is going to give. */
  class AssetInstance {
    const deltaUsec: int
    const externalUse: bool
    var currentUsec: int
    var stepTimes: seq<int>
    var env: seq<Observation>

    function View(): Clock
      reads this
    {
      Clock(currentUsec, stepTimes)
    }

    constructor (deltaUsec: int, externalUse: bool, env: seq<Observation>)
      ensures View() == Clock(0, []) && this.env == env
      ensures this.deltaUsec == deltaUsec && this.externalUse == externalUse
    {
      this.deltaUsec := deltaUsec;
      this.externalUse := externalUse;
      this.env := env;
      currentUsec, stepTimes := 0, [];
    }

    method Execute(o: Observation) returns (done: bool)
      modifies this`currentUsec, this`stepTimes
      ensures done == Executes(old(View()), deltaUsec, o)
      ensures View() == if done then Stepped(old(View()), deltaUsec) else old(View())
    {
      if !o.running || !o.pduCreated || o.syncMode || !o.simulationMode {
        return false;
      }
      var nextTime := currentUsec + deltaUsec;
      if nextTime > o.worldTime {
        return false;
      }
      stepTimes := stepTimes + [currentUsec];
      currentUsec := nextTime;
      done := true;
    }

    method WaitForEvent(target: Event) returns (outcome: Outcome)
      modifies this
      ensures Call(outcome, View(), env) == WaitEvent(target, old(View()), old(env))
    {
      while env != []
        invariant WaitEvent(target, View(), env) == WaitEvent(target, old(View()), old(env))
        decreases |env|
      {
        var o := env[0];
        env := env[1..];
        if o.forceStop {
          return ForceStopped;
        }
        if o.event == UnknownEvent {
          return UnexpectedEvent;
        }
        if o.event == ResetEvent {
          currentUsec := 0;
        }
        if o.event == target {
          return Done;
        }
      }
      outcome := Pending;
    }

    method StepOnce() returns (outcome: Outcome)
      modifies this
      ensures Call(outcome, View(), env) == Proc(old(View()), deltaUsec, old(env))
    {
      while env != []
        invariant Proc(View(), deltaUsec, env) == Proc(old(View()), deltaUsec, old(env))
        decreases |env|
      {
        var o := env[0];
        env := env[1..];
        var done := Execute(o);
        if done {
          return Done;
        }
        if o.forceStop {
          return ForceStopped;
        }
        if !o.stillRunning {
          outcome := WaitForEvent(StopEvent);
          if outcome != Done {
            return;
          }
          outcome := WaitForEvent(ResetEvent);
          if outcome == Done {
            outcome := StoppedAndReset;
          }
          return;
        }
      }
      outcome := Pending;
    }

    method Step(increment: int) returns (outcome: Outcome)
      modifies this
      ensures Call(outcome, View(), env)
           == StepTo(old(View()), deltaUsec, old(currentUsec) + increment * deltaUsec, old(env))
    {
      var target := currentUsec + increment * deltaUsec;
      while currentUsec < target
        invariant StepTo(View(), deltaUsec, target, env) == StepTo(old(View()), deltaUsec, target, old(env))
        decreases |env|
      {
        ProcConsumes(View(), deltaUsec, env);
        outcome := StepOnce();
        if outcome != Done {
          return;
        }
      }
      outcome := Done;
    }

    /** An external user has no time of its own: it returns at once. */
    method UsleepNoWait(sleepUsec: int) returns (outcome: Outcome)
      requires deltaUsec >= 1
      modifies this
      ensures externalUse ==> outcome == Done && View() == old(View()) && env == old(env)
      ensures !externalUse ==> Call(outcome, View(), env) == Usleep(old(View()), deltaUsec, sleepUsec, old(env))
    {
      if externalUse {
        return Done;
      }
      var step := if sleepUsec == 0 then 1 else TruncatedQuotient(sleepUsec + (deltaUsec - 1), deltaUsec);
      outcome := Step(step);
    }
  }

  // ---------- what a sleep does ----------

  /** Times of n steps from a start time. */
  function StepTimes(start: int, delta: int, n: nat): seq<int> {
    seq(n, (k: nat) => start + k * delta)
  }

  lemma NoStepTimes(start: int, delta: int)
    ensures StepTimes(start, delta, 0) == []
  {
  }

  /** A finished step was made on the last answer taken, and not beyond its world time. */
  lemma {:induction false} ProcDone(clock: Clock, delta: int, env: seq<Observation>)
    requires Proc(clock, delta, env).outcome == Done
    ensures var call := Proc(clock, delta, env);
            && call.clock == Stepped(clock, delta)
            && |call.rest| < |env| && call.rest == env[|env| - |call.rest|..]
            && call.clock.current <= env[|env| - |call.rest| - 1].worldTime
  {
    if !Executes(clock, delta, env[0]) {
      WaitFails(clock, env[1..]);
      ProcDone(clock, delta, env[1..]);
    }
  }

  lemma WaitFails(clock: Clock, env: seq<Observation>)
    ensures WaitStopAndReset(clock, env).outcome != Done
  {
  }

  lemma {:induction false} WaitEventEnds(target: Event, clock: Clock, env: seq<Observation>)
    ensures WaitEvent(target, clock, env).outcome != StoppedAndReset
    ensures WaitEvent(target, clock, env).clock.steps == clock.steps
    ensures target == ResetEvent && WaitEvent(target, clock, env).outcome == Done ==>
              WaitEvent(target, clock, env).clock.current == 0
    decreases |env|
  {
    if env != [] {
      WaitEventEnds(target, AfterEvent(clock, env[0].event), env[1..]);
    }
  }

  lemma {:induction false} ProcFails(clock: Clock, delta: int, env: seq<Observation>)
    requires Proc(clock, delta, env).outcome != Done
    ensures Proc(clock, delta, env).clock.steps == clock.steps
    ensures Proc(clock, delta, env).outcome == StoppedAndReset ==> Proc(clock, delta, env).clock.current == 0
  {
    if env != [] && !env[0].forceStop {
      if env[0].stillRunning {
        ProcFails(clock, delta, env[1..]);
      } else {
        var stop := WaitEvent(StopEvent, clock, env[1..]);
        WaitEventEnds(StopEvent, clock, env[1..]);
        WaitEventEnds(ResetEvent, stop.clock, stop.rest);
      }
    }
  }

  /** A loop to a target n deltas away that ends there. */
  lemma {:induction false} StepToArrives(clock: Clock, delta: int, n: nat, env: seq<Observation>)
    requires delta >= 1 && StepTo(clock, delta, clock.current + n * delta, env).outcome == Done
    ensures var call := StepTo(clock, delta, clock.current + n * delta, env);
            && call.clock == Clock(clock.current + n * delta, clock.steps + StepTimes(clock.current, delta, n))
            && |call.rest| <= |env| && call.rest == env[|env| - |call.rest|..]
            && (n > 0 ==>
                  && |call.rest| < |env|
                  && call.clock.current <= env[|env| - |call.rest| - 1].worldTime)
    decreases n
  {
    hide Proc, StepTimes;
    if n == 0 {
      NoStepTimes(clock.current, delta);
      assert clock.steps + [] == clock.steps;
    } else {
      MulAtLeast(delta, n);
      var call := Proc(clock, delta, env);
      ProcDone(clock, delta, env);
      NextTarget(clock.current, delta, n);
      StepToArrives(call.clock, delta, n - 1, call.rest);
      OneMoreStep(clock, delta, n - 1);
    }
  }

  /** A loop that does not get there. */
  lemma {:induction false} StepToFails(clock: Clock, delta: int, n: nat, env: seq<Observation>) returns (k: nat)
    requires delta >= 1 && StepTo(clock, delta, clock.current + n * delta, env).outcome != Done
    ensures var call := StepTo(clock, delta, clock.current + n * delta, env);
            && k < n && call.clock.steps == clock.steps + StepTimes(clock.current, delta, k)
            && (call.outcome == StoppedAndReset ==> call.clock.current == 0)
    decreases n
  {
    MulAtLeast(delta, n);
    var call := Proc(clock, delta, env);
    if call.outcome == Done {
      ProcDone(clock, delta, env);
      NextTarget(clock.current, delta, n);
      var before := StepToFails(call.clock, delta, n - 1, call.rest);
      OneMoreStep(clock, delta, before);
      k := before + 1;
    } else {
      ProcFails(clock, delta, env);
      assert clock.steps + StepTimes(clock.current, delta, 0) == clock.steps;
      k := 0;
    }
  }

  lemma NextTarget(current: int, delta: int, n: nat)
    requires n > 0
    ensures current + n * delta == (current + delta) + (n - 1) * delta
  {
  }

  lemma OneMoreStep(clock: Clock, delta: int, n: nat)
    ensures clock.steps + StepTimes(clock.current, delta, n + 1)
         == Stepped(clock, delta).steps + StepTimes(clock.current + delta, delta, n)
  {
    var left, right := StepTimes(clock.current, delta, n + 1), StepTimes(clock.current + delta, delta, n);
    forall k | 0 <= k < n ensures left[k + 1] == right[k] {
      NextTarget(clock.current, delta, k + 1);
    }
    assert left == [clock.current] + right;
  }

  /** The number of steps is the least that covers the sleep, and one for no sleep at all. */
  lemma StepCountIsCeiling(sleep: nat, delta: nat)
    requires delta >= 1
    ensures StepCount(sleep, delta) >= 1
    ensures StepCount(sleep, delta) * delta >= sleep
    ensures if sleep == 0 then StepCount(sleep, delta) == 1 else (StepCount(sleep, delta) - 1) * delta < sleep
  {
    if sleep > 0 {
      var q, r := (sleep + delta - 1) / delta, (sleep + delta - 1) % delta;
      DivMod(sleep + delta - 1, delta);
      MulDistributes(delta, q, 1);
      assert q * delta == delta * q && (q - 1) * delta == delta * (q - 1);
      MulAtLeast(delta, q);
    }
  }

  /**
    A sleep that returns has advanced the asset by the least number of whole deltas
    that covers it, has run the step callback at every delta on the way, and has not
    passed the world time of the last answer. One that fails was forced, met an event
    nobody knows, or went through Stop and Reset back to time 0; the callbacks it ran
    are a proper beginning of the sleep's.
  */
  lemma UsleepFollowsWorldTime(clock: Clock, delta: nat, sleep: nat, env: seq<Observation>)
    requires delta >= 1
    ensures var n, call := StepCount(sleep, delta), Usleep(clock, delta, sleep, env);
            && n >= 1 && n * delta >= sleep && (sleep > 0 ==> (n - 1) * delta < sleep)
            && (call.outcome == Done ==>
                  && call.clock == Clock(clock.current + n * delta, clock.steps + StepTimes(clock.current, delta, n))
                  && |call.rest| < |env|
                  && call.clock.current <= env[|env| - |call.rest| - 1].worldTime)
            && (call.outcome != Done ==>
                  && (call.outcome == StoppedAndReset ==> call.clock.current == 0)
                  && exists k: nat :: k < n && call.clock.steps == clock.steps + StepTimes(clock.current, delta, k))
  {
    StepCountIsCeiling(sleep, delta);
    var n := StepCount(sleep, delta);
    if Usleep(clock, delta, sleep, env).outcome == Done {
      StepToArrives(clock, delta, n, env);
    } else {
      var k := StepToFails(clock, delta, n, env);
    }
  }

  /** A sleep can only be done by then: with world time never going back, it is never ahead of it. */
  lemma NeverAheadOfWorldTime(clock: Clock, delta: nat, sleep: nat, env: seq<Observation>, i: nat)
    requires delta >= 1 && Usleep(clock, delta, sleep, env).outcome == Done
    requires forall k, l :: 0 <= k < l < |env| ==> env[k].worldTime <= env[l].worldTime
    requires |env| - |Usleep(clock, delta, sleep, env).rest| <= i < |env|
    ensures Usleep(clock, delta, sleep, env).clock.current <= env[i].worldTime
  {
    UsleepFollowsWorldTime(clock, delta, sleep, env);
  }

  /** While world time keeps ahead of a running asset, each answer makes one step. */
  lemma {:induction false} KeepsUpWithWorldTime(clock: Clock, delta: nat, n: nat, env: seq<Observation>)
    requires delta >= 1 && n <= |env|
    requires forall k :: 0 <= k < n ==> Executes(Clock(clock.current + k * delta, []), delta, env[k])
    ensures var call := StepTo(clock, delta, clock.current + n * delta, env);
            call.outcome == Done && call.rest == env[n..]
    decreases n
  {
    if n > 0 {
      MulAtLeast(delta, n);
      NextTarget(clock.current, delta, n);
      assert Executes(Clock(clock.current + 0 * delta, []), delta, env[0]);
      var next := Stepped(clock, delta);
      forall k | 0 <= k < n - 1 ensures Executes(Clock(next.current + k * delta, []), delta, env[1..][k]) {
        NextTarget(clock.current, delta, k + 1);
        assert Executes(Clock(clock.current + (k + 1) * delta, []), delta, env[k + 1]);
      }
      KeepsUpWithWorldTime(next, delta, n - 1, env[1..]);
    }
  }

  // ---------- what ends a loop ----------

  ghost predicate ResetAmong(env: seq<Observation>, k: nat)
    requires k <= |env|
  {
    exists h :: 0 <= h < k && env[h].event == ResetEvent
  }

  /** The time after the first k answers of a wait: 0 if one of them was a reset. */
  ghost function TimeAfter(clock: Clock, env: seq<Observation>, k: nat): Clock
    requires k <= |env|
  {
    if ResetAmong(env, k) then Clock(0, clock.steps) else clock
  }

  lemma TimeAfterFirst(clock: Clock, env: seq<Observation>, k: nat)
    requires k < |env|
    ensures TimeAfter(AfterEvent(clock, env[0].event), env[1..], k) == TimeAfter(clock, env, k + 1)
  {
    if h :| 0 <= h < k + 1 && env[h].event == ResetEvent && h > 0 {
      assert env[1..][h - 1].event == ResetEvent;
    }
    if h :| 0 <= h < k && env[1..][h].event == ResetEvent {
      assert env[h + 1].event == ResetEvent;
    }
  }

  /**
    A wait for an event ends at the first answer that is forced, unknown or the event
    itself, and in that order of precedence; a reset on the way takes the time to 0.
  */
  lemma {:induction false} WaitEndsAt(target: Event, clock: Clock, env: seq<Observation>, k: nat)
    requires target != UnknownEvent && k < |env|
    requires forall h :: 0 <= h < k ==>
               !env[h].forceStop && env[h].event != UnknownEvent && env[h].event != target
    ensures env[k].forceStop ==>
              WaitEvent(target, clock, env) == Call(ForceStopped, TimeAfter(clock, env, k), env[k + 1..])
    ensures !env[k].forceStop && env[k].event == UnknownEvent ==>
              WaitEvent(target, clock, env) == Call(UnexpectedEvent, TimeAfter(clock, env, k), env[k + 1..])
    ensures !env[k].forceStop && env[k].event == target ==>
              WaitEvent(target, clock, env) == Call(Done, TimeAfter(clock, env, k + 1), env[k + 1..])
    decreases k
  {
    if k == 0 {
      assert TimeAfter(clock, env, 0) == clock;
      assert TimeAfter(clock, env, 1) == AfterEvent(clock, env[0].event) by {
        TimeAfterFirst(clock, env, 0);
      }
    } else {
      forall h | 0 <= h < k - 1
        ensures !env[1..][h].forceStop && env[1..][h].event != UnknownEvent && env[1..][h].event != target {
        assert env[1..][h] == env[h + 1];
      }
      WaitEndsAt(target, AfterEvent(clock, env[0].event), env[1..], k - 1);
      TimeAfterFirst(clock, env, k - 1);
      TimeAfterFirst(clock, env, k);
      assert env[1..][k..] == env[k + 1..];
    }
  }

  /** Once the simulation has left Running, the asset waits for Stop and then for Reset, and is back at time 0. */
  lemma StopsThenResets(clock: Clock, env: seq<Observation>, i: nat, j: nat)
    requires i < j < |env| && env[i].event == StopEvent && env[j].event == ResetEvent
    requires forall h :: 0 <= h <= j ==> !env[h].forceStop && env[h].event != UnknownEvent
    requires forall h :: 0 <= h < i ==> env[h].event != StopEvent
    requires forall h :: i < h < j ==> env[h].event != ResetEvent
    ensures WaitStopAndReset(clock, env) == Call(StoppedAndReset, Clock(0, clock.steps), env[j + 1..])
  {
    WaitEndsAt(StopEvent, clock, env, i);
    var rest := env[i + 1..];
    forall h | 0 <= h < j - i - 1
      ensures !rest[h].forceStop && rest[h].event != UnknownEvent && rest[h].event != ResetEvent {
      assert rest[h] == env[i + 1 + h];
    }
    assert rest[j - i - 1] == env[j] && rest[j - i..] == env[j + 1..];
    WaitEndsAt(ResetEvent, TimeAfter(clock, env, i + 1), rest, j - i - 1);
    assert ResetAmong(rest, j - i);
  }

  /**
    What one step waits for. It is made at the first answer that finds the simulation
    running, with its channels, not in sync mode, in simulation mode and with world time
    a delta ahead; before that a forced stop ends it, and so does a simulation that is
    no longer running, by way of Stop and Reset.
  */
  lemma {:induction false} StepEndsAt(clock: Clock, delta: int, env: seq<Observation>, k: nat)
    requires k < |env|
    requires forall h :: 0 <= h < k ==>
               && env[h].stillRunning && !env[h].forceStop
               && !(env[h].running && env[h].pduCreated && !env[h].syncMode && env[h].simulationMode
                    && env[h].worldTime >= clock.current + delta)
    ensures var o, call := env[k], Proc(clock, delta, env);
            if o.running && o.pduCreated && !o.syncMode && o.simulationMode && o.worldTime >= clock.current + delta then
              call == Call(Done, Clock(clock.current + delta, clock.steps + [clock.current]), env[k + 1..])
            else if o.forceStop then
              call == Call(ForceStopped, clock, env[k + 1..])
            else if !o.stillRunning then
              call == WaitStopAndReset(clock, env[k + 1..])
            else
              call == Proc(clock, delta, env[k + 1..])
  {
    if k > 0 {
      assert forall h :: 0 <= h < k ==> env[1..][h] == env[h + 1];
      StepEndsAt(clock, delta, env[1..], k - 1);
      assert env[1..][k..] == env[k + 1..];
    }
  }
}
