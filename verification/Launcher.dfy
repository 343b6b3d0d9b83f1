/**
  The launcher's monitor: starts the assets in order, and stops what it started in
  reverse order, once, as soon as one of them fails.
*/
module Launcher {
  import opened Sequences
  import opened Toposort

  /** What the monitor has started, and the terminations it has asked for. */
  datatype State = State(procs: seq<Asset>, aborted: bool, terminated: seq<Asset>)

  const IDLE := State([], false, [])

  function Reverse<T>(s: seq<T>): (r: seq<T>)
    ensures |r| == |s|
    ensures forall i :: 0 <= i < |s| ==> r[i] == s[|s| - 1 - i]
  {
    if s == [] then [] else Reverse(s[1..]) + [s[0]]
  }

  function Aborted(s: State): State {
    if s.aborted then s else State(s.procs, true, s.terminated + Reverse(s.procs))
  }

  /**
    What happens to an asset on its way up: it lives through its grace period, dies in
    it, cannot be started at all, because its environment or its process raises, or is
    started and then the wait for it is interrupted.
  */
  datatype Life = Lives | Dies | Raises | Interrupted

  datatype Ending = AllUp | OneDied | OneRaised

  /** How many assets get started: up to the first that raises, else up to and including the first that ends it. */
  function StartedCount(lives: seq<Life>): (k: nat)
    ensures k <= |lives|
  {
    if lives == [] || lives[0] == Raises then 0
    else if lives[0] != Lives then 1
    else 1 + StartedCount(lives[1..])
  }

  function EndingOf(lives: seq<Life>): Ending {
    if lives == [] then AllUp
    else
      match lives[0]
      case Lives => EndingOf(lives[1..])
      case Dies => OneDied
      case Raises => OneRaised
      case Interrupted => OneRaised
  }

  /** An asset that dies stops everything; an exception does not. */
  function Started(s: State, assets: seq<Asset>, lives: seq<Life>): State
    requires |lives| == |assets|
  {
    if s.aborted then s
    else
      var s' := s.(procs := s.procs + assets[..StartedCount(lives)]);
      if EndingOf(lives) == OneDied then Aborted(s') else s'
  }

  class HakoMonitor {
    const assets: seq<Asset>
    var procs: seq<Asset>
    var aborted: bool
    var terminated: seq<Asset>

    function View(): State
      reads this
    {
      State(procs, aborted, terminated)
    }

    constructor (assets: seq<Asset>)
      ensures this.assets == assets && View() == IDLE
    {
      this.assets := assets;
      procs, aborted, terminated := [], false, [];
    }

    method Abort()
      modifies this
      ensures View() == Aborted(old(View()))
    {
      if aborted {
        return;
      }
      aborted := true;
      var i := |procs|;
      while i > 0
        invariant 0 <= i <= |procs| && aborted && procs == old(procs)
        invariant terminated == old(terminated) + Reverse(procs)[..|procs| - i]
      {
        i := i - 1;
        terminated := terminated + [procs[i]];
      }
    }

    /** An exception ends the start where it is raised and leaves everything else as it is. */
    method StartAll(lives: seq<Life>) returns (raised: bool)
      requires |lives| == |assets|
      modifies this
      ensures View() == Started(old(View()), assets, lives)
      ensures raised <==> !old(aborted) && EndingOf(lives) == OneRaised
    {
      for i := 0 to |assets|
        invariant aborted == old(aborted) && terminated == old(terminated)
        invariant procs == if aborted then old(procs) else old(procs) + assets[..i]
        invariant !aborted ==> StartedCount(lives) == i + StartedCount(lives[i..])
        invariant !aborted ==> EndingOf(lives) == EndingOf(lives[i..])
      {
        if aborted {
          break;
        }
        assert lives[i..][1..] == lives[i + 1..];
        if lives[i] == Raises {
          return true;
        }
        procs := procs + [assets[i]];
        assert procs == old(procs) + assets[..i + 1];
        if lives[i] == Interrupted {
          return true;
        }
        if lives[i] == Dies {
          Abort();
          return false;
        }
      }
      assert assets[..|assets|] == assets;
      raised := false;
    }

    /** One round of watching: any dead process stops everything. */
    method WatchOnce(alive: seq<bool>)
      requires |alive| == |procs|
      modifies this
      ensures View() == if false in alive then Aborted(old(View())) else old(View())
    {
      if aborted {
        return;
      }
      for i := 0 to |procs|
        invariant View() == old(View())
        invariant forall j :: 0 <= j < i ==> alive[j]
      {
        if !alive[i] {
          Abort();
          return;
        }
      }
    }
  }

  // ---------- the launcher around the monitor ----------

  datatype Phase = Idle | Up | Terminated

  /** The launcher's state and that of its present monitor. */
  datatype Service = Service(phase: Phase, monitor: State)

  const INITIAL := Service(Phase.Idle, IDLE)

  function Activated(s: Service, assets: seq<Asset>, lives: seq<Life>): Service
    requires |lives| == |assets|
  {
    if s.phase == Up then s
    else
      var monitor := if s.phase == Terminated then IDLE else s.monitor;
      var started := Started(monitor, assets, lives);
      if !monitor.aborted && EndingOf(lives) == OneRaised then Service(s.phase, started) else Service(Up, started)
  }

  function Ended(s: Service): Service {
    if s.phase == Up then Service(Terminated, Aborted(s.monitor)) else s
  }

  function Watched(s: Service, anyDead: bool): Service {
    if s.phase == Up && anyDead && s.monitor.procs != [] then Ended(s) else s
  }

  class LauncherService {
    const assets: seq<Asset>
    var phase: Phase
    var monitor: HakoMonitor

    ghost predicate Valid()
      reads this, monitor
    {
      monitor.assets == assets
    }

    function View(): Service
      reads this, monitor
    {
      Service(phase, monitor.View())
    }

    constructor (assets: seq<Asset>)
      ensures Valid() && fresh(monitor) && this.assets == assets && View() == INITIAL
    {
      this.assets := assets;
      phase := Phase.Idle;
      monitor := new HakoMonitor(assets);
    }

    method Activate(lives: seq<Life>) returns (raised: bool)
      requires Valid() && |lives| == |assets|
      modifies this, monitor
      ensures Valid() && View() == Activated(old(View()), assets, lives)
    {
      if phase == Up {
        return false;
      }
      if phase == Terminated {
        monitor := new HakoMonitor(assets);
      }
      raised := monitor.StartAll(lives);
      if !raised {
        phase := Up;
      }
    }

    method Terminate()
      requires Valid()
      modifies this, monitor
      ensures Valid() && View() == Ended(old(View()))
    {
      if phase != Up {
        return;
      }
      monitor.Abort();
      phase := Terminated;
    }

    method WatchOnce(alive: seq<bool>)
      requires Valid() && |alive| == |monitor.procs|
      modifies this, monitor
      ensures Valid() && View() == Watched(old(View()), false in alive)
    {
      if phase != Up {
        return;
      }
      for i := 0 to |alive|
        invariant Valid() && View() == old(View())
        invariant forall j :: 0 <= j < i ==> alive[j]
      {
        if !alive[i] {
          monitor.Abort();
          phase := Terminated;
          return;
        }
      }
    }
  }

  datatype Call = Activate(lives: seq<Life>) | Terminate | Watch(anyDead: bool)

  predicate ForAssets(assets: seq<Asset>, call: Call) {
    call.Activate? ==> |call.lives| == |assets|
  }

  function DoCall(s: Service, assets: seq<Asset>, call: Call): Service
    requires ForAssets(assets, call)
  {
    match call
    case Activate(lives) => Activated(s, assets, lives)
    case Terminate => Ended(s)
    case Watch(anyDead) => Watched(s, anyDead)
  }

  function DoCalls(s: Service, assets: seq<Asset>, calls: seq<Call>): Service
    requires forall k :: 0 <= k < |calls| ==> ForAssets(assets, calls[k])
  {
    if calls == [] then s
    else DoCall(DoCalls(s, assets, calls[..|calls| - 1]), assets, calls[|calls| - 1])
  }

  /** An activation that raises after something was started. */
  predicate Strands(call: Call) {
    call.Activate? && EndingOf(call.lives) == OneRaised && StartedCount(call.lives) > 0
  }

  predicate NoneStrands(assets: seq<Asset>, calls: seq<Call>) {
    forall k :: 0 <= k < |calls| ==> ForAssets(assets, calls[k]) && !Strands(calls[k])
  }

  /** Everything started is a prefix of the order, and it is terminated in reverse, at once and only once. */
  predicate Orderly(s: Service, assets: seq<Asset>) {
    && s.monitor.procs <= assets
    && s.monitor.terminated == (if s.monitor.aborted then Reverse(s.monitor.procs) else [])
    && (s.phase == Phase.Idle ==> s.monitor == IDLE)
    && (s.phase == Terminated ==> s.monitor.aborted || s.monitor == IDLE)
  }

  lemma ActivationStaysOrderly(s: Service, assets: seq<Asset>, lives: seq<Life>)
    requires Orderly(s, assets) && |lives| == |assets| && !Strands(Activate(lives))
    ensures Orderly(Activated(s, assets, lives), assets)
  {
    assert [] + assets[..StartedCount(lives)] == assets[..StartedCount(lives)];
    assert StartedCount(lives) == 0 ==> assets[..StartedCount(lives)] == [];
  }

  lemma CallStaysOrderly(s: Service, assets: seq<Asset>, call: Call)
    requires Orderly(s, assets) && ForAssets(assets, call) && !Strands(call)
    ensures Orderly(DoCall(s, assets, call), assets)
  {
    match call
    case Activate(lives) => ActivationStaysOrderly(s, assets, lives);
    case Terminate =>
    case Watch(_) =>
  }

  /** Also across activations: each one that follows a termination starts with a new monitor. */
  lemma {:induction false} CallsStayOrderly(assets: seq<Asset>, calls: seq<Call>)
    requires NoneStrands(assets, calls)
    ensures Orderly(DoCalls(INITIAL, assets, calls), assets)
  {
    if calls != [] {
      CallsStayOrderly(assets, calls[..|calls| - 1]);
      CallStaysOrderly(DoCalls(INITIAL, assets, calls[..|calls| - 1]), assets, calls[|calls| - 1]);
    }
  }

  /** Where the start ends: at the first asset that does not live through its grace period. */
  predicate EndsAt(lives: seq<Life>, k: nat) {
    && k <= |lives| && (k < |lives| ==> lives[k] != Lives)
    && forall j :: 0 <= j < k ==> lives[j] == Lives
  }

  lemma {:induction false} EndsOnce(lives: seq<Life>, k: nat)
    requires EndsAt(lives, k)
    ensures k == |lives| ==> StartedCount(lives) == k && EndingOf(lives) == AllUp
    ensures k < |lives| ==> match lives[k]
                            case Dies => StartedCount(lives) == k + 1 && EndingOf(lives) == OneDied
                            case Raises => StartedCount(lives) == k && EndingOf(lives) == OneRaised
                            case _ => StartedCount(lives) == k + 1 && EndingOf(lives) == OneRaised
  {
    if k > 0 {
      assert forall j :: 0 <= j < k - 1 ==> lives[1..][j] == lives[j + 1];
      EndsOnce(lives[1..], k - 1);
    }
  }

  /**
    What a start leaves, asset by asset. One that dies in its grace period takes down
    everything started before it, itself included; one that raises takes down nothing.
  */
  lemma StartEnds(s: State, assets: seq<Asset>, lives: seq<Life>, k: nat)
    requires !s.aborted && |lives| == |assets| && EndsAt(lives, k)
    ensures var s' := Started(s, assets, lives);
            if k == |lives| then
              s' == State(s.procs + assets, false, s.terminated)
            else match lives[k]
              case Dies =>
                var procs := s.procs + assets[..k + 1];
                s' == State(procs, true, s.terminated + Reverse(procs))
              case Raises => s' == State(s.procs + assets[..k], false, s.terminated)
              case _ => s' == State(s.procs + assets[..k + 1], false, s.terminated)
  {
    EndsOnce(lives, k);
    assert assets[..|assets|] == assets;
  }

  /** Something that stops everything: an asset dies while starting or later, or the user says so. */
  ghost predicate Deadly(s: Service, call: Call) {
    match call
    case Activate(lives) => s.phase != Up && exists k: nat :: EndsAt(lives, k) && k < |lives| && lives[k] == Dies
    case Terminate => s.phase == Up
    case Watch(anyDead) => s.phase == Up && anyDead && s.monitor.procs != []
  }

  /** It ends the activation: everything started is terminated, by the call itself at the latest. */
  lemma DeathStopsEverything(s: Service, assets: seq<Asset>, call: Call)
    requires InOrder(s) && ForAssets(assets, call) && Deadly(s, call)
    ensures var s' := DoCall(s, assets, call);
            && s'.monitor.aborted && s'.monitor.terminated == Reverse(s'.monitor.procs)
            && (s'.phase == Terminated <==> !call.Activate?)
  {
    if call.Activate? {
      var k: nat :| EndsAt(call.lives, k) && k < |call.lives| && call.lives[k] == Dies;
      EndsOnce(call.lives, k);
    }
  }

  /** And nothing else does: a watch that finds all processes alive changes nothing. */
  lemma NothingElseStops(s: Service, assets: seq<Asset>, call: Call)
    requires InOrder(s) && ForAssets(assets, call) && !Deadly(s, call)
    ensures var s' := DoCall(s, assets, call);
            && (!call.Activate? ==> s' == s)
            && (call.Activate? && s.phase != Up ==> !s'.monitor.aborted && s'.monitor.terminated == [])
  {
    if call.Activate? {
      var k := FirstEnd(call.lives);
      EndsOnce(call.lives, k);
    }
  }

  lemma {:induction false} FirstEnd(lives: seq<Life>) returns (k: nat)
    ensures EndsAt(lives, k)
  {
    if lives == [] || lives[0] != Lives {
      k := 0;
    } else {
      var rest := FirstEnd(lives[1..]);
      k := rest + 1;
      assert forall j :: 0 < j < k ==> lives[j] == lives[1..][j - 1];
    }
  }

  // ---------- everything that was ever started ----------

  /** The launcher and the monitors it has replaced. No code keeps those: the theorems speak about them. */
  datatype History = History(service: Service, past: seq<State>)
  {
    function Monitors(): seq<State> {
      past + [service.monitor]
    }
  }

  function HistoryOf(assets: seq<Asset>, calls: seq<Call>): (h: History)
    requires forall k :: 0 <= k < |calls| ==> ForAssets(assets, calls[k])
    ensures h.service == DoCalls(INITIAL, assets, calls)
  {
    if calls == [] then History(INITIAL, [])
    else
      var h, last := HistoryOf(assets, calls[..|calls| - 1]), calls[|calls| - 1];
      var replaced := if last.Activate? && h.service.phase == Terminated then [h.service.monitor] else [];
      History(DoCall(h.service, assets, last), h.past + replaced)
  }

  function AllStarted(monitors: seq<State>): seq<Asset> {
    if monitors == [] then []
    else AllStarted(monitors[..|monitors| - 1]) + monitors[|monitors| - 1].procs
  }

  function AllTerminated(monitors: seq<State>): seq<Asset> {
    if monitors == [] then []
    else AllTerminated(monitors[..|monitors| - 1]) + monitors[|monitors| - 1].terminated
  }

  /** A monitor terminates what it has started all at once, in reverse, or not at all. */
  predicate Tidy(m: State) {
    m.terminated == if m.aborted then Reverse(m.procs) else []
  }

  /** Nothing that this monitor started is left. */
  predicate Clean(m: State) {
    m.aborted || m.procs == []
  }

  predicate AllClean(monitors: seq<State>) {
    forall i :: 0 <= i < |monitors| ==> Clean(monitors[i])
  }

  lemma CleanIffSizes(m: State)
    requires Tidy(m)
    ensures |m.terminated| <= |m.procs| && (Clean(m) <==> |m.terminated| == |m.procs|)
  {
  }

  lemma AllCleanBehind(front: seq<State>, last: State)
    ensures AllClean(front + [last]) <==> AllClean(front) && Clean(last)
  {
    assert (front + [last])[|front|] == last;
    assert forall i :: 0 <= i < |front| ==> (front + [last])[i] == front[i];
  }

  lemma {:induction false} CleanIffAllTerminated(monitors: seq<State>)
    requires forall i :: 0 <= i < |monitors| ==> Tidy(monitors[i])
    ensures |AllTerminated(monitors)| <= |AllStarted(monitors)|
    ensures AllClean(monitors) <==> |AllTerminated(monitors)| == |AllStarted(monitors)|
  {
    if monitors != [] {
      var front, last := monitors[..|monitors| - 1], monitors[|monitors| - 1];
      assert monitors == front + [last];
      CleanIffAllTerminated(front);
      CleanIffSizes(last);
      AllCleanBehind(front, last);
      hide Tidy, Clean, AllClean;
    }
  }

  lemma {:induction false} CleanTerminatesAll(monitors: seq<State>)
    requires AllClean(monitors) && forall i :: 0 <= i < |monitors| ==> Tidy(monitors[i])
    ensures multiset(AllTerminated(monitors)) == multiset(AllStarted(monitors))
  {
    if monitors != [] {
      CleanTerminatesAll(monitors[..|monitors| - 1]);
      ReversePermutes(monitors[|monitors| - 1].procs);
    }
  }

  /** The k-th call strands assets after an earlier termination, in a monitor of their own. */
  predicate StrandsLate(assets: seq<Asset>, calls: seq<Call>, k: nat)
    requires k < |calls| && forall i :: 0 <= i < |calls| ==> ForAssets(assets, calls[i])
  {
    Strands(calls[k]) && DoCalls(INITIAL, assets, calls[..k]).phase == Terminated
  }

  /** An activation that does not raise. */
  predicate ComesUp(call: Call) {
    call.Activate? && EndingOf(call.lives) != OneRaised
  }

  /** Some activation did not raise. */
  predicate CameUp(calls: seq<Call>) {
    exists k :: 0 <= k < |calls| && ComesUp(calls[k])
  }

  predicate NoneStrandsLate(assets: seq<Asset>, calls: seq<Call>)
    requires forall k :: 0 <= k < |calls| ==> ForAssets(assets, calls[k])
  {
    forall k :: 0 <= k < |calls| ==> !StrandsLate(assets, calls, k)
  }

  predicate NothingStranded(assets: seq<Asset>, calls: seq<Call>)
    requires forall k :: 0 <= k < |calls| ==> ForAssets(assets, calls[k])
  {
    NoneStrandsLate(assets, calls) && (CameUp(calls) || NoneStrands(assets, calls))
  }

  /** An idle launcher has not aborted, and its monitor is tidy. */
  predicate InOrder(s: Service) {
    Tidy(s.monitor) && (s.phase == Phase.Idle ==> !s.monitor.aborted)
  }

  lemma CallStaysInOrder(s: Service, assets: seq<Asset>, call: Call)
    requires InOrder(s) && ForAssets(assets, call)
    ensures InOrder(DoCall(s, assets, call))
  {
  }

  lemma {:induction false} HistoryIsTidy(assets: seq<Asset>, calls: seq<Call>)
    requires forall k :: 0 <= k < |calls| ==> ForAssets(assets, calls[k])
    ensures InOrder(HistoryOf(assets, calls).service)
    ensures forall i :: 0 <= i < |HistoryOf(assets, calls).past| ==> Tidy(HistoryOf(assets, calls).past[i])
  {
    hide DoCall, DoCalls, ForAssets, Tidy;
    if calls == [] {
      NothingIsTidy();
    } else {
      var front := calls[..|calls| - 1];
      HistoryIsTidy(assets, front);
      CallStaysInOrder(HistoryOf(assets, front).service, assets, calls[|calls| - 1]);
    }
  }

  lemma NothingIsTidy()
    ensures Tidy(IDLE)
  {
  }

  /** An idle launcher stays idle exactly if no activation comes up, and keeps what it has started. */
  lemma IdleNext(s: Service, assets: seq<Asset>, call: Call)
    requires InOrder(s) && ForAssets(assets, call)
    ensures var s' := DoCall(s, assets, call);
            && (s'.phase == Phase.Idle <==> s.phase == Phase.Idle && !ComesUp(call))
            && (s'.phase == Phase.Idle ==> (s'.monitor.procs == [] <==> s.monitor.procs == [] && !Strands(call)))
  {
    if call.Activate? {
      assert |assets[..StartedCount(call.lives)]| == StartedCount(call.lives);
      assert |s.monitor.procs + assets[..StartedCount(call.lives)]| == |s.monitor.procs| + StartedCount(call.lives);
    }
  }

  /** A launcher stays idle until an activation does not raise, and keeps what the others started. */
  lemma {:induction false} IdleUntilUp(assets: seq<Asset>, calls: seq<Call>)
    requires forall k :: 0 <= k < |calls| ==> ForAssets(assets, calls[k])
    ensures var h := HistoryOf(assets, calls);
            && (h.service.phase == Phase.Idle <==> !CameUp(calls))
            && (h.service.phase == Phase.Idle ==> h.past == [])
            && (h.service.phase == Phase.Idle ==> (h.service.monitor.procs == [] <==> NoneStrands(assets, calls)))
  {
    hide DoCall, DoCalls, ForAssets, ComesUp, Strands, InOrder;
    if calls != [] {
      var before, last := calls[..|calls| - 1], calls[|calls| - 1];
      IdleUntilUp(assets, before);
      HistoryIsTidy(assets, before);
      IdleNext(HistoryOf(assets, before).service, assets, last);
      assert calls == before + [last];
      assert CameUp(calls) <==> CameUp(before) || ComesUp(last);
      assert NoneStrands(assets, calls) <==> NoneStrands(assets, before) && !Strands(last);
    }
  }

  /** What a monitor no call can reach any more has left. */
  predicate LeftClean(h: History) {
    AllClean(h.past) && (h.service.phase == Terminated ==> Clean(h.service.monitor))
  }

  lemma {:induction false} LeftCleanIff(assets: seq<Asset>, calls: seq<Call>)
    requires forall k :: 0 <= k < |calls| ==> ForAssets(assets, calls[k])
    ensures LeftClean(HistoryOf(assets, calls)) <==> NoneStrandsLate(assets, calls)
  {
    if calls != [] {
      var before, n := calls[..|calls| - 1], |calls| - 1;
      var h, h' := HistoryOf(assets, before), HistoryOf(assets, calls);
      LeftCleanIff(assets, before);
      assert forall k :: 0 <= k < n ==> before[..k] == calls[..k];
      assert forall k :: 0 <= k < n ==> (StrandsLate(assets, before, k) <==> StrandsLate(assets, calls, k));
      assert NoneStrandsLate(assets, calls) <==> NoneStrandsLate(assets, before) && !StrandsLate(assets, calls, n);
      LeftCleanNext(h, h', assets, calls[n]);
    }
  }

  lemma LeftCleanNext(h: History, h': History, assets: seq<Asset>, call: Call)
    requires ForAssets(assets, call) && h'.service == DoCall(h.service, assets, call)
    requires h'.past == h.past + if call.Activate? && h.service.phase == Terminated then [h.service.monitor] else []
    ensures LeftClean(h') <==> LeftClean(h) && !(Strands(call) && h.service.phase == Terminated)
  {
    if call.Activate? && h.service.phase == Terminated {
      AllCleanBehind(h.past, h.service.monitor);
      assert |([] + assets[..StartedCount(call.lives)])| == StartedCount(call.lives);
    } else {
      assert h'.past == h.past;
    }
  }

  /**
    When a terminate has stopped everything that was ever started, by whichever monitor:
    over any calls, exactly if no activation stranded anything in a launcher that was
    already terminated, and, should one have done so before, a later one came up.
  */
  lemma {:induction false} TerminateReachesAllIff(assets: seq<Asset>, calls: seq<Call>)
    requires forall k :: 0 <= k < |calls| ==> ForAssets(assets, calls[k])
    ensures var monitors := HistoryOf(assets, calls + [Terminate]).Monitors();
            multiset(AllTerminated(monitors)) == multiset(AllStarted(monitors)) <==> NothingStranded(assets, calls)
  {
    var all := calls + [Terminate];
    var h, monitors := HistoryOf(assets, calls), HistoryOf(assets, all).Monitors();
    assert all[..|calls|] == calls;
    assert monitors == h.past + [Ended(h.service).monitor];
    HistoryIsTidy(assets, all);
    TidyMonitors(HistoryOf(assets, all));
    CleanAtTheEnd(assets, calls);
    hide HistoryOf, Ended, Tidy, NothingStranded, Clean;
    CleanIffAllTerminated(monitors);
    if AllClean(monitors) {
      CleanTerminatesAll(monitors);
    }
    SizesDiffer(AllTerminated(monitors), AllStarted(monitors));
  }

  lemma TidyMonitors(h: History)
    requires InOrder(h.service) && forall i :: 0 <= i < |h.past| ==> Tidy(h.past[i])
    ensures forall i :: 0 <= i < |h.Monitors()| ==> Tidy(h.Monitors()[i])
  {
  }

  lemma CleanAtTheEnd(assets: seq<Asset>, calls: seq<Call>)
    requires forall k :: 0 <= k < |calls| ==> ForAssets(assets, calls[k])
    ensures var h := HistoryOf(assets, calls);
            AllClean(h.past + [Ended(h.service).monitor]) <==> NothingStranded(assets, calls)
  {
    var h := HistoryOf(assets, calls);
    var monitors := h.past + [Ended(h.service).monitor];
    HistoryIsTidy(assets, calls);
    IdleUntilUp(assets, calls);
    LeftCleanIff(assets, calls);
    hide HistoryOf, CameUp, NoneStrands, NoneStrandsLate;
    AllCleanBehind(h.past, Ended(h.service).monitor);
  }

  lemma SizesDiffer<T>(a: seq<T>, b: seq<T>)
    ensures multiset(a) == multiset(b) ==> |a| == |b|
  {
    assert |multiset(a)| == |a| && |multiset(b)| == |b|;
  }

  /**
    One way it fails: a first activation strands assets, and a second one starts the
    same assets once more. If the second comes up, a terminate stops both.
  */
  lemma ActivatesTwice(assets: seq<Asset>, lives: seq<Life>, again: seq<Life>)
    requires |lives| == |again| == |assets| && Strands(Activate(lives))
    ensures var second := Activated(Activated(INITIAL, assets, lives), assets, again);
            && second.monitor.procs == assets[..StartedCount(lives)] + assets[..StartedCount(again)]
            && (EndingOf(again) != OneRaised ==> Ended(second).monitor.terminated == Reverse(second.monitor.procs))
            && (EndingOf(again) == OneRaised ==> Ended(second) == second && second.monitor.terminated == [])
  {
  }

  /**
    The other way: after a termination a new monitor is made at once, so an activation
    that strands assets leaves them to a monitor that the next activation replaces. No
    call whatsoever stops them then.
  */
  lemma {:induction false} ReplacedMonitorIsLost(
    assets: seq<Asset>, up: seq<Life>, lives: seq<Life>, again: seq<Life>, more: seq<Call>)
    requires |up| == |lives| == |again| == |assets| && EndingOf(up) != OneRaised && Strands(Activate(lives))
    requires forall k :: 0 <= k < |more| ==> ForAssets(assets, more[k])
    ensures var calls := [Activate(up), Terminate, Activate(lives), Activate(again)] + more;
            var h := HistoryOf(assets, calls);
            && |h.past| >= 2 && h.past[1] == State(assets[..StartedCount(lives)], false, [])
            && (more == [] ==> h.service.monitor.procs == assets[..StartedCount(again)])
            && !NothingStranded(assets, calls)
  {
    var four := [Activate(up), Terminate, Activate(lives), Activate(again)];
    var calls := four + more;
    if more == [] {
      assert calls == four;
      LostAtOnce(assets, up, lives, again);
    } else {
      var more' := more[..|more| - 1];
      ReplacedMonitorIsLost(assets, up, lives, again, more');
      assert calls[..|calls| - 1] == four + more';
    }
    LateInAll(assets, up, lives, again, more);
  }

  lemma LostAtOnce(assets: seq<Asset>, up: seq<Life>, lives: seq<Life>, again: seq<Life>)
    requires |up| == |lives| == |again| == |assets| && EndingOf(up) != OneRaised && Strands(Activate(lives))
    ensures var h := HistoryOf(assets, [Activate(up), Terminate, Activate(lives), Activate(again)]);
            && |h.past| == 2 && h.past[1] == State(assets[..StartedCount(lives)], false, [])
            && h.service.monitor.procs == assets[..StartedCount(again)]
  {
    var calls := [Activate(up), Terminate, Activate(lives), Activate(again)];
    assert calls[..3][..2][..1] == [Activate(up)] && calls[..3][..2] == [Activate(up), Terminate];
    assert calls[..3] == [Activate(up), Terminate, Activate(lives)];
    assert HistoryOf(assets, [Activate(up)][..0]) == History(INITIAL, []);
    assert HistoryOf(assets, calls[..3][..2]).service.phase == Terminated;
  }

  lemma LateInAll(assets: seq<Asset>, up: seq<Life>, lives: seq<Life>, again: seq<Life>, more: seq<Call>)
    requires |up| == |lives| == |again| == |assets| && EndingOf(up) != OneRaised && Strands(Activate(lives))
    requires forall k :: 0 <= k < |more| ==> ForAssets(assets, more[k])
    ensures StrandsLate(assets, [Activate(up), Terminate, Activate(lives), Activate(again)] + more, 2)
  {
    var calls := [Activate(up), Terminate, Activate(lives), Activate(again)] + more;
    assert calls[..2] == [Activate(up), Terminate] && calls[..2][..1] == [Activate(up)];
    assert DoCalls(INITIAL, assets, [Activate(up)][..0]) == INITIAL;
  }

  /** x stands in front of y. */
  ghost predicate Before(order: seq<Asset>, x: string, y: string) {
    exists i, j :: 0 <= i < j < |order| && order[i].name == x && order[j].name == y
  }

  /**
    Ordered shutdown: for any order the launcher can have been given, whichever asset
    dies and whatever is called how often, as long as no start raises after something
    was started, the started assets include everything they depend on, every
    termination of a dependent precedes that of what it depends on, and nothing is
    terminated twice.
  */
  lemma {:induction false} OrderedShutdown(assets: seq<Asset>, calls: seq<Call>)
    requires DistinctNames(assets) && DependenciesFirst(assets) && NoneStrands(assets, calls)
    ensures var s := DoCalls(INITIAL, assets, calls).monitor;
            && (forall x, d :: x in s.procs && d in x.dependsOn ==> exists y :: y in s.procs && y.name == d)
            && (forall x, d :: x in s.terminated && d in x.dependsOn ==> Before(s.terminated, x.name, d))
            && NoRepeats(s.terminated)
            && (s.aborted ==> multiset(s.terminated) == multiset(s.procs))
            && (calls != [] && Deadly(DoCalls(INITIAL, assets, calls[..|calls| - 1]), calls[|calls| - 1]) ==> s.aborted)
  {
    var s := DoCalls(INITIAL, assets, calls).monitor;
    if calls != [] && Deadly(DoCalls(INITIAL, assets, calls[..|calls| - 1]), calls[|calls| - 1]) {
      HistoryIsTidy(assets, calls[..|calls| - 1]);
      DeathStopsEverything(DoCalls(INITIAL, assets, calls[..|calls| - 1]), assets, calls[|calls| - 1]);
    }
    CallsStayOrderly(assets, calls);
    StartedIsClosed(assets, s.procs);
    if s.aborted {
      ReversedIsReversed(assets, s.procs);
      ReversePermutes(s.procs);
    }
  }

  /** The order the launcher starts in has the names of the assets it was given. */
  lemma OrderKeepsNamesDistinct(assets: seq<Asset>, order: seq<Asset>)
    requires DistinctNames(assets) && multiset(order) == multiset(assets)
    ensures DistinctNames(order)
  {
    forall p, q | 0 <= p < q < |order| ensures order[p].name != order[q].name {
      if order[p].name == order[q].name {
        SameNameSamePlace(assets, order, p, q);
      }
    }
  }

  lemma StartedIsClosed(assets: seq<Asset>, procs: seq<Asset>)
    requires DependenciesFirst(assets) && procs <= assets
    ensures forall x, d :: x in procs && d in x.dependsOn ==> exists y :: y in procs && y.name == d
  {
    forall x, d | x in procs && d in x.dependsOn ensures exists y :: y in procs && y.name == d {
      var p :| 0 <= p < |procs| && procs[p] == x;
      assert NamedBefore(assets, p, d);
      var q :| 0 <= q < p && assets[q].name == d;
      assert procs[q] in procs;
    }
  }

  lemma ReversedIsReversed(assets: seq<Asset>, procs: seq<Asset>)
    requires DistinctNames(assets) && DependenciesFirst(assets) && procs <= assets
    ensures forall x, d :: x in Reverse(procs) && d in x.dependsOn ==> Before(Reverse(procs), x.name, d)
    ensures NoRepeats(Reverse(procs))
  {
    var back, n := Reverse(procs), |procs|;
    forall x, d | x in back && d in x.dependsOn ensures Before(back, x.name, d) {
      var i :| 0 <= i < n && back[i] == x;
      assert NamedBefore(assets, n - 1 - i, d);
      var q :| 0 <= q < n - 1 - i && assets[q].name == d;
      assert back[n - 1 - q].name == d;
    }
  }

  lemma {:induction false} ReversePermutes<T>(s: seq<T>)
    ensures multiset(Reverse(s)) == multiset(s)
  {
    if s != [] {
      ReversePermutes(s[1..]);
      assert s == [s[0]] + s[1..];
    }
  }
}
