/**
  One RPC service as a transition system: its server, its client slots, the run
  generation and the phases of the simulation. Every API call is one step; the
  clearing of receive flags takes one step for each flag.
*/
module RpcSystem {
  import opened RpcTypes
  import opened ServiceServer
  import opened ServiceClient

  /** Names one mailbox of the service. */
  datatype BoxId = RequestBox(client: nat) | ResponseBox(client: nat)

  /**
    Resetting clears the flags after a stop, Starting clears them for a new run;
    `todo` is what is still to be cleared.
  */
  datatype Phase =
    | Running
    | Stopped
    | Resetting(todo: set<BoxId>)
    | ResetDone
    | Starting(todo: set<BoxId>)

  datatype Link = Link(client: Client, req: Mailbox<RequestPacket>, resp: Mailbox<ResponsePacket>)

  datatype World = World(config: Config, generation: nat, phase: Phase, server: Server, links: seq<Link>)

  /** When a packet was written, and to which run its writer believed to belong. */
  datatype Stamp = Stamp(generation: nat, era: nat, running: bool)

  /**
    What happened to one client in the current run, in order. No code reads it: the
    journal only records what the theorems speak about. `answered` is what the server's
    request buffer held at each reply.
  */
  datatype Journal = Journal(
    sent: seq<RequestPacket>,
    taken: seq<RequestPacket>,
    replied: seq<ResponsePacket>,
    answered: seq<RequestPacket>,
    accepted: seq<ResponsePacket>,
    reqStamp: Stamp,
    respStamp: Stamp)
  {
    function NewRun(): Journal {
      Journal([], [], [], [], [], reqStamp, respStamp)
    }
  }

  /** `attempts` lists the clients the server tried to reply to in this run. */
  datatype System = System(world: World, journals: seq<Journal>, attempts: seq<nat>)

  datatype Step =
    | PollServer(now: int)
    | ReplyFromApp(reply: ResponsePacket)
    | SetProgress(percentage: int)
    | RequestFromApp(client: nat, request: RequestPacket, timeoutMsec: int, now: int)
    | PollClient(client: nat, now: int)
    | CancelFromApp(client: nat)
    | Stop
    | BeginReset
    | EndReset
    | BeginStart
    | EndStart
    | ClearFlag(box: BoxId)

  predicate WellFormed(s: System) {
    var w := s.world;
    && 0 < |w.links| == |w.server.slots| == |w.config.clientNames| == |s.journals|
    && w.server.current < |w.links|
  }

  /** A step leaves the number of clients and the names alone. */
  predicate SameShape(s: System, s': System) {
    && WellFormed(s')
    && |s'.world.links| == |s.world.links|
    && s'.world.config == s.world.config
  }

  function AllBoxes(n: nat): set<BoxId> {
    (set i: nat | i < n :: RequestBox(i)) + (set i: nat | i < n :: ResponseBox(i))
  }

  function NowStamp(w: World, era: nat): Stamp {
    Stamp(w.generation, era, w.phase == Running)
  }

  function WithLink(s: System, i: nat, link: Link, journal: Journal): (s': System)
    requires WellFormed(s) && i < |s.world.links|
    ensures SameShape(s, s')
  {
    s.(world := s.world.(links := s.world.links[i := link]), journals := s.journals[i := journal])
  }

  /** The server as it is once it has noticed the current run. */
  function RunServer(w: World): Server {
    ResetIfNewRun(w.server, w.generation)
  }

  /** The server's turn, after it has noticed the current run. */
  function Turn(s: System): (c: nat)
    requires WellFormed(s)
    ensures c < |s.world.links|
  {
    RunServer(s.world).current
  }

  function PollStep(s: System, now: int): ServerStep
    requires WellFormed(s)
  {
    var link := s.world.links[Turn(s)];
    Poll(s.world.config, s.world.generation, s.world.server, link.req, link.resp, now)
  }

  function ReplyStep(s: System, packet: ResponsePacket): ServerStep
    requires WellFormed(s)
  {
    var link := s.world.links[s.world.server.current];
    ReplyToCurrentRequest(s.world.generation, s.world.server, link.req, link.resp, packet)
  }

  function AfterServerStep(s: System, c: nat, step: ServerStep): (s': System)
    requires WellFormed(s) && c < |s.world.links| && SameTable(s.world.server, step.server)
    ensures SameShape(s, s')
  {
    var link, journal := s.world.links[c], s.journals[c];
    var taken := if step.event == RequestIn then journal.taken + [link.req.packet] else journal.taken;
    var journal' :=
      if step.delivered.Some? then
        journal.(
          taken := taken,
          replied := journal.replied + [step.delivered.value],
          answered := journal.answered + [step.server.requestBuffer],
          respStamp := NowStamp(s.world, step.server.runGeneration))
      else
        journal.(taken := taken);
    var s' := WithLink(s, c, link.(req := step.req, resp := step.resp), journal');
    s'.(
      world := s'.world.(server := step.server),
      attempts := if step.attempted then s.attempts + [c] else s.attempts)
  }

  function RequestStep(s: System, i: nat, packet: RequestPacket, timeoutMsec: int, now: int): ClientStep
    requires i < |s.world.links|
  {
    var link := s.world.links[i];
    Request(s.world.generation, link.client, link.req, link.resp, packet, timeoutMsec, now)
  }

  function CancelStep(s: System, i: nat): ClientStep
    requires WellFormed(s) && i < |s.world.links|
  {
    var link := s.world.links[i];
    CancelRequest(s.world.config.AddressOf(i), link.client, link.req, link.resp)
  }

  function ClientPollStep(s: System, i: nat, now: int): ClientStep
    requires WellFormed(s) && i < |s.world.links|
  {
    var link := s.world.links[i];
    ClientPoll(s.world.config.AddressOf(i), s.world.generation, link.client, link.req, link.resp, now)
  }

  function LinkAfter(step: ClientStep): Link {
    Link(step.client, step.req, step.resp)
  }

  function AfterRequest(s: System, i: nat, step: ClientStep): (s': System)
    requires WellFormed(s) && i < |s.world.links|
    ensures SameShape(s, s')
  {
    var journal := s.journals[i];
    WithLink(s, i, LinkAfter(step),
      if step.sent.Some? then
        journal.(
          sent := journal.sent + [step.sent.value],
          reqStamp := NowStamp(s.world, step.client.runGeneration))
      else
        journal)
  }

  function AfterCancel(s: System, i: nat, step: ClientStep): (s': System)
    requires WellFormed(s) && i < |s.world.links|
    ensures SameShape(s, s')
  {
    var journal := s.journals[i];
    WithLink(s, i, LinkAfter(step),
      if step.sent.Some? then
        journal.(reqStamp := NowStamp(s.world, step.client.runGeneration))
      else
        journal)
  }

  predicate Completes(event: ClientEvent) {
    event == ResponseIn || event == CancelDone
  }

  function AfterClientPoll(s: System, i: nat, step: ClientStep): (s': System)
    requires WellFormed(s) && i < |s.world.links|
    ensures SameShape(s, s')
  {
    var journal := s.journals[i];
    WithLink(s, i, LinkAfter(step),
      if Completes(step.event) then
        journal.(accepted := journal.accepted + [s.world.links[i].resp.packet])
      else
        journal)
  }

  function Lower(s: System, box: BoxId): (s': System)
    requires WellFormed(s)
    ensures SameShape(s, s')
  {
    if box.client >= |s.world.links| then
      s
    else
      var link := s.world.links[box.client];
      var link' := match box
        case RequestBox(_) => link.(req := link.req.Taken())
        case ResponseBox(_) => link.(resp := link.resp.Taken());
      WithLink(s, box.client, link', s.journals[box.client])
  }

  function InPhase(s: System, phase: Phase): System {
    s.(world := s.world.(phase := phase))
  }

  /** A new run: the generation moves first, every flag is still to be cleared. */
  function NewRun(s: System): System {
    System(
      s.world.(generation := s.world.generation + 1, phase := Starting(AllBoxes(|s.world.links|))),
      seq(|s.journals|, i requires 0 <= i < |s.journals| => s.journals[i].NewRun()),
      [])
  }

  /** One step. A call that is refused, or whose phase is wrong, changes nothing. */
  function Next(s: System, step: Step): (s': System)
    requires WellFormed(s)
    ensures SameShape(s, s')
  {
    match step
    case PollServer(now) =>
      if s.world.phase == Running then AfterServerStep(s, Turn(s), PollStep(s, now)) else s
    case ReplyFromApp(packet) =>
      if s.world.phase == Running then AfterServerStep(s, s.world.server.current, ReplyStep(s, packet)) else s
    case SetProgress(percentage) =>
      s.(world := s.world.(server := s.world.server.(percentage := percentage)))
    case RequestFromApp(i, packet, timeoutMsec, now) =>
      if s.world.phase == Running && i < |s.world.links| then
        AfterRequest(s, i, RequestStep(s, i, packet, timeoutMsec, now))
      else s
    case PollClient(i, now) =>
      if i < |s.world.links| then AfterClientPoll(s, i, ClientPollStep(s, i, now)) else s
    case CancelFromApp(i) =>
      if i < |s.world.links| then AfterCancel(s, i, CancelStep(s, i)) else s
    case Stop =>
      if s.world.phase == Running then InPhase(s, Stopped) else s
    case BeginReset =>
      if s.world.phase == Stopped || s.world.phase == ResetDone then
        InPhase(s, Resetting(AllBoxes(|s.world.links|)))
      else s
    case EndReset =>
      if s.world.phase == Resetting({}) then InPhase(s, ResetDone) else s
    case BeginStart =>
      if s.world.phase == Stopped || s.world.phase == ResetDone then NewRun(s) else s
    case EndStart =>
      if s.world.phase == Starting({}) then InPhase(s, Running) else s
    case ClearFlag(box) =>
      match s.world.phase
      case Resetting(todo) => if box in todo then InPhase(Lower(s, box), Resetting(todo - {box})) else s
      case Starting(todo) => if box in todo then InPhase(Lower(s, box), Starting(todo - {box})) else s
      case _ => s
  }

  /** What the caller of a step is told, with the packet that caused it. */
  datatype Report =
    | Quiet
    | ToServer(client: nat, serverEvent: ServerEvent, request: RequestPacket, stamp: Stamp)
    | ToClient(client: nat, clientEvent: ClientEvent, response: ResponsePacket, stamp: Stamp)

  function ReportOf(s: System, step: Step): Report
    requires WellFormed(s)
  {
    match step
    case PollServer(now) =>
      if s.world.phase == Running && PollStep(s, now).event != ServerNone then
        var c := Turn(s);
        ToServer(c, PollStep(s, now).event, s.world.links[c].req.packet, s.journals[c].reqStamp)
      else Quiet
    case PollClient(i, now) =>
      if i < |s.world.links| && Completes(ClientPollStep(s, i, now).event) then
        ToClient(i, ClientPollStep(s, i, now).event, s.world.links[i].resp.packet, s.journals[i].respStamp)
      else Quiet
    case _ => Quiet
  }

  /** No process has called anything yet and the simulation has never run. */
  predicate Initial(s: System) {
    var w := s.world;
    && WellFormed(s)
    && w.phase == ResetDone
    && w.server.runGeneration == w.generation
    && w.server.requestGeneration <= w.generation
    && w.server.current == 0
    && w.server.slots == AllIdle(|w.links|)
    && s.attempts == []
    && forall i :: 0 <= i < |w.links| ==> InitialLink(w.generation, w.links[i], s.journals[i])
  }

  predicate InitialLink(generation: nat, link: Link, journal: Journal) {
    && link.client.state == Idle
    && link.client.runGeneration == generation
    && link.req.Accepts() && link.resp.Accepts()
    && journal == Journal([], [], [], [], [], Stamp(0, 0, false), Stamp(0, 0, false))
  }

  /** The system after the given steps, taken in order. */
  function Run(s: System, steps: seq<Step>): (r: System)
    requires WellFormed(s)
    ensures SameShape(s, r)
  {
    if steps == [] then
      s
    else
      Next(Run(s, steps[..|steps| - 1]), steps[|steps| - 1])
  }
}
