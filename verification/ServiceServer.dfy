/**
  The server side of the RPC protocol: what one call does to the server object and
  to the two mailboxes of the client whose turn it is, and the object itself.
*/
module ServiceServer {
  import opened Options
  import opened RpcTypes

  /** The fields of the server protocol object and of the slot table it drives. */
  datatype Server = Server(
    current: nat,
    slots: seq<ServiceState>,
    requestHeader: RequestHeader,
    requestBuffer: RequestPacket,
    percentage: int,
    lastPollTime: int,
    runGeneration: nat,
    requestGeneration: nat)
  {
    predicate Valid() {
      current < |slots|
    }

    function State(): ServiceState
      requires Valid()
    {
      slots[current]
    }

    function NextClient(): Server
      requires Valid()
    {
      this.(current := (current + 1) % |slots|)
    }

    /** A finished slot goes back to idle; an idle slot stays as it is. */
    function EventDone(): Server
      requires Valid()
    {
      this.(slots := slots[current := Idle])
    }
  }

  function AllIdle(n: nat): seq<ServiceState> {
    seq(n, _ => Idle)
  }

  /** The first call of a new run forgets what the previous run left behind. */
  function ResetIfNewRun(server: Server, generation: nat): Server {
    if generation == server.runGeneration then
      server
    else
      server.(
        current := 0,
        slots := AllIdle(|server.slots|),
        requestHeader := EMPTY_REQUEST_HEADER,
        percentage := 0,
        lastPollTime := 0,
        runGeneration := generation)
  }

  function ResponseHeaderFor(config: Config, server: Server, status: nat, resultCode: nat): ResponseHeader
    requires server.current < |config.clientNames|
  {
    ResponseHeader(
      server.requestHeader.requestId, config.serviceName, config.clientNames[server.current],
      status, server.percentage % 256, resultCode)
  }

  predicate ValidRequestHeader(config: Config, header: RequestHeader) {
    && header.serviceName == config.serviceName
    && header.clientName in config.clientNames
    && header.opcode < OPCODE_NUM
  }

  /**
    Effect of one server call on the server and on the mailboxes of the client it
    addressed. `attempted` tells that a reply was tried, `delivered` which packet
    the response mailbox took.
  */
  datatype ServerStep = ServerStep(
    server: Server,
    req: Mailbox<RequestPacket>,
    resp: Mailbox<ResponsePacket>,
    event: ServerEvent,
    attempted: bool,
    delivered: Option<ResponsePacket>)

  /** The slot table keeps its size and the turn stays inside it. */
  predicate SameTable(before: Server, after: Server) {
    after.Valid() && |after.slots| == |before.slots|
  }

  /** A reply frees the slot only when the mailbox took it, and always ends the turn. */
  function Reply(
    server: Server, req: Mailbox<RequestPacket>, resp: Mailbox<ResponsePacket>, packet: ResponsePacket): (r: ServerStep)
    requires server.Valid()
    ensures SameTable(server, r.server)
  {
    var sent := if resp.Accepts() then server.EventDone() else server;
    ServerStep(
      sent.NextClient(), req, resp.Write(packet), ServerNone, true,
      if resp.Accepts() then Some(packet) else None)
  }

  /** A status, busy or error packet the server writes on its own; its body is blank. */
  function SendResponse(
    config: Config, server: Server, req: Mailbox<RequestPacket>, resp: Mailbox<ResponsePacket>,
    status: nat, resultCode: nat): (r: ServerStep)
    requires server.Valid() && server.current < |config.clientNames|
    ensures SameTable(server, r.server)
  {
    Reply(server, req, resp, ResponsePacket(ResponseHeaderFor(config, server, status, resultCode), []))
  }

  predicate WantsProgressReport(server: Server, now: int)
    requires server.Valid()
  {
    && server.State() == Doing
    && server.requestHeader.pollIntervalMsec > 0
    && (server.lastPollTime == 0 || now - server.lastPollTime > server.requestHeader.pollIntervalMsec * 1000)
  }

  function PollEmpty(
    config: Config, server: Server, req: Mailbox<RequestPacket>, resp: Mailbox<ResponsePacket>,
    now: int): (r: ServerStep)
    requires server.Valid() && server.current < |config.clientNames|
    ensures SameTable(server, r.server)
  {
    var polled :=
      if WantsProgressReport(server, now) then
        SendResponse(config, server, req, resp, STATUS_DOING, RESULT_OK)
      else
        ServerStep(server, req, resp, ServerNone, false, None);
    if server.State() == Doing && server.requestHeader.pollIntervalMsec > 0 then
      polled.(server := polled.server.(lastPollTime := now))
    else
      polled
  }

  /** What a valid packet does, by the state of the slot it arrived in. */
  function PollPacket(
    config: Config, server: Server, req: Mailbox<RequestPacket>, resp: Mailbox<ResponsePacket>,
    packet: RequestPacket): (r: ServerStep)
    requires server.Valid() && server.current < |config.clientNames|
    ensures SameTable(server, r.server)
  {
    match server.State()
    case Idle =>
      if packet.header.opcode == OPCODE_REQUEST then
        ServerStep(
          server.(
            slots := server.slots[server.current := Doing],
            requestHeader := packet.header,
            requestBuffer := packet,
            requestGeneration := server.runGeneration,
            percentage := 0),
          req, resp, RequestIn, false, None)
      else if packet.header.opcode == OPCODE_CANCEL then
        ServerStep(server, req, resp, ServerNone, false, None)
      else
        SendResponse(config, server, req, resp, STATUS_ERROR, RESULT_INVALID)
    case Doing =>
      if packet.header.opcode == OPCODE_CANCEL then
        ServerStep(
          server.(slots := server.slots[server.current := Canceling]), req, resp, RequestCancel, false, None)
      else
        SendResponse(config, server, req, resp, STATUS_DOING, RESULT_BUSY)
    case Canceling =>
      SendResponse(config, server, req, resp, STATUS_CANCELING, RESULT_BUSY)
  }

  /** One poll. The mailboxes are those of the client whose turn it is after the reset. */
  function Poll(
    config: Config, generation: nat, start: Server,
    req: Mailbox<RequestPacket>, resp: Mailbox<ResponsePacket>, now: int): (r: ServerStep)
    requires start.Valid() && |start.slots| == |config.clientNames|
    ensures SameTable(start, r.server)
  {
    var server := ResetIfNewRun(start, generation);
    if !req.flag then
      PollEmpty(config, server, req, resp, now)
    else if !ValidRequestHeader(config, req.packet.header) then
      SendResponse(config, server, req.Taken(), resp, STATUS_ERROR, RESULT_INVALID)
    else
      PollPacket(config, server, req.Taken(), resp, req.packet)
  }

  /** The application's reply passes only for a request of this run that is in progress. */
  predicate ReplyAllowed(server: Server, generation: nat)
    requires server.Valid()
  {
    generation == server.requestGeneration && server.State() != Idle
  }

  function ReplyToCurrentRequest(
    generation: nat, server: Server, req: Mailbox<RequestPacket>, resp: Mailbox<ResponsePacket>,
    packet: ResponsePacket): (r: ServerStep)
    requires server.Valid()
    ensures SameTable(server, r.server)
  {
    if ReplyAllowed(server, generation) then
      Reply(server, req, resp, packet)
    else
      ServerStep(server, req, resp, ServerNone, false, None)
  }

  /** The channels all processes share, and the run generation beside them. */
  class SharedMemory {
    var generation: nat
    const requests: array<Mailbox<RequestPacket>>
    const responses: array<Mailbox<ResponsePacket>>

    constructor (n: nat, blankRequest: RequestPacket, blankResponse: ResponsePacket)
      ensures generation == 0 && requests.Length == n && responses.Length == n
      ensures forall i :: 0 <= i < n ==> requests[i].Accepts() && responses[i].Accepts()
      ensures fresh(requests) && fresh(responses)
    {
      generation := 0;
      requests := new Mailbox<RequestPacket>[n](_ => Mailbox(false, blankRequest));
      responses := new Mailbox<ResponsePacket>[n](_ => Mailbox(false, blankResponse));
    }
  }

  /** The server object of one service: protocol fields and slot table. */
  class ServiceServerProtocol {
    const config: Config
    const memory: SharedMemory
    const state: array<ServiceState>
    var currentClientId: nat
    var requestHeader: RequestHeader
    var requestUserBuffer: RequestPacket
    var percentage: int
    var lastPollTime: int
    var runGeneration: nat
    var requestGeneration: nat

    ghost predicate Valid()
      reads this, memory
    {
      && 0 < state.Length == |config.clientNames|
      && memory.requests.Length == memory.responses.Length == state.Length
      && currentClientId < state.Length
    }

    ghost function View(): (server: Server)
      reads this, state
    {
      Server(currentClientId, state[..], requestHeader, requestUserBuffer, percentage, lastPollTime,
             runGeneration, requestGeneration)
    }

    constructor (config: Config, memory: SharedMemory, blankRequest: RequestPacket)
      requires 0 < |config.clientNames| == memory.requests.Length == memory.responses.Length
      ensures Valid() && this.config == config && this.memory == memory && fresh(state)
      ensures View() == Server(0, AllIdle(|config.clientNames|), EMPTY_REQUEST_HEADER, blankRequest, 0, 0,
                               memory.generation, 0)
    {
      this.config := config;
      this.memory := memory;
      state := new ServiceState[|config.clientNames|](_ => Idle);
      currentClientId := 0;
      requestHeader := EMPTY_REQUEST_HEADER;
      requestUserBuffer := blankRequest;
      percentage := 0;
      lastPollTime := 0;
      runGeneration := memory.generation;
      requestGeneration := 0;
      new;
      assert state[..] == AllIdle(|config.clientNames|);
    }

    method StartNewRun()
      requires Valid()
      modifies this, state
      ensures Valid() && View() == ResetIfNewRun(old(View()), memory.generation)
    {
      if memory.generation != runGeneration {
        for i := 0 to state.Length
          modifies state
          invariant forall j :: 0 <= j < i ==> state[j] == Idle
        {
          state[i] := Idle;
        }
        currentClientId := 0;
        requestHeader := EMPTY_REQUEST_HEADER;
        percentage := 0;
        lastPollTime := 0;
        runGeneration := memory.generation;
        assert state[..] == AllIdle(state.Length);
      }
    }

    /** Writes the packet to the current client's response mailbox, then passes the turn. */
    method SendReply(packet: ResponsePacket) returns (sent: bool)
      requires Valid()
      modifies this, state, memory.responses
      ensures Valid()
      ensures var c := old(currentClientId);
              var step := Reply(old(View()), old(memory.requests[c]), old(memory.responses[c]), packet);
              && View() == step.server
              && sent == step.delivered.Some?
              && memory.responses[..] == old(memory.responses[..])[c := step.resp]
    {
      var c := currentClientId;
      sent := memory.responses[c].Accepts();
      memory.responses[c] := memory.responses[c].Write(packet);
      if sent && state[c] != Idle {
        state[c] := Idle;
      }
      currentClientId := (c + 1) % state.Length;
    }

    method SendStatus(status: nat, resultCode: nat) returns (sent: bool)
      requires Valid()
      modifies this, state, memory.responses
      ensures Valid()
      ensures var c := old(currentClientId);
              var step := SendResponse(config, old(View()), old(memory.requests[c]), old(memory.responses[c]),
                                       status, resultCode);
              && View() == step.server
              && sent == step.delivered.Some?
              && memory.responses[..] == old(memory.responses[..])[c := step.resp]
    {
      var header := ResponseHeader(
        requestHeader.requestId, config.serviceName, config.clientNames[currentClientId],
        status, percentage % 256, resultCode);
      sent := SendReply(ResponsePacket(header, []));
    }

    method ReplyToRequest(packet: ResponsePacket) returns (sent: bool)
      requires Valid()
      modifies this, state, memory.responses
      ensures Valid()
      ensures var c := old(currentClientId);
              var step := ReplyToCurrentRequest(
                memory.generation, old(View()), old(memory.requests[c]), old(memory.responses[c]), packet);
              && View() == step.server
              && sent == step.delivered.Some?
              && memory.responses[..] == old(memory.responses[..])[c := step.resp]
    {
      if memory.generation != requestGeneration || state[currentClientId] == Idle {
        return false;
      }
      sent := SendReply(packet);
    }

    method PollNothingReceived(now: int)
      requires Valid()
      modifies this, state, memory.responses
      ensures Valid()
      ensures var c := old(currentClientId);
              var step := PollEmpty(config, old(View()), old(memory.requests[c]), old(memory.responses[c]), now);
              && View() == step.server
              && memory.responses[..] == old(memory.responses[..])[c := step.resp]
    {
      if state[currentClientId] == Doing && requestHeader.pollIntervalMsec > 0 {
        if lastPollTime == 0 || now - lastPollTime > requestHeader.pollIntervalMsec * 1000 {
          var _ := SendStatus(STATUS_DOING, RESULT_OK);
        }
        lastPollTime := now;
      }
    }

    method PollPacketReceived(packet: RequestPacket) returns (event: ServerEvent)
      requires Valid()
      modifies this, state, memory.responses
      ensures Valid()
      ensures var c := old(currentClientId);
              var step := PollPacket(config, old(View()), old(memory.requests[c]), old(memory.responses[c]), packet);
              && View() == step.server
              && event == step.event
              && memory.responses[..] == old(memory.responses[..])[c := step.resp]
    {
      event := ServerNone;
      var c := currentClientId;
      match state[c] {
        case Idle =>
          if packet.header.opcode == OPCODE_REQUEST {
            event := RequestIn;
            requestUserBuffer := packet;
            requestHeader := packet.header;
            requestGeneration := runGeneration;
            state[c] := Doing;
            percentage := 0;
          } else if packet.header.opcode != OPCODE_CANCEL {
            var _ := SendStatus(STATUS_ERROR, RESULT_INVALID);
          }
        case Doing =>
          if packet.header.opcode == OPCODE_CANCEL {
            event := RequestCancel;
            state[c] := Canceling;
          } else {
            var _ := SendStatus(STATUS_DOING, RESULT_BUSY);
          }
        case Canceling =>
          var _ := SendStatus(STATUS_CANCELING, RESULT_BUSY);
      }
    }

    method PollOnce(now: int) returns (event: ServerEvent)
      requires Valid()
      modifies this, state, memory.requests, memory.responses
      ensures Valid()
      ensures var c := ResetIfNewRun(old(View()), memory.generation).current;
              var step := Poll(config, memory.generation, old(View()),
                               old(memory.requests[..])[c], old(memory.responses[..])[c], now);
              && View() == step.server
              && event == step.event
              && memory.requests[..] == old(memory.requests[..])[c := step.req]
              && memory.responses[..] == old(memory.responses[..])[c := step.resp]
    {
      StartNewRun();
      event := ServerNone;
      var c := currentClientId;
      var box := memory.requests[c];
      if !box.flag {
        PollNothingReceived(now);
        return;
      }
      memory.requests[c] := box.Taken();
      if !ValidRequestHeader(config, box.packet.header) {
        var _ := SendStatus(STATUS_ERROR, RESULT_INVALID);
        return;
      }
      event := PollPacketReceived(box.packet);
    }
  }
}
