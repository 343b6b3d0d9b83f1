/**
  The client side of the RPC protocol: what one call does to a client object and to
  its two mailboxes, and the object itself.
*/
module ServiceClient {
  import opened Options
  import opened RpcTypes
  import opened ServiceServer

  datatype Client = Client(
    state: ServiceState,
    requestHeader: RequestHeader,
    responseBuffer: ResponsePacket,
    percentage: int,
    requestId: int,
    timeoutMsec: int,
    heartbeatTime: int,
    lastPollTime: int,
    runGeneration: nat)

  /** A client kept across runs stops waiting; its request id is not reset. */
  function ClientResetIfNewRun(client: Client, generation: nat): Client {
    if generation == client.runGeneration then
      client
    else
      client.(state := Idle, percentage := 0, lastPollTime := 0, heartbeatTime := 0, runGeneration := generation)
  }

  /** Header of the packets a client builds, requests and cancels alike. */
  function RequestHeaderFor(me: Address, requestId: int, opcode: nat, pollIntervalMsec: int): RequestHeader {
    RequestHeader(requestId, me.serviceName, me.clientName, opcode, pollIntervalMsec)
  }

  predicate ValidResponseHeader(me: Address, header: ResponseHeader) {
    && header.serviceName == me.serviceName
    && header.clientName == me.clientName
    && header.resultCode < RESULT_NUM
  }

  predicate HeartbeatTimeout(client: Client, now: int) {
    client.timeoutMsec > 0 && now - client.heartbeatTime > client.timeoutMsec * 1000
  }

  /** Effect of one client call: `sent` is the packet its request mailbox took. */
  datatype ClientStep = ClientStep(
    client: Client,
    req: Mailbox<RequestPacket>,
    resp: Mailbox<ResponsePacket>,
    event: ClientEvent,
    sent: Option<RequestPacket>)

  /** `request` never looks at the client's own state before it writes. */
  function Request(
    generation: nat, start: Client, req: Mailbox<RequestPacket>, resp: Mailbox<ResponsePacket>,
    packet: RequestPacket, timeoutMsec: int, now: int): ClientStep
  {
    var client := ClientResetIfNewRun(start, generation);
    if req.Accepts() then
      ClientStep(
        client.(
          timeoutMsec := timeoutMsec,
          lastPollTime := 0,
          heartbeatTime := now,
          requestHeader := packet.header,
          state := if client.state == Idle then Doing else client.state),
        req.Write(packet), resp, ClientNone, Some(packet))
    else
      ClientStep(client, req, resp, ClientNone, None)
  }

  function CancelPacket(me: Address, client: Client): RequestPacket {
    RequestPacket(RequestHeaderFor(me, client.requestId, OPCODE_CANCEL, -1), [])
  }

  /** A cancel does not check for a new run first: a leftover Doing state can still send one. */
  function CancelRequest(
    me: Address, client: Client, req: Mailbox<RequestPacket>, resp: Mailbox<ResponsePacket>): ClientStep
  {
    if client.state == Doing && req.Accepts() then
      var packet := CancelPacket(me, client);
      ClientStep(client.(state := Canceling), req.Write(packet), resp, ClientNone, Some(packet))
    else
      ClientStep(client, req, resp, ClientNone, None)
  }

  /** DONE and ERROR end the request; every other status only refreshes the client. */
  function Accept(
    client: Client, req: Mailbox<RequestPacket>, resp: Mailbox<ResponsePacket>,
    packet: ResponsePacket, now: int): ClientStep
  {
    var alive := client.(heartbeatTime := now);
    var header := packet.header;
    if header.status == STATUS_DONE || header.status == STATUS_ERROR then
      ClientStep(
        alive.(responseBuffer := packet, state := Idle, requestId := client.requestId + 1),
        req, resp, if header.resultCode == RESULT_CANCELED then CancelDone else ResponseIn, None)
    else if header.status == STATUS_DOING && client.requestHeader.pollIntervalMsec > 0 then
      var due := client.lastPollTime == 0
                 || now - client.lastPollTime > client.requestHeader.pollIntervalMsec * 1000;
      ClientStep(
        alive.(percentage := if due then header.percentage else client.percentage, lastPollTime := now),
        req, resp, ClientNone, None)
    else
      ClientStep(alive, req, resp, ClientNone, None)
  }

  function ClientPoll(
    me: Address, generation: nat, start: Client,
    req: Mailbox<RequestPacket>, resp: Mailbox<ResponsePacket>, now: int): ClientStep
  {
    var client := ClientResetIfNewRun(start, generation);
    if client.state == Idle then
      ClientStep(client, req, resp, ClientNone, None)
    else if !resp.flag then
      var event := if client.state != Canceling && HeartbeatTimeout(client, now) then RequestTimeout else ClientNone;
      ClientStep(client, req, resp, event, None)
    else if !ValidResponseHeader(me, resp.packet.header) then
      ClientStep(client, req, resp.Taken(), ClientNone, None)
    else
      Accept(client, req, resp.Taken(), resp.packet, now)
  }

  /** One client object, attached to the slot `clientId` of its service. */
  class ServiceClientProtocol {
    const memory: SharedMemory
    const clientId: nat
    const me: Address
    var state: ServiceState
    var requestHeader: RequestHeader
    var responseUserBuffer: ResponsePacket
    var percentage: int
    var requestId: int
    var timeoutMsec: int
    var heartbeatConfirmedTime: int
    var lastPollTime: int
    var runGeneration: nat

    ghost predicate Valid()
      reads this
    {
      clientId < memory.requests.Length == memory.responses.Length
    }

    ghost function View(): (client: Client)
      reads this
    {
      Client(state, requestHeader, responseUserBuffer, percentage, requestId, timeoutMsec,
              heartbeatConfirmedTime, lastPollTime, runGeneration)
    }

    constructor (memory: SharedMemory, clientId: nat, me: Address, blank: ResponsePacket)
      requires clientId < memory.requests.Length == memory.responses.Length
      ensures Valid() && this.memory == memory && this.clientId == clientId && this.me == me
      ensures View() == Client(Idle, EMPTY_REQUEST_HEADER, blank, 0, 0, 0, 0, 0,
                               memory.generation)
    {
      this.memory := memory;
      this.clientId := clientId;
      this.me := me;
      state := Idle;
      requestHeader := EMPTY_REQUEST_HEADER;
      responseUserBuffer := blank;
      percentage, requestId, timeoutMsec, heartbeatConfirmedTime, lastPollTime := 0, 0, 0, 0, 0;
      runGeneration := memory.generation;
    }

    method StartNewRun()
      modifies this
      ensures View() == ClientResetIfNewRun(old(View()), memory.generation)
    {
      if memory.generation != runGeneration {
        state := Idle;
        percentage := 0;
        lastPollTime := 0;
        heartbeatConfirmedTime := 0;
        runGeneration := memory.generation;
      }
    }

    method SendRequest(packet: RequestPacket) returns (sent: bool)
      requires Valid()
      modifies memory.requests
      ensures sent == old(memory.requests[clientId].Accepts())
      ensures memory.requests[..]
           == old(memory.requests[..])[clientId := old(memory.requests[clientId]).Write(packet)]
    {
      sent := memory.requests[clientId].Accepts();
      memory.requests[clientId] := memory.requests[clientId].Write(packet);
    }

    method CallRequest(packet: RequestPacket, timeout: int, now: int) returns (sent: bool)
      requires Valid()
      modifies this, memory.requests
      ensures var step := Request(memory.generation, old(View()), old(memory.requests[clientId]),
                                  old(memory.responses[clientId]), packet, timeout, now);
              && View() == step.client
              && sent == step.sent.Some?
              && memory.requests[..] == old(memory.requests[..])[clientId := step.req]
    {
      StartNewRun();
      sent := SendRequest(packet);
      if sent {
        timeoutMsec := timeout;
        lastPollTime := 0;
        heartbeatConfirmedTime := now;
        requestHeader := packet.header;
        if state == Idle {
          state := Doing;
        }
      }
    }

    method CallCancel() returns (sent: bool)
      requires Valid()
      modifies this, memory.requests
      ensures var step := CancelRequest(me, old(View()), old(memory.requests[clientId]),
                                        old(memory.responses[clientId]));
              && View() == step.client
              && sent == step.sent.Some?
              && memory.requests[..] == old(memory.requests[..])[clientId := step.req]
    {
      if state != Doing {
        return false;
      }
      var header := RequestHeader(requestId, me.serviceName, me.clientName, OPCODE_CANCEL, -1);
      sent := SendRequest(RequestPacket(header, []));
      if sent {
        state := Canceling;
      }
    }

    method CallPoll(now: int) returns (event: ClientEvent)
      requires Valid()
      modifies this, memory.responses
      ensures var step := ClientPoll(me, memory.generation, old(View()), old(memory.requests[clientId]),
                                     old(memory.responses[clientId]), now);
              && View() == step.client
              && event == step.event
              && memory.responses[..] == old(memory.responses[..])[clientId := step.resp]
    {
      StartNewRun();
      event := ClientNone;
      if state == Idle {
        return;
      }
      var box := memory.responses[clientId];
      if !box.flag {
        if state != Canceling && timeoutMsec > 0 && now - heartbeatConfirmedTime > timeoutMsec * 1000 {
          event := RequestTimeout;
        }
        return;
      }
      memory.responses[clientId] := box.Taken();
      var header := box.packet.header;
      if header.serviceName != me.serviceName || header.clientName != me.clientName || header.resultCode >= RESULT_NUM {
        return;
      }
      heartbeatConfirmedTime := now;
      event := if header.resultCode == RESULT_CANCELED then CancelDone else ResponseIn;
      if header.status == STATUS_DONE || header.status == STATUS_ERROR {
        responseUserBuffer := box.packet;
        state := Idle;
        requestId := requestId + 1;
      } else {
        if header.status == STATUS_DOING && requestHeader.pollIntervalMsec > 0 {
          if lastPollTime == 0 || now - lastPollTime > requestHeader.pollIntervalMsec * 1000 {
            percentage := header.percentage;
          }
          lastPollTime := now;
        }
        event := ClientNone;
      }
    }
  }
}
