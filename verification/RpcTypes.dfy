/**
  Vocabulary of the service RPC protocol: packet headers, states, events and the
  one-packet mailbox that a PDU channel and its receive flag form together.
*/
module RpcTypes {

  // Operation codes of a request header.
  const OPCODE_REQUEST: nat := 0
  const OPCODE_CANCEL: nat := 1
  const OPCODE_NUM: nat := 2

  // Status values of a response header.
  const STATUS_DOING: nat := 1
  const STATUS_CANCELING: nat := 2
  const STATUS_DONE: nat := 3
  const STATUS_ERROR: nat := 4

  // Result codes of a response header.
  const RESULT_OK: nat := 0
  const RESULT_CANCELED: nat := 2
  const RESULT_INVALID: nat := 3
  const RESULT_BUSY: nat := 4
  const RESULT_NUM: nat := 5

  datatype RequestHeader = RequestHeader(
    requestId: int, serviceName: string, clientName: string, opcode: nat, pollIntervalMsec: int)

  datatype RequestPacket = RequestPacket(header: RequestHeader, body: seq<bv8>)

  datatype ResponseHeader = ResponseHeader(
    requestId: int, serviceName: string, clientName: string, status: nat, percentage: nat, resultCode: nat)

  datatype ResponsePacket = ResponsePacket(header: ResponseHeader, body: seq<bv8>)

  const EMPTY_REQUEST_HEADER := RequestHeader(0, "", "", 0, 0)

  /** State of one client slot in the server, and of a client object. */
  datatype ServiceState = Idle | Doing | Canceling

  datatype ServerEvent = ServerNone | RequestIn | RequestCancel

  datatype ClientEvent = ClientNone | ResponseIn | RequestTimeout | CancelDone

  /** The names a client puts into its packets and expects in the answers. */
  datatype Address = Address(serviceName: string, clientName: string)

  /** Names fixed by the service table: the service and its client slots. */
  datatype Config = Config(serviceName: string, clientNames: seq<string>) {

    function AddressOf(i: nat): Address
      requires i < |clientNames|
    {
      Address(serviceName, clientNames[i])
    }
  }

  /**
    A PDU channel together with the receive flag of its only listener. A write is
    refused while the flag is up; a take lowers the flag and reads the bytes.
  */
  datatype Mailbox<P> = Mailbox(flag: bool, packet: P) {

    function Accepts(): bool {
      !flag
    }

    function Write(p: P): Mailbox<P> {
      if Accepts() then Mailbox(true, p) else this
    }

    function Taken(): Mailbox<P> {
      this.(flag := false)
    }
  }
}
