/** Event identifiers and their one-byte wire codes (src/Events.h). */
module Events {

  datatype Option<+T> = None | Some(value: T)

  type Byte = b: int | 0 <= b < 256

  datatype Event =
    | Timeout
    | AvailabilityModeCommand
    | ThroughputModeCommand
    | EndModeCommand
    | RemoteAck
    | MasterAck
    | EndTest

  const BEGIN_STANDARD_CODES: Byte := 0
  const END_STANDARD_CODES: Byte := 240
  const AVAILABILITY_MODE_COMMAND: Byte := 241
  const THROUGHPUT_MODE_COMMAND: Byte := 242
  const END_MODE_COMMAND: Byte := 243
  const REMOTE_ACK: Byte := 244
  const MASTER_ACK: Byte := 245
  const END_TEST: Byte := 246

  /** The eventId of an event; a timeout has no wire code. */
  function Id(e: Event): int {
    match e
    case Timeout => -1
    case AvailabilityModeCommand => AVAILABILITY_MODE_COMMAND
    case ThroughputModeCommand => THROUGHPUT_MODE_COMMAND
    case EndModeCommand => END_MODE_COMMAND
    case RemoteAck => REMOTE_ACK
    case MasterAck => MASTER_ACK
    case EndTest => END_TEST
  }

  /** The event a state machine dispatches for a byte it reads; payload bytes are none. */
  function Decode(b: Byte): Option<Event> {
    if b == AVAILABILITY_MODE_COMMAND then Some(AvailabilityModeCommand)
    else if b == THROUGHPUT_MODE_COMMAND then Some(ThroughputModeCommand)
    else if b == END_MODE_COMMAND then Some(EndModeCommand)
    else if b == REMOTE_ACK then Some(RemoteAck)
    else if b == MASTER_ACK then Some(MasterAck)
    else if b == END_TEST then Some(EndTest)
    else None
  }

  /** Every event but a timeout crosses the line as its own code, and no other byte is an event. */
  lemma DecodeInvertsId(e: Event, b: Byte)
    ensures Decode(b) == Some(e) <==> e != Timeout && Id(e) == b
  {
  }

  /** Bytes below 241 belong to the running activity, never to the handshake. */
  predicate IsPayload(b: Byte) {
    b <= END_STANDARD_CODES
  }

  /** The payload bytes of a chunk, in order. */
  function PayloadOf(bytes: seq<Byte>): seq<Byte>
    decreases |bytes|
  {
    if bytes == [] then []
    else (if IsPayload(bytes[0]) then [bytes[0]] else []) + PayloadOf(bytes[1..])
  }

  lemma {:induction false} PayloadOfKeepsAll(bytes: seq<Byte>, b: Byte)
    ensures multiset(PayloadOf(bytes))[b] == if b <= 240 then multiset(bytes)[b] else 0
    decreases |bytes|
  {
    if bytes != [] {
      assert bytes == [bytes[0]] + bytes[1..];
      PayloadOfKeepsAll(bytes[1..], b);
    }
  }
}
