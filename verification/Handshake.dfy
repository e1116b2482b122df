/**
 The handshake as one system: the master, the remote and a byte queue each way.
 A step delivers, loses, repeats or invents one byte, dispatches one local event,
 fires one timer, or writes one payload byte; each step is atomic.
 */
module Handshake {
  import opened Events
  import opened Machines
  import opened MasterFsm
  import opened RemoteFsm

  /** Why the master wrote a byte; the remote never looks at it. */
  datatype Origin = Protocol | Ping | Load | ResultRequest

  datatype Cell = Cell(byte: Byte, origin: Origin)

  /** What the master reads: one byte, or the eight bytes of a throughput result. */
  datatype Reply = One(byte: Byte) | Result

  const ACK: Reply := One(REMOTE_ACK)

  /** In an activity state both the machine and its activity have a read outstanding. */
  datatype Reader = StateReader | ActivityReader

  datatype System = System(
    master: Process<MasterState>,
    remote: Process<RemoteState>,
    forward: seq<Cell>,
    reverse: seq<Reply>,
    masterArmed: bool,
    remoteArmed: bool)

  datatype Label =
    | Local(event: Event)                        // dispatched at the master by a script, a controller or its timer
    | RemoteTimer
    | SendPayload(byte: Byte)
    | DeliverForward(reader: Reader)
    | DeliverReverse(reader: Reader)
    | DropForward(at: nat)
    | RepeatForward(at: nat)
    | DropReverse(at: nat)
    | RepeatReverse(at: nat)
    | InventReverse(at: nat, reply: Reply)

  // ----- One process -----

  function MasterNext(p: Process<MasterState>, e: Event): Outcome<MasterState> {
    Next(MASTER, p, e)
  }

  function RemoteNext(p: Process<RemoteState>, e: Event): Outcome<RemoteState> {
    Next(REMOTE, p, e)
  }

  predicate AwaitsAck(m: MasterState) {
    m == SentAvailableModeCommand || m == SentThroughputModeCommand || m == WaitAckAfterEndMode
  }

  /** An activity dispatches only EndTest, EndModeCommand and, at the master, RemoteAck. */
  function MasterHears(p: Process<MasterState>, reply: Reply, reader: Reader): Option<Event> {
    match reply
    case Result => None
    case One(b) =>
      var heard := Decode(b);
      if reader == ActivityReader && MasterActive(p) && heard.Some?
         && heard.value !in {RemoteAck, EndTest, EndModeCommand}
      then None else heard
  }

  function RemoteHears(p: Process<RemoteState>, b: Byte, reader: Reader): Option<Event> {
    var heard := Decode(b);
    if reader == ActivityReader && RemoteActive(p) && heard.Some?
       && heard.value !in {EndTest, EndModeCommand}
    then None else heard
  }

  predicate MasterActive(p: Process<MasterState>) {
    p == Running(AvailabilityMode) || p == Running(ThroughputMode)
  }

  predicate RemoteActive(p: Process<RemoteState>) {
    p == Running(RemoteAvailabilityMode) || p == Running(RemoteThroughputMode)
  }

  /** The remote's activities answer payload: a ping is echoed, a result request is answered. */
  function Answers(p: Process<RemoteState>, b: Byte, reader: Reader): seq<Reply> {
    if reader == ActivityReader && p == Running(RemoteAvailabilityMode) && IsPayload(b) then [One(b)]
    else if reader == ActivityReader && p == Running(RemoteThroughputMode) && b == END_STANDARD_CODES then [Result]
    else []
  }

  function Protocols(bytes: seq<Byte>): seq<Cell> {
    seq(|bytes|, i requires 0 <= i < |bytes| => Cell(bytes[i], Protocol))
  }

  function Ones(bytes: seq<Byte>): seq<Reply> {
    seq(|bytes|, i requires 0 <= i < |bytes| => One(bytes[i]))
  }

  /** A transition enters a state, which posts a new read. */
  predicate MasterRearms(p: Process<MasterState>, e: Event) {
    p.Running? && e != EndTest && MASTER.react(p.state, e).Transit?
  }

  predicate RemoteRearms(p: Process<RemoteState>, e: Event) {
    p.Running? && e != EndTest && REMOTE.react(p.state, e).Transit?
  }

  // ----- One step -----

  function MasterDispatch(s: System, e: Event): System {
    var o := MasterNext(s.master, e);
    s.(master := o.next, forward := s.forward + Protocols(o.sent),
       masterArmed := s.masterArmed || MasterRearms(s.master, e))
  }

  function RemoteDispatch(s: System, e: Event): System {
    var o := RemoteNext(s.remote, e);
    s.(remote := o.next, reverse := s.reverse + Ones(o.sent),
       remoteArmed := s.remoteArmed || RemoteRearms(s.remote, e))
  }

  /** What one read does: the reader's next state, what it writes, and whether it posts a new read. */
  datatype Turn<S, T> = Turn(next: Process<S>, writes: seq<T>, rearms: bool)

  function RemoteTurn(p: Process<RemoteState>, b: Byte, reader: Reader): Turn<RemoteState, Reply> {
    var answers := Answers(p, b, reader);
    match RemoteHears(p, b, reader)
    case None => Turn(p, answers, false)
    case Some(e) =>
      var o := RemoteNext(p, e);
      Turn(o.next, answers + Ones(o.sent), RemoteRearms(p, e))
  }

  function MasterTurn(p: Process<MasterState>, reply: Reply, reader: Reader): Turn<MasterState, Cell> {
    match MasterHears(p, reply, reader)
    case None => Turn(p, [], false)
    case Some(e) =>
      var o := MasterNext(p, e);
      Turn(o.next, Protocols(o.sent), MasterRearms(p, e))
  }

  /** A read by an activity leaves the read of its state outstanding. */
  function ReadForward(s: System, reader: Reader): System
    requires s.forward != []
  {
    var turn := RemoteTurn(s.remote, s.forward[0].byte, reader);
    var untouched := s.remoteArmed && reader == ActivityReader && RemoteActive(s.remote);
    s.(remote := turn.next, forward := s.forward[1..], reverse := s.reverse + turn.writes,
       remoteArmed := untouched || turn.rearms)
  }

  function ReadReverse(s: System, reader: Reader): System
    requires s.reverse != []
  {
    var turn := MasterTurn(s.master, s.reverse[0], reader);
    var untouched := s.masterArmed && reader == ActivityReader && MasterActive(s.master);
    s.(master := turn.next, reverse := s.reverse[1..], forward := s.forward + turn.writes,
       masterArmed := untouched || turn.rearms)
  }

  function OriginOf(p: Process<MasterState>, b: Byte): Origin {
    if p == Running(AvailabilityMode) then Ping
    else if b == END_STANDARD_CODES then ResultRequest
    else Load
  }

  /** The pinger writes codes below 240; the throughput test also writes the result request 240. */
  predicate MaySend(p: Process<MasterState>, b: Byte) {
    (p == Running(AvailabilityMode) && b < END_STANDARD_CODES) || (p == Running(ThroughputMode) && IsPayload(b))
  }

  function DropAt<T>(q: seq<T>, i: nat): seq<T> {
    if i < |q| then q[..i] + q[i + 1..] else q
  }

  function RepeatAt<T>(q: seq<T>, i: nat): seq<T> {
    if i < |q| then q[..i + 1] + q[i..] else q
  }

  function InsertAt<T>(q: seq<T>, i: nat, x: T): seq<T> {
    if i <= |q| then q[..i] + [x] + q[i..] else q
  }

  /** What a line can do to its queue: lose one element, hold one twice in place, gain one. */
  lemma DropMeans<T>(q: seq<T>, i: nat)
    requires i < |q|
    ensures |DropAt(q, i)| == |q| - 1 && InsertAt(DropAt(q, i), i, q[i]) == q
  {
  }

  lemma RepeatMeans<T>(q: seq<T>, i: nat)
    requires i < |q|
    ensures |RepeatAt(q, i)| == |q| + 1 && RepeatAt(q, i)[i] == q[i] && DropAt(RepeatAt(q, i), i) == q
  {
  }

  lemma InsertMeans<T>(q: seq<T>, i: nat, x: T)
    requires i <= |q|
    ensures |InsertAt(q, i, x)| == |q| + 1 && InsertAt(q, i, x)[i] == x && DropAt(InsertAt(q, i, x), i) == q
  {
  }

  predicate CanReadForward(s: System) {
    s.remote.Running? && s.forward != []
  }

  predicate CanReadReverse(s: System) {
    s.master.Running? && s.reverse != []
  }

  /** A label that is not enabled leaves the system as it is. */
  function Step(s: System, l: Label): System {
    match l
    case Local(e) => if s.master.Running? then MasterDispatch(s, e) else s
    case RemoteTimer => if s.remote.Running? then RemoteDispatch(s, Timeout) else s
    case SendPayload(b) =>
      if MaySend(s.master, b) then s.(forward := s.forward + [Cell(b, OriginOf(s.master, b))]) else s
    case DeliverForward(reader) => if CanReadForward(s) then ReadForward(s, reader) else s
    case DeliverReverse(reader) => if CanReadReverse(s) then ReadReverse(s, reader) else s
    case DropForward(i) => s.(forward := DropAt(s.forward, i))
    case RepeatForward(i) => s.(forward := RepeatAt(s.forward, i))
    case DropReverse(i) => s.(reverse := DropAt(s.reverse, i))
    case RepeatReverse(i) => s.(reverse := RepeatAt(s.reverse, i))
    case InventReverse(i, reply) => s.(reverse := InsertAt(s.reverse, i, reply))
  }

  /** Each fault does to its own line what it says, and nothing else. */
  lemma ForwardFaults(s: System, i: nat)
    requires i < |s.forward|
    ensures var t := Step(s, DropForward(i));
            |t.forward| == |s.forward| - 1 && s == t.(forward := InsertAt(t.forward, i, s.forward[i]))
    ensures var t := Step(s, RepeatForward(i));
            |t.forward| == |s.forward| + 1 && t.forward[i] == s.forward[i] && s == t.(forward := DropAt(t.forward, i))
  {
    DropMeans(s.forward, i);
    RepeatMeans(s.forward, i);
  }

  lemma ReverseFaults(s: System, i: nat)
    requires i < |s.reverse|
    ensures var t := Step(s, DropReverse(i));
            |t.reverse| == |s.reverse| - 1 && s == t.(reverse := InsertAt(t.reverse, i, s.reverse[i]))
    ensures var t := Step(s, RepeatReverse(i));
            |t.reverse| == |s.reverse| + 1 && t.reverse[i] == s.reverse[i] && s == t.(reverse := DropAt(t.reverse, i))
  {
    DropMeans(s.reverse, i);
    RepeatMeans(s.reverse, i);
  }

  lemma InventedReplies(s: System, i: nat, reply: Reply)
    requires i <= |s.reverse|
    ensures var t := Step(s, InventReverse(i, reply));
            |t.reverse| == |s.reverse| + 1 && t.reverse[i] == reply && s == t.(reverse := DropAt(t.reverse, i))
  {
    InsertMeans(s.reverse, i, reply);
  }

  function Exec(s: System, ls: seq<Label>): System
    decreases |ls|
  {
    if ls == [] then s else Exec(Step(s, ls[0]), ls[1..])
  }

  /** A byte reaches a state only through a read that was posted; activities always keep one posted. */
  predicate Honours(s: System, l: Label) {
    match l
    case DeliverForward(reader) => if reader == StateReader then s.remoteArmed else RemoteActive(s.remote)
    case DeliverReverse(reader) => if reader == StateReader then s.masterArmed else MasterActive(s.master)
    case _ => true
  }

  predicate HonouredRun(s: System, ls: seq<Label>)
    decreases |ls|
  {
    ls == [] || (Honours(s, ls[0]) && HonouredRun(Step(s, ls[0]), ls[1..]))
  }

  lemma {:induction false} ExecConcat(s: System, xs: seq<Label>, ys: seq<Label>)
    ensures Exec(s, xs + ys) == Exec(Exec(s, xs), ys)
    ensures HonouredRun(s, xs) && HonouredRun(Exec(s, xs), ys) ==> HonouredRun(s, xs + ys)
    decreases |xs|
  {
    if xs == [] {
      assert xs + ys == ys;
    } else {
      assert (xs + ys)[1..] == xs[1..] + ys;
      ExecConcat(Step(s, xs[0]), xs[1..], ys);
    }
  }

  const INITIAL: System := System(Running(Idle), Running(RemoteIdle), [], [], true, true)

  // ----- The twin of a master state -----

  function TwinState(m: MasterState): RemoteState {
    match m
    case Idle => RemoteIdle
    case SentAvailableModeCommand => AvailabilityCommandReceived
    case SentThroughputModeCommand => ThroughputCommandReceived
    case AvailabilityMode => RemoteAvailabilityMode
    case ThroughputMode => RemoteThroughputMode
    case WaitAckAfterEndMode => EndModeReceived
  }

  function Twin(p: Process<MasterState>): Process<RemoteState> {
    match p
    case Exited => Exited
    case Running(m) => Running(TwinState(m))
  }
}
