/**
 Left to deliveries alone, the system always comes to rest: after a bounded
 number of steps, in the same state whatever the order, and, when no byte was
 lost, with both machines in one of the resting pairs.
 */
module Quiescence {
  import opened Events
  import opened Machines
  import opened MasterFsm
  import opened RemoteFsm
  import opened Handshake
  import Lockstep

  // ----- Termination -----

  predicate IsCommand(b: Byte) {
    b == AVAILABILITY_MODE_COMMAND || b == THROUGHPUT_MODE_COMMAND || b == END_MODE_COMMAND
  }

  /** A command may still cause an ack, and an ack a MasterAck; payload at most one answer. */
  function ForwardWeight(b: Byte): nat {
    if IsCommand(b) then 3
    else if IsPayload(b) then 2
    else 1
  }

  function ReverseWeight(reply: Reply): nat {
    if reply == ACK then 2
    else if reply.One? && IsCommand(reply.byte) then 4
    else 1
  }

  function ForwardEnergy(q: seq<Cell>): nat {
    if q == [] then 0 else ForwardWeight(q[0].byte) + ForwardEnergy(q[1..])
  }

  function ReverseEnergy(q: seq<Reply>): nat {
    if q == [] then 0 else ReverseWeight(q[0]) + ReverseEnergy(q[1..])
  }

  function Energy(s: System): nat {
    ForwardEnergy(s.forward) + ReverseEnergy(s.reverse)
    + (if s.master.Running? then 2 else 0) + (if s.remote.Running? then 2 else 0)
  }

  lemma {:induction false} ForwardSum(a: seq<Cell>, b: seq<Cell>)
    ensures ForwardEnergy(a + b) == ForwardEnergy(a) + ForwardEnergy(b)
  {
    if a == [] {
      assert a + b == b;
    } else {
      assert (a + b)[1..] == a[1..] + b;
      ForwardSum(a[1..], b);
    }
  }

  lemma {:induction false} ReverseSum(a: seq<Reply>, b: seq<Reply>)
    ensures ReverseEnergy(a + b) == ReverseEnergy(a) + ReverseEnergy(b)
  {
    if a == [] {
      assert a + b == b;
    } else {
      assert (a + b)[1..] == a[1..] + b;
      ReverseSum(a[1..], b);
    }
  }

  /** What a read makes the master write weighs less than the reply it took. */
  lemma MasterSpends(p: Process<MasterState>, reply: Reply, reader: Reader)
    requires p.Running?
    ensures var turn := MasterTurn(p, reply, reader);
            ForwardEnergy(turn.writes) < ReverseWeight(reply) + (if turn.next.Exited? then 2 else 0)
  {
    var writes := MasterTurn(p, reply, reader).writes;
    assert |writes| <= 1;
    if |writes| == 1 {
      assert writes[1..] == [];
    }
  }

  lemma RemoteSpends(p: Process<RemoteState>, b: Byte, reader: Reader)
    requires p.Running?
    ensures var turn := RemoteTurn(p, b, reader);
            ReverseEnergy(turn.writes) < ForwardWeight(b) + (if turn.next.Exited? then 2 else 0)
  {
    var writes := RemoteTurn(p, b, reader).writes;
    assert |writes| <= 1;
    if |writes| == 1 {
      assert writes[1..] == [];
    }
  }

  lemma ForwardSpends(s: System, reader: Reader)
    requires CanReadForward(s)
    ensures Energy(ReadForward(s, reader)) < Energy(s)
  {
    RemoteSpends(s.remote, s.forward[0].byte, reader);
    ReverseSum(s.reverse, RemoteTurn(s.remote, s.forward[0].byte, reader).writes);
  }

  lemma ReverseSpends(s: System, reader: Reader)
    requires CanReadReverse(s)
    ensures Energy(ReadReverse(s, reader)) < Energy(s)
  {
    MasterSpends(s.master, s.reverse[0], reader);
    ForwardSum(s.forward, MasterTurn(s.master, s.reverse[0], reader).writes);
  }

  lemma DeliverySpends(s: System, reader: Reader)
    ensures CanReadForward(s) ==> Energy(ReadForward(s, reader)) < Energy(s)
    ensures CanReadReverse(s) ==> Energy(ReadReverse(s, reader)) < Energy(s)
  {
    if CanReadForward(s) {
      ForwardSpends(s, reader);
    }
    if CanReadReverse(s) {
      ReverseSpends(s, reader);
    }
  }

  /** A delivery that finds a byte and a process to read it. */
  predicate Delivers(s: System, l: Label) {
    (l.DeliverForward? && CanReadForward(s)) || (l.DeliverReverse? && CanReadReverse(s))
  }

  predicate OnlyDeliveries(s: System, ls: seq<Label>)
    decreases |ls|
  {
    ls == [] || (Delivers(s, ls[0]) && OnlyDeliveries(Step(s, ls[0]), ls[1..]))
  }

  /** No ack storm: deliveries alone never outnumber the energy of the queues. */
  lemma {:induction false} NoAckStorm(s: System, ls: seq<Label>)
    requires OnlyDeliveries(s, ls)
    ensures Energy(Exec(s, ls)) + |ls| <= Energy(s)
    decreases |ls|
  {
    if ls != [] {
      DeliverySpends(s, ls[0].reader);
      NoAckStorm(Step(s, ls[0]), ls[1..]);
    }
  }

  // ----- The order of deliveries does not matter -----

  /** With the same readers, a delivery forward and a delivery back commute. */
  lemma DeliveriesCommute(s: System, f: Reader, r: Reader)
    requires CanReadForward(s) && CanReadReverse(s)
    ensures CanReadReverse(ReadForward(s, f)) && CanReadForward(ReadReverse(s, r))
    ensures ReadReverse(ReadForward(s, f), r) == ReadForward(ReadReverse(s, r), f)
  {
    var sf, sr := ReadForward(s, f), ReadReverse(s, r);
    var replies := RemoteTurn(s.remote, s.forward[0].byte, f).writes;
    var cells := MasterTurn(s.master, s.reverse[0], r).writes;
    assert (s.forward + cells)[1..] == s.forward[1..] + cells;
    assert (s.reverse + replies)[1..] == s.reverse[1..] + replies;
  }

  /** Deliver until nothing can be delivered, forward first. */
  function Drain(s: System, f: Reader, r: Reader): System
    decreases Energy(s)
  {
    DeliverySpends(s, f);
    DeliverySpends(s, r);
    if CanReadForward(s) then Drain(ReadForward(s, f), f, r)
    else if CanReadReverse(s) then Drain(ReadReverse(s, r), f, r)
    else s
  }

  lemma {:induction false} DrainAbsorbsReverse(s: System, f: Reader, r: Reader)
    requires CanReadReverse(s)
    ensures Drain(ReadReverse(s, r), f, r) == Drain(s, f, r)
    decreases Energy(s)
  {
    if CanReadForward(s) {
      DeliveriesCommute(s, f, r);
      DeliverySpends(s, f);
      DrainAbsorbsReverse(ReadForward(s, f), f, r);
    }
  }

  /** Every delivery by the given readers. */
  predicate ReadBy(l: Label, f: Reader, r: Reader) {
    l == DeliverForward(f) || l == DeliverReverse(r)
  }

  predicate AtRest(s: System) {
    !CanReadForward(s) && !CanReadReverse(s)
  }

  /** With one reader fixed for each direction, every order that runs to rest ends in the very same state. */
  lemma {:induction false} OrderDoesNotMatter(s: System, ls: seq<Label>, f: Reader, r: Reader)
    requires OnlyDeliveries(s, ls) && AtRest(Exec(s, ls))
    requires forall l :: l in ls ==> ReadBy(l, f, r)
    ensures Exec(s, ls) == Drain(s, f, r)
    decreases |ls|
  {
    if ls != [] {
      assert ReadBy(ls[0], f, r);
      OrderDoesNotMatter(Step(s, ls[0]), ls[1..], f, r);
      if ls[0] == DeliverReverse(r) && CanReadReverse(s) {
        DrainAbsorbsReverse(s, f, r);
      }
    }
  }

  // ----- Where a lossless system rests -----

  predicate MasterAwaits(p: Process<MasterState>) {
    p.Running? && AwaitsAck(p.state)
  }

  /** The remote will write an ack while it reads these bytes. */
  predicate WillAck(p: Process<RemoteState>, cells: seq<Cell>)
    decreases |cells|
  {
    cells != [] && (AcksOn(p, cells[0].byte) || WillAck(Lockstep.Consume(p, cells[0].byte), cells[1..]))
  }

  predicate AcksOn(p: Process<RemoteState>, b: Byte) {
    Decode(b).Some? && REMOTE_ACK in RemoteNext(p, Decode(b).value).sent
  }

  ghost predicate AckComing(s: System) {
    MasterAwaits(s.master) ==> ACK in s.reverse || WillAck(s.remote, s.forward)
  }

  predicate Lossless(l: Label) {
    Lockstep.ForwardFaithful(l) && !l.DropReverse?
  }

  lemma {:induction false} WillAckAppend(p: Process<RemoteState>, xs: seq<Cell>, ys: seq<Cell>)
    ensures WillAck(p, xs + ys) <==> WillAck(p, xs) || WillAck(Lockstep.After(p, xs), ys)
    decreases |xs|
  {
    if xs == [] {
      assert xs + ys == ys;
    } else {
      assert (xs + ys)[1..] == xs[1..] + ys;
      WillAckAppend(Lockstep.Consume(p, xs[0].byte), xs[1..], ys);
    }
  }

  /** Entering a state that awaits an ack writes a byte that the twin of the old state acks. */
  lemma CommandGetsAck(p: Process<MasterState>, e: Event)
    requires p.Running? && MasterAwaits(MasterNext(p, e).next)
    ensures MasterAwaits(p) || WillAck(Twin(p), Protocols(MasterNext(p, e).sent))
  {
    var o := MasterNext(p, e);
    if !MasterAwaits(p) {
      assert |o.sent| == 1;
      assert Protocols(o.sent) == [Cell(o.sent[0], Protocol)];
      assert AcksOn(Twin(p), o.sent[0]);
    }
  }

  lemma MasterKeepsAck(s: System, e: Event, t: System)
    requires s.master.Running? && Lockstep.InLockstep(s) && AckComing(s)
    requires var o := MasterNext(s.master, e);
             && t.master == o.next && t.remote == s.remote && t.forward == s.forward + Protocols(o.sent)
             && (ACK in s.reverse ==> ACK in t.reverse)
    ensures AckComing(t)
  {
    var o := MasterNext(s.master, e);
    WillAckAppend(s.remote, s.forward, Protocols(o.sent));
    if MasterAwaits(o.next) {
      CommandGetsAck(s.master, e);
    }
  }

  lemma AckLeaves(p: Process<MasterState>)
    requires p.Running?
    ensures !MasterAwaits(MasterNext(p, RemoteAck).next)
  {
  }

  lemma ReadReverseKeepsAck(s: System, reader: Reader)
    requires CanReadReverse(s) && Lockstep.InLockstep(s) && AckComing(s)
    ensures AckComing(ReadReverse(s, reader))
  {
    var x, t := s.reverse[0], ReadReverse(s, reader);
    if x == ACK {
      AckLeaves(s.master);
      assert MasterHears(s.master, x, reader) == Some(RemoteAck);
    } else {
      assert ACK in s.reverse ==> ACK in t.reverse;
      match MasterHears(s.master, x, reader) {
        case None => assert t.forward == s.forward;
        case Some(e) => MasterKeepsAck(s, e, t);
      }
    }
  }

  /** Reading a byte that the remote acks writes that ack, whoever reads it. */
  lemma AckIsWritten(p: Process<RemoteState>, b: Byte, reader: Reader)
    requires AcksOn(p, b)
    ensures ACK in RemoteTurn(p, b, reader).writes
  {
    var sent := RemoteNext(p, Decode(b).value).sent;
    assert sent == [REMOTE_ACK];
    assert Ones(sent) == [ACK];
  }

  lemma ReadForwardKeepsAck(s: System, reader: Reader)
    requires CanReadForward(s) && AckComing(s)
    ensures AckComing(ReadForward(s, reader))
  {
    Lockstep.ReadIsConsume(s, reader);
    if AcksOn(s.remote, s.forward[0].byte) {
      AckIsWritten(s.remote, s.forward[0].byte, reader);
    }
  }

  lemma StepKeepsAck(s: System, l: Label)
    requires Lossless(l) && Lockstep.InLockstep(s) && AckComing(s)
    ensures AckComing(Step(s, l))
  {
    match l
    case Local(e) => if s.master.Running? { MasterKeepsAck(s, e, Step(s, l)); }
    case RemoteTimer =>
      if s.remote.Running? {
        Lockstep.TimeoutKeepsRemote(s.remote);
        assert s.reverse <= Step(s, l).reverse;
      }
    case SendPayload(b) => if MaySend(s.master, b) { assert !MasterAwaits(s.master); }
    case DeliverForward(reader) => if CanReadForward(s) { ReadForwardKeepsAck(s, reader); }
    case DeliverReverse(reader) => if CanReadReverse(s) { ReadReverseKeepsAck(s, reader); }
    case RepeatReverse(i) => AckKept(s.reverse, i, ACK);
    case InventReverse(i, reply) => AckKept(s.reverse, i, reply);
  }

  lemma AckKept(q: seq<Reply>, i: nat, x: Reply)
    ensures ACK in q ==> ACK in RepeatAt(q, i) && ACK in InsertAt(q, i, x)
  {
    if ACK in q {
      var k :| 0 <= k < |q| && q[k] == ACK;
      if i < |q| {
        assert RepeatAt(q, i)[if k <= i then k else k + 1] == ACK;
      }
      if i <= |q| {
        assert InsertAt(q, i, x)[if k < i then k else k + 1] == ACK;
      }
    }
  }

  lemma {:induction false} LosslessRunsKeep(s: System, ls: seq<Label>)
    requires Lockstep.InLockstep(s) && Lockstep.PayloadPlaced(s) && AckComing(s)
    requires forall l :: l in ls ==> Lossless(l)
    ensures Lockstep.InLockstep(Exec(s, ls)) && Lockstep.PayloadPlaced(Exec(s, ls)) && AckComing(Exec(s, ls))
    decreases |ls|
  {
    if ls != [] {
      assert Lossless(ls[0]);
      Lockstep.StepKeeps(s, ls[0]);
      StepKeepsAck(s, ls[0]);
      LosslessRunsKeep(Step(s, ls[0]), ls[1..]);
    }
  }

  /** The pairs in which nothing is owed to anyone. */
  predicate RestingPair(s: System) {
    || (s.master == Running(Idle) && s.remote == Running(RemoteIdle))
    || (s.master == Running(AvailabilityMode) && s.remote == Running(RemoteAvailabilityMode))
    || (s.master == Running(ThroughputMode) && s.remote == Running(RemoteThroughputMode))
    || (s.master == Exited && s.remote == Exited)
  }

  lemma {:induction false} ExitedStays(cells: seq<Cell>)
    ensures Lockstep.After(Exited, cells) == Exited
    decreases |cells|
  {
    if cells != [] {
      ExitedStays(cells[1..]);
    }
  }

  lemma RestIsMatched(s: System)
    requires Lockstep.InLockstep(s) && AckComing(s) && AtRest(s)
    ensures RestingPair(s)
  {
    if s.remote.Exited? {
      ExitedStays(s.forward);
    }
  }

  /** Any lossless run from start-up, followed by deliveries alone, in any order and each to either
      reader: they end soon, and once none is left the machines are in a resting pair. */
  lemma ComesToRest(ls: seq<Label>, ds: seq<Label>)
    requires forall l :: l in ls ==> Lossless(l)
    requires OnlyDeliveries(Exec(INITIAL, ls), ds)
    ensures var s := Exec(INITIAL, ls);
            && |ds| <= Energy(s)
            && (AtRest(Exec(s, ds)) ==> RestingPair(Exec(s, ds)))
  {
    var s := Exec(INITIAL, ls);
    LosslessRunsKeep(INITIAL, ls);
    NoAckStorm(s, ds);
    DeliveriesAreLossless(s, ds);
    LosslessRunsKeep(s, ds);
    if AtRest(Exec(s, ds)) {
      RestIsMatched(Exec(s, ds));
    }
  }

  lemma {:induction false} DeliveriesAreLossless(s: System, ds: seq<Label>)
    requires OnlyDeliveries(s, ds)
    ensures forall d :: d in ds ==> Lossless(d)
    decreases |ds|
  {
    if ds != [] {
      DeliveriesAreLossless(Step(s, ds[0]), ds[1..]);
    }
  }

  /** With nothing in flight on lossless lines, the machines are in a resting pair. */
  lemma EmptyQueuesAreSettled(ls: seq<Label>)
    requires forall l :: l in ls ==> Lossless(l)
    ensures var s := Exec(INITIAL, ls);
            s.forward == [] && s.reverse == [] ==> RestingPair(s)
  {
    LosslessRunsKeep(INITIAL, ls);
    if Exec(INITIAL, ls).forward == [] && Exec(INITIAL, ls).reverse == [] {
      RestIsMatched(Exec(INITIAL, ls));
    }
  }
}
