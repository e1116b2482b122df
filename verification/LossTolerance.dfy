/**
 Both lines may lose or repeat any byte and timers may fire at will. If a local
 event moves the master only when the handshake has settled, the remote is never
 more than one phase behind the master; and that gate is exactly what is needed.
 */
module LossTolerance {
  import opened Events
  import opened Machines
  import opened MasterFsm
  import opened RemoteFsm
  import opened Handshake

  // ----- The phases -----

  /** The remote's state before it has seen the bytes the master wrote on entering m. */
  predicate Behind(m: MasterState, r: RemoteState) {
    match m
    case Idle => r == EndModeReceived
    case SentAvailableModeCommand => r == RemoteIdle
    case SentThroughputModeCommand => r == RemoteIdle
    case AvailabilityMode => r == AvailabilityCommandReceived
    case ThroughputMode => r == ThroughputCommandReceived
    case WaitAckAfterEndMode => r == RemoteAvailabilityMode || r == RemoteThroughputMode
  }

  /** Bytes the master writes in m, on entering m, or on an ack that keeps it in m. */
  predicate New(m: MasterState, b: Byte) {
    match m
    case Idle => b == MASTER_ACK
    case SentAvailableModeCommand => b == AVAILABILITY_MODE_COMMAND
    case SentThroughputModeCommand => b == THROUGHPUT_MODE_COMMAND
    case AvailabilityMode => b == MASTER_ACK || IsPayload(b)
    case ThroughputMode => b == MASTER_ACK || IsPayload(b)
    case WaitAckAfterEndMode => b == END_MODE_COMMAND
  }

  /** Bytes still queued from the phase before m. */
  predicate Old(m: MasterState, b: Byte) {
    match m
    case Idle => b == END_MODE_COMMAND
    case SentAvailableModeCommand => b == MASTER_ACK
    case SentThroughputModeCommand => b == MASTER_ACK
    case AvailabilityMode => b == AVAILABILITY_MODE_COMMAND
    case ThroughputMode => b == THROUGHPUT_MODE_COMMAND
    case WaitAckAfterEndMode => b == MASTER_ACK || IsPayload(b)
  }

  /** What an honest remote puts on the reverse line. */
  predicate Honest(reply: Reply) {
    reply == Result || (reply.One? && (IsPayload(reply.byte) || reply.byte == REMOTE_ACK))
  }

  /** Old bytes first, then new ones. */
  ghost predicate OldThenNew(m: MasterState, q: seq<Cell>) {
    && (forall i :: 0 <= i < |q| ==> Old(m, q[i].byte) || New(m, q[i].byte))
    && (forall i, j :: 0 <= i < j < |q| && New(m, q[i].byte) ==> New(m, q[j].byte))
  }

  ghost predicate AllNew(m: MasterState, q: seq<Cell>) {
    forall i :: 0 <= i < |q| ==> New(m, q[i].byte)
  }

  ghost predicate InPhase(m: MasterState, r: RemoteState, forward: seq<Cell>, reverse: seq<Reply>) {
    && (forall x :: x in reverse ==> Honest(x))
    && (|| (r == TwinState(m) && AllNew(m, forward))
        || (Behind(m, r) && OldThenNew(m, forward) && (AwaitsAck(m) ==> ACK !in reverse)))
  }

  ghost predicate Inv(s: System) {
    s.master.Running? ==> s.remote.Running? && InPhase(s.master.state, s.remote.state, s.forward, s.reverse)
  }

  /** The claim: while the master runs, so does the remote, in the same phase or one behind. */
  predicate OnePhaseBehind(s: System) {
    s.master.Running? ==>
      s.remote.Running? && (s.remote == Twin(s.master) || Behind(s.master.state, s.remote.state))
  }

  // ----- The gate -----

  /** The remote has reached the master's phase and no ack is on its way. */
  predicate Settled(s: System) {
    s.remote == Twin(s.master) && ACK !in s.reverse
  }

  /** Local events that move the master wait until the handshake has settled; timeouts never wait. */
  predicate Admitted(s: System, l: Label) {
    match l
    case Local(e) => e == Timeout || MasterNext(s.master, e).next == s.master || e == EndTest || Settled(s)
    case InventReverse(_, _) => false
    case _ => true
  }

  /** The gate holds back local commands only: lines, timers, readers and activities do as they please. */
  lemma GateIsForCommands(s: System, l: Label)
    ensures !l.Local? ==> (Admitted(s, l) <==> !l.InventReverse?)
    ensures l.Local? && !Admitted(s, l) ==>
              !Settled(s) && l.event in {AvailabilityModeCommand, ThroughputModeCommand, EndModeCommand, RemoteAck}
  {
  }

  predicate Gated(s: System, ls: seq<Label>)
    decreases |ls|
  {
    ls == [] || (Admitted(s, ls[0]) && Gated(Step(s, ls[0]), ls[1..]))
  }

  // ----- Queues -----

  lemma DropKeeps(m: MasterState, q: seq<Cell>, i: nat)
    ensures AllNew(m, q) ==> AllNew(m, DropAt(q, i))
    ensures OldThenNew(m, q) ==> OldThenNew(m, DropAt(q, i))
  {
    var d := DropAt(q, i);
    assert forall k :: 0 <= k < |d| ==> d[k] == if k < i || i >= |q| then q[k] else q[k + 1];
  }

  lemma RepeatKeeps(m: MasterState, q: seq<Cell>, i: nat)
    ensures AllNew(m, q) ==> AllNew(m, RepeatAt(q, i))
    ensures OldThenNew(m, q) ==> OldThenNew(m, RepeatAt(q, i))
  {
    var d := RepeatAt(q, i);
    assert forall k :: 0 <= k < |d| ==> d[k] == if k <= i || i >= |q| then q[k] else q[k - 1];
  }

  lemma AppendNew(m: MasterState, q: seq<Cell>, c: Cell)
    requires New(m, c.byte)
    ensures AllNew(m, q) ==> AllNew(m, q + [c])
    ensures OldThenNew(m, q) ==> OldThenNew(m, q + [c])
  {
  }

  /** When the master moves on, everything new becomes old. */
  lemma NewBecomesOld(m: MasterState, next: MasterState, q: seq<Cell>, c: Cell)
    requires AllNew(m, q) && New(next, c.byte)
    requires forall b: Byte :: New(m, b) ==> Old(next, b) && !New(next, b)
    ensures OldThenNew(next, q + [c])
  {
  }

  lemma TailKeeps(m: MasterState, q: seq<Cell>)
    requires q != []
    ensures AllNew(m, q) ==> AllNew(m, q[1..])
    ensures OldThenNew(m, q) ==> OldThenNew(m, q[1..])
    ensures OldThenNew(m, q) && New(m, q[0].byte) ==> AllNew(m, q)
  {
    if OldThenNew(m, q) && New(m, q[0].byte) {
      forall i | 0 <= i < |q| ensures New(m, q[i].byte) {
        assert i == 0 || 0 < i;
      }
    }
  }

  // ----- Steps of the master -----

  /** An ack, or any admitted local event, moves the master to the next phase or keeps it. */
  lemma MasterKeeps(s: System, e: Event, t: System)
    requires s.master.Running? && Inv(s)
    requires e == RemoteAck || e == Timeout || MasterNext(s.master, e).next == s.master || Settled(s)
    requires e == RemoteAck ==> s.remote == Twin(s.master) || !AwaitsAck(s.master.state)
    requires var o := MasterNext(s.master, e);
             && t.master == o.next && t.remote == s.remote
             && t.forward == s.forward + Protocols(o.sent) && t.reverse == s.reverse
    ensures Inv(t)
  {
    var m := s.master.state;
    var o := MasterNext(s.master, e);
    if e != EndTest {
      match MASTER.react(m, e)
      case Ignore =>
        assert s.forward + Protocols(o.sent) == s.forward;
      case Transit(before, next) =>
        assert |o.sent| == 1;
        var c := Cell(o.sent[0], Protocol);
        assert Protocols(o.sent) == [c];
        assert New(next, c.byte);
        if next == m {
          AppendNew(m, s.forward, c);
        } else {
          assert forall b: Byte :: New(m, b) ==> Old(next, b) && !New(next, b);
          NewBecomesOld(m, next, s.forward, c);
          assert Behind(next, s.remote.state);
        }
    }
  }

  // ----- Steps of the remote -----

  /** A byte read by the remote: old bytes leave it behind, the first new one catches up. */
  lemma RemoteReads(m: MasterState, r: RemoteState, b: Byte, reader: Reader)
    requires (r == TwinState(m) && New(m, b)) || (Behind(m, r) && (Old(m, b) || New(m, b)))
    ensures var turn := RemoteTurn(Running(r), b, reader);
            && turn.next.Running?
            && (turn.next.state == TwinState(m) || (turn.next.state == r && Behind(m, r)))
            && (turn.next.state == TwinState(m) && r != TwinState(m) ==> New(m, b))
            && (forall x :: x in turn.writes ==> Honest(x))
            && (AwaitsAck(m) && ACK in turn.writes ==> turn.next.state == TwinState(m))
  {
  }

  lemma ReadForwardKeeps(s: System, reader: Reader)
    requires Inv(s) && CanReadForward(s)
    ensures Inv(ReadForward(s, reader))
  {
    if s.master.Running? {
      var m, r, c := s.master.state, s.remote.state, s.forward[0];
      TailKeeps(m, s.forward);
      RemoteReads(m, r, c.byte, reader);
    }
  }

  lemma RemoteTimerKeeps(s: System)
    requires Inv(s)
    ensures Inv(Step(s, RemoteTimer))
  {
    if s.master.Running? {
      var sent := RemoteNext(s.remote, Timeout).sent;
      assert sent == [] ==> Ones(sent) == [];
      assert sent != [] ==> Ones(sent) == [ACK];
    }
  }

  lemma ReadReverseKeeps(s: System, reader: Reader)
    requires Inv(s) && CanReadReverse(s)
    ensures Inv(ReadReverse(s, reader))
  {
    var x, t := s.reverse[0], ReadReverse(s, reader);
    assert Honest(x);
    var taken := s.(reverse := s.reverse[1..]);
    assert Inv(taken);
    if x == ACK {
      MasterKeeps(taken, RemoteAck, t);
    } else {
      assert t.forward == s.forward;
    }
  }

  // ----- Every step and every run -----

  lemma StepKeeps(s: System, l: Label)
    requires Inv(s) && Admitted(s, l)
    ensures Inv(Step(s, l))
  {
    match l
    case Local(e) =>
      if s.master.Running? && e != EndTest {
        MasterKeeps(s, e, Step(s, l));
      }
    case RemoteTimer => RemoteTimerKeeps(s);
    case SendPayload(b) =>
      if MaySend(s.master, b) {
        AppendNew(s.master.state, s.forward, Cell(b, OriginOf(s.master, b)));
      }
    case DeliverForward(reader) => if CanReadForward(s) { ReadForwardKeeps(s, reader); }
    case DeliverReverse(reader) => if CanReadReverse(s) { ReadReverseKeeps(s, reader); }
    case DropForward(i) => if s.master.Running? { DropKeeps(s.master.state, s.forward, i); }
    case RepeatForward(i) => if s.master.Running? { RepeatKeeps(s.master.state, s.forward, i); }
    case DropReverse(i) =>
    case RepeatReverse(i) =>
  }

  lemma {:induction false} GatedRunsKeep(s: System, ls: seq<Label>)
    requires Inv(s) && Gated(s, ls)
    ensures Inv(Exec(s, ls)) && OnePhaseBehind(Exec(s, ls))
    decreases |ls|
  {
    if ls != [] {
      StepKeeps(s, ls[0]);
      GatedRunsKeep(Step(s, ls[0]), ls[1..]);
    }
  }

  /** Loss tolerance: in every gated run from start-up the remote is at most one phase behind. */
  lemma LossTolerant(ls: seq<Label>)
    requires Gated(INITIAL, ls)
    ensures OnePhaseBehind(Exec(INITIAL, ls))
  {
    GatedRunsKeep(INITIAL, ls);
  }
}
