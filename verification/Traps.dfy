/** Two states the protocol never leaves, each reached by a short run. */
module Traps {
  import opened Events
  import opened Machines
  import opened MasterFsm
  import opened RemoteFsm
  import opened Handshake
  import opened LossTolerance
  import Lockstep

  /** The master is in no mode and not leaving one. */
  predicate BeforeModes(p: Process<MasterState>) {
    p.Running? ==> p.state in {Idle, SentAvailableModeCommand, SentThroughputModeCommand}
  }

  /** Nobody forges an ack: not the reverse line, nor a local dispatch. */
  predicate NoForgedAck(l: Label) {
    !l.InventReverse? && l != Local(RemoteAck)
  }

  // ----- Wedged: the remote is still in a mode the master has left -----

  ghost predicate Wedged(s: System) {
    && s.master.Running? && BeforeModes(s.master)
    && RemoteActive(s.remote)
    && (forall c :: c in s.forward ==> c.byte != END_MODE_COMMAND && c.byte != END_TEST)
    && (forall x :: x in s.reverse ==> x != ACK && x != One(END_TEST))
  }

  lemma MembersKept<T>(q: seq<T>, i: nat)
    ensures forall x :: x in DropAt(q, i) || x in RepeatAt(q, i) ==> x in q
  {
  }

  lemma WedgedMaster(p: Process<MasterState>, e: Event)
    requires p.Running? && BeforeModes(p) && e != RemoteAck && e != EndTest
    ensures var o := MasterNext(p, e);
            o.next.Running? && BeforeModes(o.next)
            && (forall c :: c in Protocols(o.sent) ==> c.byte != END_MODE_COMMAND && c.byte != END_TEST)
  {
  }

  lemma WedgedRemote(p: Process<RemoteState>, b: Byte, reader: Reader)
    requires RemoteActive(p) && b != END_MODE_COMMAND && b != END_TEST
    ensures var turn := RemoteTurn(p, b, reader);
            turn.next == p && (forall x :: x in turn.writes ==> x != ACK && x != One(END_TEST))
  {
  }

  lemma WedgedReadsForward(s: System, reader: Reader)
    requires Wedged(s) && CanReadForward(s)
    ensures Wedged(ReadForward(s, reader))
  {
    assert s.forward[0] in s.forward;
    WedgedRemote(s.remote, s.forward[0].byte, reader);
    assert forall x :: x in s.forward[1..] ==> x in s.forward;
  }

  lemma WedgedReadsReverse(s: System, reader: Reader)
    requires Wedged(s) && CanReadReverse(s)
    ensures Wedged(ReadReverse(s, reader))
  {
    var x := s.reverse[0];
    assert x in s.reverse;
    assert forall y :: y in s.reverse[1..] ==> y in s.reverse;
    match MasterHears(s.master, x, reader)
    case None =>
    case Some(e) => WedgedMaster(s.master, e);
  }

  lemma WedgedStep(s: System, l: Label)
    requires Wedged(s) && NoForgedAck(l) && l != Local(EndTest)
    ensures Wedged(Step(s, l))
  {
    match l
    case Local(e) => WedgedMaster(s.master, e);
    case DeliverForward(reader) => if CanReadForward(s) { WedgedReadsForward(s, reader); }
    case DeliverReverse(reader) => if CanReadReverse(s) { WedgedReadsReverse(s, reader); }
    case RemoteTimer =>
      assert RemoteNext(s.remote, Timeout).sent == [] && Ones([]) == [];
      assert s.reverse + [] == s.reverse;
    case DropForward(i) => MembersKept(s.forward, i);
    case RepeatForward(i) => MembersKept(s.forward, i);
    case DropReverse(i) => MembersKept(s.reverse, i);
    case RepeatReverse(i) => MembersKept(s.reverse, i);
    case _ =>
  }

  /** Once the master is idle while the remote is in a mode, no test can start again,
      even on perfect lines, until the process is ended. */
  lemma {:induction false} WedgedForever(s: System, ls: seq<Label>)
    requires Wedged(s)
    requires forall l :: l in ls ==> NoForgedAck(l) && l != Local(EndTest)
    ensures Wedged(Exec(s, ls))
    decreases |ls|
  {
    if ls != [] {
      WedgedStep(s, ls[0]);
      WedgedForever(Step(s, ls[0]), ls[1..]);
    }
  }

  const DELIVER := DeliverForward(StateReader)
  const REPLY := DeliverReverse(StateReader)
  const MACK := Cell(MASTER_ACK, Protocol)
  const COMMAND := Cell(AVAILABILITY_MODE_COMMAND, Protocol)
  const END_COMMAND := Cell(END_MODE_COMMAND, Protocol)

  /** Into the handshake: command, delivery, ack. */
  const S1 := System(Running(SentAvailableModeCommand), Running(RemoteIdle), [COMMAND], [], true, true)
  const S2 := System(Running(SentAvailableModeCommand), Running(AvailabilityCommandReceived), [], [ACK], true, true)
  const S3 := System(Running(AvailabilityMode), Running(AvailabilityCommandReceived), [MACK], [], true, true)

  /** The MasterAck is lost and EndMode is commanded before the gate opens. */
  const W4 := System(Running(AvailabilityMode), Running(AvailabilityCommandReceived), [], [], true, true)
  const W5 := System(Running(WaitAckAfterEndMode), Running(AvailabilityCommandReceived), [END_COMMAND], [], true, true)
  const W6 := System(Running(WaitAckAfterEndMode), Running(AvailabilityCommandReceived), [], [], true, false)
  const W7 := System(Running(WaitAckAfterEndMode), Running(AvailabilityCommandReceived), [], [ACK], true, true)
  const W8 := System(Running(Idle), Running(AvailabilityCommandReceived), [MACK], [], true, true)
  const W9 := System(Running(Idle), Running(RemoteAvailabilityMode), [], [], true, true)

  const WEDGING: seq<Label> :=
    [Local(AvailabilityModeCommand), DELIVER, REPLY,
     DropForward(0), Local(EndModeCommand), DELIVER, RemoteTimer, REPLY, DELIVER]

  /** One move of a concrete run; `gated` says whether the gate admits it. */
  ghost predicate Moves(s: System, l: Label, t: System, gated: bool) {
    Step(s, l) == t && Honours(s, l) && (gated ==> Admitted(s, l))
  }

  lemma IntoHandshake()
    ensures Moves(INITIAL, Local(AvailabilityModeCommand), S1, true)
    ensures Moves(S1, DELIVER, S2, true) && Moves(S2, REPLY, S3, true)
  {
  }

  lemma Wedging()
    ensures Moves(S3, DropForward(0), W4, true) && Moves(W4, Local(EndModeCommand), W5, false)
    ensures Moves(W5, DELIVER, W6, true)
    ensures Moves(W6, RemoteTimer, W7, true) && Moves(W7, REPLY, W8, true) && Moves(W8, DELIVER, W9, true)
  {
  }

  lemma Prepend(s: System, l: Label, t: System, rest: seq<Label>, gated: bool)
    requires Moves(s, l, t, gated) && HonouredRun(t, rest) && (gated ==> Gated(t, rest))
    ensures Exec(s, [l] + rest) == Exec(t, rest) && HonouredRun(s, [l] + rest) && (gated ==> Gated(s, [l] + rest))
  {
    assert ([l] + rest)[1..] == rest;
  }

  lemma WedgeIsReachable()
    ensures HonouredRun(INITIAL, WEDGING) && Exec(INITIAL, WEDGING) == W9
    ensures Wedged(W9) && !OnePhaseBehind(W9)
  {
    IntoHandshake();
    Wedging();
    Prepend(W8, DELIVER, W9, [], false);
    Prepend(W7, REPLY, W8, [DELIVER], false);
    Prepend(W6, RemoteTimer, W7, [REPLY, DELIVER], false);
    Prepend(W5, DELIVER, W6, [RemoteTimer, REPLY, DELIVER], false);
    Prepend(W4, Local(EndModeCommand), W5, [DELIVER, RemoteTimer, REPLY, DELIVER], false);
    Prepend(S3, DropForward(0), W4, [Local(EndModeCommand), DELIVER, RemoteTimer, REPLY, DELIVER], false);
    Prepend(S2, REPLY, S3, [DropForward(0), Local(EndModeCommand), DELIVER, RemoteTimer, REPLY, DELIVER], false);
    Prepend(S1, DELIVER, S2,
            [REPLY, DropForward(0), Local(EndModeCommand), DELIVER, RemoteTimer, REPLY, DELIVER], false);
    Prepend(INITIAL, Local(AvailabilityModeCommand), S1,
            [DELIVER, REPLY, DropForward(0), Local(EndModeCommand), DELIVER, RemoteTimer, REPLY, DELIVER], false);
  }

  // ----- Deaf: the remote idles with no read outstanding -----

  predicate Deaf(s: System) {
    s.remote == Running(RemoteIdle) && !s.remoteArmed
  }

  /** The bytes that move a remote on from RemoteIdle. */
  predicate WakesIdle(b: Byte) {
    b in {AVAILABILITY_MODE_COMMAND, THROUGHPUT_MODE_COMMAND, END_TEST}
  }

  /** Of all steps only one kind deafens: reading, in RemoteIdle, a byte that causes no transition.
      It posts no new read, and RemoteIdle has no timer to recover. */
  lemma DeafenedExactlyBy(s: System, l: Label)
    requires !Deaf(s)
    ensures Deaf(Step(s, l)) <==>
            && l.DeliverForward? && CanReadForward(s)
            && s.remote == Running(RemoteIdle) && !WakesIdle(s.forward[0].byte)
  {
  }

  lemma DeafStep(s: System, l: Label)
    requires Deaf(s) && Honours(s, l)
    ensures Deaf(Step(s, l))
    ensures BeforeModes(s.master) && ACK !in s.reverse && NoForgedAck(l) ==>
              BeforeModes(Step(s, l).master) && ACK !in Step(s, l).reverse
  {
    match l
    case DeliverReverse(reader) =>
      if CanReadReverse(s) {
        assert s.reverse[0] in s.reverse;
      }
    case _ =>
  }

  /** A deaf remote stays deaf, and the master never gets into a mode again. */
  lemma {:induction false} DeafForever(s: System, ls: seq<Label>)
    requires Deaf(s) && HonouredRun(s, ls)
    ensures Deaf(Exec(s, ls))
    ensures BeforeModes(s.master) && ACK !in s.reverse && (forall l :: l in ls ==> NoForgedAck(l)) ==>
              BeforeModes(Exec(s, ls).master)
    decreases |ls|
  {
    if ls != [] {
      DeafStep(s, ls[0]);
      DeafForever(Step(s, ls[0]), ls[1..]);
    }
  }

  /** The mode is entered, left again, and the remote's timer fires once before its ack is answered. */
  const F4 := System(Running(AvailabilityMode), Running(RemoteAvailabilityMode), [], [], true, true)
  const F5 := System(Running(WaitAckAfterEndMode), Running(RemoteAvailabilityMode), [END_COMMAND], [], true, true)
  const F6 := System(Running(WaitAckAfterEndMode), Running(EndModeReceived), [], [ACK], true, true)
  const F7 := System(Running(WaitAckAfterEndMode), Running(EndModeReceived), [], [ACK, ACK], true, true)
  const F8 := System(Running(Idle), Running(EndModeReceived), [MACK], [ACK], true, true)
  const F9 := System(Running(Idle), Running(EndModeReceived), [MACK, MACK], [], true, true)
  const F10 := System(Running(Idle), Running(RemoteIdle), [MACK], [], true, true)
  const F11 := System(Running(Idle), Running(RemoteIdle), [], [], true, false)

  const DEAFENING: seq<Label> :=
    [Local(AvailabilityModeCommand), DELIVER, REPLY, DELIVER,
     Local(EndModeCommand), DELIVER, RemoteTimer, REPLY, REPLY, DELIVER, DELIVER]

  lemma LeavingMode()
    ensures Moves(S3, DELIVER, F4, true) && Moves(F4, Local(EndModeCommand), F5, true) && Moves(F5, DELIVER, F6, true)
    ensures Moves(F6, RemoteTimer, F7, true)
  {
  }

  lemma AcksAnswered()
    ensures Moves(F7, REPLY, F8, true) && Moves(F8, REPLY, F9, true)
    ensures Moves(F9, DELIVER, F10, true) && Moves(F10, DELIVER, F11, true)
  {
  }

  const LEAVE_AND_REPEAT: seq<Label> :=
    [DELIVER, Local(EndModeCommand), DELIVER, RemoteTimer, REPLY, REPLY, DELIVER, DELIVER]

  lemma Deafening()
    ensures Gated(F6, [RemoteTimer, REPLY, REPLY, DELIVER, DELIVER])
    ensures HonouredRun(F6, [RemoteTimer, REPLY, REPLY, DELIVER, DELIVER])
    ensures Exec(F6, [RemoteTimer, REPLY, REPLY, DELIVER, DELIVER]) == F11
  {
    LeavingMode();
    AcksAnswered();
    Prepend(F10, DELIVER, F11, [], true);
    Prepend(F9, DELIVER, F10, [DELIVER], true);
    Prepend(F8, REPLY, F9, [DELIVER, DELIVER], true);
    Prepend(F7, REPLY, F8, [REPLY, DELIVER, DELIVER], true);
    Prepend(F6, RemoteTimer, F7, [REPLY, REPLY, DELIVER, DELIVER], true);
  }

  lemma DeafeningFromMode()
    ensures Gated(S3, LEAVE_AND_REPEAT) && HonouredRun(S3, LEAVE_AND_REPEAT) && Exec(S3, LEAVE_AND_REPEAT) == F11
  {
    Deafening();
    LeavingMode();
    var tail := [RemoteTimer, REPLY, REPLY, DELIVER, DELIVER];
    Prepend(F5, DELIVER, F6, tail, true);
    Prepend(F4, Local(EndModeCommand), F5, [DELIVER] + tail, true);
    Prepend(S3, DELIVER, F4, [Local(EndModeCommand)] + ([DELIVER] + tail), true);
    assert LEAVE_AND_REPEAT == [DELIVER] + ([Local(EndModeCommand)] + ([DELIVER] + tail));
  }

  /** A gated run in which every read was posted, and a single timer fires before its ack is answered. */
  lemma DeafnessIsReachable()
    ensures Gated(INITIAL, DEAFENING) && HonouredRun(INITIAL, DEAFENING)
    ensures Exec(INITIAL, DEAFENING) == F11 && Deaf(F11)
  {
    IntoHandshake();
    DeafeningFromMode();
    Prepend(S2, REPLY, S3, LEAVE_AND_REPEAT, true);
    Prepend(S1, DELIVER, S2, [REPLY] + LEAVE_AND_REPEAT, true);
    Prepend(INITIAL, Local(AvailabilityModeCommand), S1, [DELIVER] + ([REPLY] + LEAVE_AND_REPEAT), true);
    assert DEAFENING == [Local(AvailabilityModeCommand)] + ([DELIVER] + ([REPLY] + LEAVE_AND_REPEAT));
  }

  /** The run that deafens the remote loses, repeats and forges nothing. */
  lemma DeafeningIsFaithful(l: Label)
    requires l in DEAFENING
    ensures Lockstep.ForwardFaithful(l) && !l.DropReverse? && !l.RepeatReverse? && NoForgedAck(l)
  {
  }
}
