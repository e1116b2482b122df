/**
 The throughput test ends its own mode: once it has read a result, MasterThroughput
 dispatches EndModeCommand (src/master/MasterThroughput.cpp:62-68). Reading a result is
 as good as the gate, unless the mode was commanded while a result of an earlier test
 stood behind an ack on its way to the master.
 */
module ResultGate {
  import opened Events
  import opened Machines
  import opened MasterFsm
  import opened RemoteFsm
  import opened Handshake
  import opened LossTolerance
  import Traps

  // ----- One stay in throughput mode, from its command to its end -----

  ghost predicate ResultsFirst(q: seq<Reply>) {
    forall i, j :: 0 <= i < j < |q| && q[j] == Result ==> q[i] != ACK
  }

  ghost predicate AcksFirst(q: seq<Reply>) {
    forall i, j :: 0 <= i < j < |q| && q[i] == Result ==> q[j] != ACK
  }

  ghost predicate StaleBehindAck(q: seq<Reply>) {
    exists i, j :: 0 <= i < j < |q| && q[i] == ACK && q[j] == Result
  }

  /**
   The forward line of a test: p bytes from before it, then its commands, then its MasterAcks and
   payload. The remote leaves its old states by reading, and is in the mode only once all older bytes are gone.
   */
  ghost predicate TestLine(m: MasterState, r: RemoteState, q: seq<Cell>, p: nat) {
    && p <= |q|
    && (forall i :: 0 <= i < p ==> q[i].byte == END_MODE_COMMAND || q[i].byte == MASTER_ACK)
    && (forall i :: p <= i < |q| ==> q[i].byte == THROUGHPUT_MODE_COMMAND || New(ThroughputMode, q[i].byte))
    && (forall i, j :: p <= i < j < |q| && New(ThroughputMode, q[i].byte) ==> New(ThroughputMode, q[j].byte))
    && (m == SentThroughputModeCommand ==> forall i :: p <= i < |q| ==> q[i].byte == THROUGHPUT_MODE_COMMAND)
    && match r
       case RemoteIdle => true
       case EndModeReceived => true
       case ThroughputCommandReceived => p == 0
       case RemoteThroughputMode => p == 0 && m == ThroughputMode && AllNew(ThroughputMode, q)
       case _ => false
  }

  /** Before the mode every result stands before every ack; in it, every ack before every result. */
  ghost predicate Replies(m: MasterState, r: RemoteState, q: seq<Reply>) {
    && (forall x :: x in q ==> Honest(x))
    && (if m == SentThroughputModeCommand then ResultsFirst(q)
        else AcksFirst(q) && (Result in q ==> r == RemoteThroughputMode))
  }

  predicate InTest(p: Process<MasterState>) {
    p == Running(SentThroughputModeCommand) || p == Running(ThroughputMode)
  }

  ghost predicate Test(s: System) {
    && InTest(s.master) && s.remote.Running?
    && Replies(s.master.state, s.remote.state, s.reverse)
    && exists p: nat :: TestLine(s.master.state, s.remote.state, s.forward, p)
  }

  /** Anything but the end of the mode, or an ack that did not come from the line. */
  predicate InsideTest(l: Label) {
    !l.InventReverse? && !(l.Local? && l.event in {EndModeCommand, RemoteAck})
  }

  // ----- The forward line -----

  lemma LineAppend(m: MasterState, next: MasterState, r: RemoteState, q: seq<Cell>, p: nat, c: Cell)
    requires TestLine(m, r, q, p)
    requires InTest(Running(next)) && (m == next || (m == SentThroughputModeCommand && next == ThroughputMode))
    requires next == SentThroughputModeCommand ==> c.byte == THROUGHPUT_MODE_COMMAND
    requires next == ThroughputMode ==> New(ThroughputMode, c.byte)
    ensures TestLine(next, r, q + [c], p)
  {
  }

  lemma LineDrop(m: MasterState, r: RemoteState, q: seq<Cell>, p: nat, i: nat)
    requires TestLine(m, r, q, p)
    ensures TestLine(m, r, DropAt(q, i), if i < p then p - 1 else p)
  {
    var d := DropAt(q, i);
    assert forall k :: 0 <= k < |d| ==> d[k] == if k < i || i >= |q| then q[k] else q[k + 1];
  }

  lemma LineRepeat(m: MasterState, r: RemoteState, q: seq<Cell>, p: nat, i: nat)
    requires TestLine(m, r, q, p)
    ensures TestLine(m, r, RepeatAt(q, i), if i < p then p + 1 else p)
  {
    var d := RepeatAt(q, i);
    assert forall k :: 0 <= k < |d| ==> d[k] == if k <= i || i >= |q| then q[k] else q[k - 1];
  }

  /** What the remote makes of the next byte of a test. */
  lemma TestByte(m: MasterState, r: RemoteState, b: Byte, before: bool, reader: Reader)
    requires InTest(Running(m))
    requires before ==> (b == END_MODE_COMMAND || b == MASTER_ACK) && (r == RemoteIdle || r == EndModeReceived)
    requires !before ==> b == THROUGHPUT_MODE_COMMAND || (m == ThroughputMode && New(ThroughputMode, b))
    requires r in {RemoteIdle, EndModeReceived, ThroughputCommandReceived, RemoteThroughputMode}
    requires r == RemoteThroughputMode ==> m == ThroughputMode && b != THROUGHPUT_MODE_COMMAND
    ensures var turn := RemoteTurn(Running(r), b, reader);
            && turn.next.Running? && |turn.writes| <= 1
            && turn.next.state in {RemoteIdle, EndModeReceived, ThroughputCommandReceived, RemoteThroughputMode}
            && (before ==> turn.next.state in {RemoteIdle, EndModeReceived})
            && (turn.next.state == ThroughputCommandReceived && r != ThroughputCommandReceived ==> !before)
            && (turn.next.state == RemoteThroughputMode ==>
                  r == RemoteThroughputMode || (r == ThroughputCommandReceived && b == MASTER_ACK))
            && (r == RemoteThroughputMode ==> turn.next.state == r)
            && (forall x :: x in turn.writes ==> Honest(x))
            && (ACK in turn.writes ==> r != RemoteThroughputMode)
            && (Result in turn.writes ==> r == RemoteThroughputMode)
  {
  }

  lemma LineTail(m: MasterState, r: RemoteState, q: seq<Cell>, p: nat, reader: Reader)
    requires InTest(Running(m)) && TestLine(m, r, q, p) && q != []
    ensures var turn := RemoteTurn(Running(r), q[0].byte, reader);
            turn.next.Running? && TestLine(m, turn.next.state, q[1..], if p > 0 then p - 1 else 0)
  {
    TestByte(m, r, q[0].byte, p > 0, reader);
  }

  // ----- The reverse line -----

  lemma RepliesAppend(m: MasterState, r: RemoteState, next: RemoteState, q: seq<Reply>, writes: seq<Reply>)
    requires Replies(m, r, q) && |writes| <= 1 && (forall x :: x in writes ==> Honest(x))
    requires ACK in writes ==> r != RemoteThroughputMode
    requires Result in writes ==> m == ThroughputMode && r == RemoteThroughputMode
    requires r == RemoteThroughputMode ==> next == r
    ensures Replies(m, next, q + writes)
  {
  }

  lemma RepliesTail(m: MasterState, r: RemoteState, q: seq<Reply>)
    requires Replies(m, r, q) && q != []
    ensures Replies(m, r, q[1..])
  {
  }

  lemma RepliesDrop(m: MasterState, r: RemoteState, q: seq<Reply>, i: nat)
    requires Replies(m, r, q)
    ensures Replies(m, r, DropAt(q, i))
  {
    var d := DropAt(q, i);
    assert forall k :: 0 <= k < |d| ==> d[k] == if k < i || i >= |q| then q[k] else q[k + 1];
  }

  lemma RepliesRepeat(m: MasterState, r: RemoteState, q: seq<Reply>, i: nat)
    requires Replies(m, r, q)
    ensures Replies(m, r, RepeatAt(q, i))
  {
    var d := RepeatAt(q, i);
    assert forall k :: 0 <= k < |d| ==> d[k] == if k <= i || i >= |q| then q[k] else q[k - 1];
  }

  // ----- Every step inside a test -----

  lemma TestReadsForward(s: System, reader: Reader)
    requires Test(s) && CanReadForward(s)
    ensures Test(ReadForward(s, reader))
  {
    var m, r, b := s.master.state, s.remote.state, s.forward[0].byte;
    var p: nat :| TestLine(m, r, s.forward, p);
    var turn := RemoteTurn(s.remote, b, reader);
    LineTail(m, r, s.forward, p, reader);
    TestByte(m, r, b, p > 0, reader);
    RepliesAppend(m, r, turn.next.state, s.reverse, turn.writes);
  }

  /** The ack that starts the mode leaves no result of an earlier test behind. */
  lemma TestReadsReverse(s: System, reader: Reader)
    requires Test(s) && CanReadReverse(s)
    ensures Test(ReadReverse(s, reader))
  {
    var m, r, x, t := s.master.state, s.remote.state, s.reverse[0], ReadReverse(s, reader);
    var p: nat :| TestLine(m, r, s.forward, p);
    RepliesTail(m, r, s.reverse);
    assert x in s.reverse && Honest(x);
    if x == ACK {
      LineAppend(m, ThroughputMode, r, s.forward, p, Cell(MASTER_ACK, Protocol));
      assert t.forward == s.forward + [Cell(MASTER_ACK, Protocol)] && t.master == Running(ThroughputMode);
    } else {
      assert t.forward == s.forward && t.master == s.master;
    }
  }

  lemma TestTimer(s: System)
    requires Test(s)
    ensures Test(Step(s, RemoteTimer))
  {
    var r, sent := s.remote.state, RemoteNext(s.remote, Timeout).sent;
    var p: nat :| TestLine(s.master.state, r, s.forward, p);
    assert sent == [] || (sent == [REMOTE_ACK] && r != RemoteThroughputMode);
    assert Ones([]) == [] && Ones([REMOTE_ACK]) == [ACK];
    RepliesAppend(s.master.state, r, r, s.reverse, Ones(sent));
  }

  lemma TestLocal(s: System, e: Event)
    requires Test(s) && e != RemoteAck && e != EndTest && MasterNext(s.master, e).next == s.master
    ensures Test(Step(s, Local(e)))
  {
    var m, sent := s.master.state, MasterNext(s.master, e).sent;
    var p: nat :| TestLine(m, s.remote.state, s.forward, p);
    assert sent == [] || (m == SentThroughputModeCommand && sent == [THROUGHPUT_MODE_COMMAND]);
    assert Protocols([]) == [] && s.forward + [] == s.forward;
    if sent != [] {
      assert Protocols(sent) == [Cell(THROUGHPUT_MODE_COMMAND, Protocol)];
      LineAppend(m, m, s.remote.state, s.forward, p, Cell(THROUGHPUT_MODE_COMMAND, Protocol));
    }
  }

  lemma TestStep(s: System, l: Label)
    requires Test(s) && InsideTest(l) && l != Local(EndTest)
    ensures Test(Step(s, l))
  {
    var m, r := s.master.state, s.remote.state;
    var p: nat :| TestLine(m, r, s.forward, p);
    match l
    case Local(e) => TestLocal(s, e);
    case RemoteTimer => TestTimer(s);
    case SendPayload(b) =>
      if MaySend(s.master, b) {
        LineAppend(m, m, r, s.forward, p, Cell(b, OriginOf(s.master, b)));
      }
    case DeliverForward(reader) => if CanReadForward(s) { TestReadsForward(s, reader); }
    case DeliverReverse(reader) => if CanReadReverse(s) { TestReadsReverse(s, reader); }
    case DropForward(i) => LineDrop(m, r, s.forward, p, i);
    case RepeatForward(i) => LineRepeat(m, r, s.forward, p, i);
    case DropReverse(i) => RepliesDrop(m, r, s.reverse, i);
    case RepeatReverse(i) => RepliesRepeat(m, r, s.reverse, i);
  }

  lemma {:induction false} TestKeeps(s: System, ls: seq<Label>)
    requires (Test(s) || s.master == Exited) && forall l :: l in ls ==> InsideTest(l)
    ensures Test(Exec(s, ls)) || Exec(s, ls).master == Exited
    decreases |ls|
  {
    if ls != [] {
      assert InsideTest(ls[0]);
      if s.master != Exited && ls[0] != Local(EndTest) {
        TestStep(s, ls[0]);
      }
      TestKeeps(Step(s, ls[0]), ls[1..]);
    }
  }

  // ----- What a result means -----

  /** The activity is about to read a result. */
  predicate ResultNext(s: System) {
    s.master == Running(ThroughputMode) && s.reverse != [] && s.reverse[0] == Result
  }

  /** Reading a result of a test settles the handshake. */
  lemma ResultSettles(s: System)
    requires Test(s) && ResultNext(s)
    ensures Settled(ReadReverse(s, ActivityReader))
  {
    assert s.reverse[0] in s.reverse;
    forall i | 0 <= i < |s.reverse[1..]|
      ensures s.reverse[1..][i] != ACK
    {
      assert s.reverse[1..][i] == s.reverse[i + 1];
    }
  }

  /** And it stays settled as long as the mode lasts. */
  lemma SettledLasts(s: System, l: Label)
    requires Test(s) && s.master == Running(ThroughputMode) && Settled(s) && InsideTest(l) && l != Local(EndTest)
    ensures Step(s, l).master == s.master && Settled(Step(s, l))
  {
    match l
    case RemoteTimer =>
      assert RemoteNext(s.remote, Timeout).sent == [] && Ones([]) == [] && s.reverse + [] == s.reverse;
    case DeliverForward(reader) =>
      if CanReadForward(s) {
        var p: nat :| TestLine(ThroughputMode, RemoteThroughputMode, s.forward, p);
        TestByte(ThroughputMode, RemoteThroughputMode, s.forward[0].byte, false, reader);
      }
    case DeliverReverse(reader) =>
      if CanReadReverse(s) {
        assert s.reverse[0] in s.reverse && Honest(s.reverse[0]);
      }
    case DropReverse(i) => Traps.MembersKept(s.reverse, i);
    case RepeatReverse(i) => Traps.MembersKept(s.reverse, i);
    case _ =>
  }

  // ----- Exactly when a result can be trusted -----

  lemma TestStarts(s: System)
    requires Inv(s) && s.master == Running(Idle) && !StaleBehindAck(s.reverse)
    ensures Test(Step(s, Local(ThroughputModeCommand)))
  {
    var t := Step(s, Local(ThroughputModeCommand));
    assert t.forward == s.forward + [Cell(THROUGHPUT_MODE_COMMAND, Protocol)];
    assert TestLine(SentThroughputModeCommand, t.remote.state, t.forward, |s.forward|);
  }

  ghost predicate TestRun(s: System, ls: seq<Label>) {
    HonouredRun(s, ls) && forall l :: l in ls ==> InsideTest(l)
  }

  lemma Lead(s: System, l: Label, rest: seq<Label>)
    requires Honours(s, l) && InsideTest(l) && TestRun(Step(s, l), rest)
    ensures TestRun(s, [l] + rest) && Exec(s, [l] + rest) == Exec(Step(s, l), rest)
  {
    assert ([l] + rest)[1..] == rest;
  }

  lemma {:induction false} ResultComesUp(s: System, j: nat) returns (ls: seq<Label>)
    requires s.master == Running(ThroughputMode) && j < |s.reverse| && s.reverse[j] == Result
    ensures TestRun(s, ls) && ResultNext(Exec(s, ls)) && Exec(s, ls).remote == s.remote
    decreases j
  {
    if j == 0 {
      ls := [];
    } else {
      var rest := ResultComesUp(Step(s, DropReverse(0)), j - 1);
      Lead(s, DropReverse(0), rest);
      ls := [DropReverse(0)] + rest;
    }
  }

  /** The stale ack starts the mode, and the result behind it is read. */
  lemma {:induction false} StaleComesUp(s: System, i: nat, j: nat) returns (ls: seq<Label>)
    requires s.master == Running(SentThroughputModeCommand) && s.masterArmed
    requires i < j < |s.reverse| && s.reverse[i] == ACK && s.reverse[j] == Result
    ensures TestRun(s, ls) && ResultNext(Exec(s, ls)) && Exec(s, ls).remote == s.remote
    decreases i
  {
    if i == 0 {
      var read := DeliverReverse(StateReader);
      var t := Step(s, read);
      assert t.reverse == s.reverse[1..] && t.reverse[j - 1] == Result;
      var rest := ResultComesUp(t, j - 1);
      Lead(s, read, rest);
      ls := [read] + rest;
    } else {
      var t := Step(s, DropReverse(0));
      assert t.reverse == s.reverse[1..];
      var rest := StaleComesUp(t, i - 1, j - 1);
      Lead(s, DropReverse(0), rest);
      ls := [DropReverse(0)] + rest;
    }
  }

  /**
   Exactly when a result opens the gate: after the throughput command, every result the test can read
   settles the handshake if and only if no result stood behind an ack when the command was issued.
   */
  lemma ResultOpensGateExactly(s: System)
    requires Inv(s) && s.master == Running(Idle)
    ensures var t := Step(s, Local(ThroughputModeCommand));
            !StaleBehindAck(s.reverse) <==>
            forall ls: seq<Label> :: TestRun(t, ls) && ResultNext(Exec(t, ls)) ==>
                                       Settled(ReadReverse(Exec(t, ls), ActivityReader))
  {
    var t := Step(s, Local(ThroughputModeCommand));
    if !StaleBehindAck(s.reverse) {
      TestStarts(s);
      forall ls: seq<Label> | TestRun(t, ls) && ResultNext(Exec(t, ls))
        ensures Settled(ReadReverse(Exec(t, ls), ActivityReader))
      {
        TestKeeps(t, ls);
        ResultSettles(Exec(t, ls));
      }
    } else {
      var i, j :| 0 <= i < j < |s.reverse| && s.reverse[i] == ACK && s.reverse[j] == Result;
      var ls := StaleComesUp(t, i, j);
      assert Exec(t, ls).remote == s.remote && s.remote.state in {RemoteIdle, EndModeReceived};
    }
  }

  // ----- The throughput test needs no other gate -----

  /** The activity has read a result during this stay in the mode. */
  predicate GotAfter(s: System, got: bool, l: Label) {
    && Step(s, l).master == Running(ThroughputMode)
    && (got || (l == DeliverReverse(ActivityReader) && ResultNext(s)))
  }

  /** In throughput mode the end is commanded when a result has been read; all else is as the gate demands. */
  predicate SelfAdmitted(s: System, got: bool, l: Label) {
    if l == Local(EndModeCommand) && s.master == Running(ThroughputMode) then got
    else Admitted(s, l) && l != Local(RemoteAck)
  }

  predicate SelfGated(s: System, got: bool, ls: seq<Label>)
    decreases |ls|
  {
    ls == [] || (SelfAdmitted(s, got, ls[0]) && SelfGated(Step(s, ls[0]), GotAfter(s, got, ls[0]), ls[1..]))
  }

  ghost predicate SelfInv(s: System, got: bool) {
    && Inv(s)
    && (InTest(s.master) ==> Test(s))
    && (got ==> s.master == Running(ThroughputMode) && Settled(s))
  }

  lemma SelfAdmits(s: System, got: bool, l: Label)
    requires SelfInv(s, got) && SelfAdmitted(s, got, l)
    ensures Admitted(s, l) && Inv(Step(s, l))
  {
    LossTolerance.StepKeeps(s, l);
  }

  lemma NoStaleWhenSettled(s: System)
    requires Settled(s)
    ensures !StaleBehindAck(s.reverse)
  {
  }

  /** No reply of an honest remote is a command. */
  lemma HonestStartsNone(s: System)
    requires Inv(s) && !InTest(s.master)
    ensures CanReadReverse(s) ==> forall reader: Reader :: !InTest(ReadReverse(s, reader).master)
  {
    if CanReadReverse(s) {
      assert s.reverse[0] in s.reverse && Honest(s.reverse[0]);
    }
  }

  /** A test is entered only from Idle, by its command. */
  lemma OnlyIdleStarts(s: System, l: Label)
    requires Inv(s) && !InTest(s.master) && InTest(Step(s, l).master) && SelfAdmitted(s, false, l)
    ensures s.master == Running(Idle) && l == Local(ThroughputModeCommand) && Settled(s)
  {
    HonestStartsNone(s);
  }

  lemma SelfStep(s: System, got: bool, l: Label)
    requires SelfInv(s, got) && SelfAdmitted(s, got, l)
    ensures SelfInv(Step(s, l), GotAfter(s, got, l))
  {
    SelfAdmits(s, got, l);
    var t := Step(s, l);
    if InTest(s.master) {
      if InTest(t.master) {
        if InsideTest(l) {
          TestStep(s, l);
        } else {
          TestLocal(s, EndModeCommand);
        }
        if got {
          SettledLasts(s, l);
        } else if GotAfter(s, got, l) {
          ResultSettles(s);
        }
      }
    } else if InTest(t.master) {
      OnlyIdleStarts(s, l);
      NoStaleWhenSettled(s);
      TestStarts(s);
    }
  }

  lemma {:induction false} SelfGatedIsGated(s: System, got: bool, ls: seq<Label>)
    requires SelfInv(s, got) && SelfGated(s, got, ls)
    ensures Gated(s, ls)
    decreases |ls|
  {
    if ls != [] {
      SelfAdmits(s, got, ls[0]);
      SelfStep(s, got, ls[0]);
      SelfGatedIsGated(Step(s, ls[0]), GotAfter(s, got, ls[0]), ls[1..]);
    }
  }

  /** If the other mode commands wait for the gate, the throughput test's own EndModeCommand does too. */
  lemma ThroughputGatesItself(ls: seq<Label>)
    requires SelfGated(INITIAL, false, ls)
    ensures Gated(INITIAL, ls) && OnePhaseBehind(Exec(INITIAL, ls))
  {
    SelfGatedIsGated(INITIAL, false, ls);
    LossTolerant(ls);
  }

  // ----- A run that leaves a result behind an ack -----

  const HEAR := DeliverForward(StateReader)
  const ANSWERED := DeliverReverse(StateReader)
  const MEASURE := DeliverForward(ActivityReader)

  /** In the mode, two repeated acks still on their way, then whatever the activity answered. */
  function Measuring(forward: seq<Cell>, results: seq<Reply>): System {
    System(Running(ThroughputMode), Running(RemoteThroughputMode), forward, [ACK, ACK] + results, true, true)
  }

  const COMMANDED := System(Running(SentThroughputModeCommand), Running(RemoteIdle),
                            [Cell(THROUGHPUT_MODE_COMMAND, Protocol)], [], true, true)

  function Acked(acks: seq<Reply>): System {
    System(Running(SentThroughputModeCommand), Running(ThroughputCommandReceived), [], acks, true, true)
  }

  const MODE_STARTED := System(Running(ThroughputMode), Running(ThroughputCommandReceived),
                               [Cell(MASTER_ACK, Protocol)], [ACK, ACK], true, true)
  const MODE_ENDED := System(Running(WaitAckAfterEndMode), Running(RemoteThroughputMode),
                             [Cell(END_MODE_COMMAND, Protocol)], [ACK, ACK, Result], true, true)
  const IDLE_EARLY := System(Running(Idle), Running(RemoteThroughputMode),
                             [Cell(END_MODE_COMMAND, Protocol), Cell(MASTER_ACK, Protocol)], [ACK, Result], true, true)
  const STALE := System(Running(Idle), Running(EndModeReceived),
                        [Cell(MASTER_ACK, Protocol)], [ACK, Result, ACK], true, true)

  lemma CommandAcked()
    ensures Traps.Moves(INITIAL, Local(ThroughputModeCommand), COMMANDED, false)
    ensures Traps.Moves(COMMANDED, HEAR, Acked([ACK]), false)
  {
  }

  lemma AckedAgain(acks: seq<Reply>)
    ensures Traps.Moves(Acked(acks), RemoteTimer, Acked(acks + [ACK]), false)
  {
  }

  lemma ModeStarts()
    ensures Traps.Moves(Acked([ACK, ACK, ACK]), ANSWERED, MODE_STARTED, false)
  {
    assert [ACK, ACK, ACK][1..] == [ACK, ACK];
  }

  lemma ModeStarted()
    ensures Traps.Moves(MODE_STARTED, HEAR, Measuring([], []), false)
  {
    assert [ACK, ACK] + [] == [ACK, ACK];
  }

  lemma Measures()
    ensures Traps.Moves(Measuring([], []), SendPayload(0), Measuring([Cell(0, Load)], []), false)
    ensures Traps.Moves(Measuring([Cell(0, Load)], []), MEASURE, Measuring([], []), false)
  {
    assert [ACK, ACK] + [] + [] == [ACK, ACK] + [];
  }

  lemma Requests()
    ensures var request := Cell(END_STANDARD_CODES, ResultRequest);
            && Traps.Moves(Measuring([], []), SendPayload(END_STANDARD_CODES), Measuring([request], []), false)
            && Traps.Moves(Measuring([request], []), MEASURE, Measuring([], [Result]), false)
  {
    assert [ACK, ACK] + [] + [Result] == [ACK, ACK] + [Result];
  }

  lemma EndsEarly()
    ensures Traps.Moves(Measuring([], [Result]), Local(EndModeCommand), MODE_ENDED, false)
    ensures Traps.Moves(MODE_ENDED, ANSWERED, IDLE_EARLY, false)
    ensures Traps.Moves(IDLE_EARLY, HEAR, STALE, false)
  {
    assert [ACK, ACK] + [Result] == [ACK, ACK, Result];
  }

  const LEAVING_STALE: seq<Label> := [Local(EndModeCommand), ANSWERED, HEAR]
  const MEASURING: seq<Label> := [SendPayload(0), MEASURE, SendPayload(END_STANDARD_CODES), MEASURE] + LEAVING_STALE
  lemma StaleAtEnd()
    ensures HonouredRun(Measuring([], []), MEASURING) && Exec(Measuring([], []), MEASURING) == STALE
  {
    var request := Cell(END_STANDARD_CODES, ResultRequest);
    EndsEarly();
    Traps.Prepend(IDLE_EARLY, HEAR, STALE, [], false);
    Traps.Prepend(MODE_ENDED, ANSWERED, IDLE_EARLY, [HEAR], false);
    Traps.Prepend(Measuring([], [Result]), Local(EndModeCommand), MODE_ENDED, [ANSWERED, HEAR], false);
    assert [Local(EndModeCommand)] + [ANSWERED, HEAR] == LEAVING_STALE;
    Requests();
    Measures();
    var four := [MEASURE] + LEAVING_STALE;
    Traps.Prepend(Measuring([request], []), MEASURE, Measuring([], [Result]), LEAVING_STALE, false);
    Traps.Prepend(Measuring([], []), SendPayload(END_STANDARD_CODES), Measuring([request], []), four, false);
    var two := [SendPayload(END_STANDARD_CODES)] + four;
    Traps.Prepend(Measuring([Cell(0, Load)], []), MEASURE, Measuring([], []), two, false);
    Traps.Prepend(Measuring([], []), SendPayload(0), Measuring([Cell(0, Load)], []), [MEASURE] + two, false);
    assert [SendPayload(0)] + ([MEASURE] + two) == MEASURING;
  }

  lemma StaleFromAcked()
    ensures var run := [ANSWERED] + ([HEAR] + MEASURING);
            HonouredRun(Acked([ACK, ACK, ACK]), run) && Exec(Acked([ACK, ACK, ACK]), run) == STALE
  {
    StaleAtEnd();
    ModeStarted();
    Traps.Prepend(MODE_STARTED, HEAR, Measuring([], []), MEASURING, false);
    ModeStarts();
    Traps.Prepend(Acked([ACK, ACK, ACK]), ANSWERED, MODE_STARTED, [HEAR] + MEASURING, false);
  }

  lemma StaleFromCommand(run: seq<Label>)
    requires HonouredRun(Acked([ACK, ACK, ACK]), run) && Exec(Acked([ACK, ACK, ACK]), run) == STALE
    ensures var all := [Local(ThroughputModeCommand)] + ([HEAR] + ([RemoteTimer] + ([RemoteTimer] + run)));
            HonouredRun(INITIAL, all) && Exec(INITIAL, all) == STALE
  {
    AckedAgain([ACK]);
    AckedAgain([ACK, ACK]);
    assert [ACK] + [ACK] == [ACK, ACK] && [ACK, ACK] + [ACK] == [ACK, ACK, ACK];
    Traps.Prepend(Acked([ACK, ACK]), RemoteTimer, Acked([ACK, ACK, ACK]), run, false);
    var two := [RemoteTimer] + run;
    Traps.Prepend(Acked([ACK]), RemoteTimer, Acked([ACK, ACK]), two, false);
    var three := [RemoteTimer] + two;
    CommandAcked();
    Traps.Prepend(COMMANDED, HEAR, Acked([ACK]), three, false);
    Traps.Prepend(INITIAL, Local(ThroughputModeCommand), COMMANDED, [HEAR] + three, false);
  }

  const INTO_STALE: seq<Label> :=
    [Local(ThroughputModeCommand)] +
    ([HEAR] + ([RemoteTimer] + ([RemoteTimer] + ([ANSWERED] + ([HEAR] + MEASURING)))))

  /** One EndModeCommand issued with acks on their way is enough, on lines that lose nothing. */
  lemma StaleIsReachable()
    ensures HonouredRun(INITIAL, INTO_STALE) && Exec(INITIAL, INTO_STALE) == STALE
    ensures Inv(STALE) && StaleBehindAck(STALE.reverse)
  {
    StaleFromAcked();
    StaleFromCommand([ANSWERED] + ([HEAR] + MEASURING));
    assert STALE.reverse[0] == ACK && STALE.reverse[1] == Result;
  }
}
