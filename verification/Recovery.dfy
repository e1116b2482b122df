/**
 A lost byte is made good. Whatever was lost or repeated, timeouts and deliveries alone
 bring the remote level with the master again, unless a machine that has no timer waits
 for a byte it has no read for.
 */
module Recovery {
  import opened Events
  import opened Machines
  import opened MasterFsm
  import opened RemoteFsm
  import opened Handshake
  import opened LossTolerance
  import Lockstep
  import Traps

  /** Nothing is dispatched from elsewhere, and the lines do nothing of their own. */
  predicate Patient(l: Label) {
    l == Local(Timeout) || l == RemoteTimer || l.DeliverForward? || l.DeliverReverse?
  }

  predicate Level(s: System) {
    s.remote == Twin(s.master)
  }

  ghost predicate Reaches(s: System, ls: seq<Label>, t: System) {
    (forall l :: l in ls ==> Patient(l)) && Exec(s, ls) == t
  }

  // ----- Every ack is answered -----

  /** The master answers every RemoteAck with a MasterAck, in whatever state it runs. */
  lemma EveryAckIsAnswered(p: Process<MasterState>)
    requires p.Running?
    ensures MasterNext(p, RemoteAck).sent == [MASTER_ACK] && MasterNext(p, RemoteAck).next.Running?
  {
  }

  /** A remote that waits for its MasterAck repeats its ack at every timeout. */
  lemma EveryTimeoutAcks(r: RemoteState)
    requires RemoteFsm.KindOf(r) == Timed
    ensures RemoteNext(Running(r), Timeout) == Outcome(Running(r), [REMOTE_ACK])
  {
  }

  /** The byte that brings a remote one phase behind level with m. */
  function Key(m: MasterState): Byte {
    match m
    case Idle => MASTER_ACK
    case SentAvailableModeCommand => AVAILABILITY_MODE_COMMAND
    case SentThroughputModeCommand => THROUGHPUT_MODE_COMMAND
    case AvailabilityMode => MASTER_ACK
    case ThroughputMode => MASTER_ACK
    case WaitAckAfterEndMode => END_MODE_COMMAND
  }

  lemma KeyCatchesUp(m: MasterState, r: RemoteState, reader: Reader)
    requires Behind(m, r)
    ensures RemoteTurn(Running(r), Key(m), reader).next == Running(TwinState(m))
  {
  }

  // ----- Reading on -----

  ghost predicate Lagging(s: System) {
    Inv(s) && s.master.Running? && !Level(s)
  }

  function ReaderFor(p: Process<RemoteState>): Reader {
    if RemoteActive(p) then ActivityReader else StateReader
  }

  lemma Chain(s: System, l: Label, rest: seq<Label>, t: System)
    requires Patient(l) && Reaches(Step(s, l), rest, t)
    ensures Reaches(s, [l] + rest, t)
    ensures Honours(s, l) && HonouredRun(Step(s, l), rest) ==> HonouredRun(s, [l] + rest)
  {
    assert ([l] + rest)[1..] == rest;
  }

  lemma TimerFirst(s: System)
    requires Lagging(s)
    ensures var t := Step(s, RemoteTimer);
            && Lagging(t) && t.master == s.master && t.remote == s.remote && t.forward == s.forward
            && t.masterArmed == s.masterArmed
            && (s.remote == Running(RemoteIdle) ==> t.remoteArmed == s.remoteArmed)
            && (s.remote != Running(RemoteIdle) ==> Honours(t, DeliverForward(ReaderFor(t.remote))))
    ensures s.remote.Running? && RemoteFsm.KindOf(s.remote.state) == Timed ==>
              Step(s, RemoteTimer).reverse == s.reverse + [ACK]
  {
    LossTolerance.StepKeeps(s, RemoteTimer);
    Lockstep.TimeoutKeepsRemote(s.remote);
    if RemoteFsm.KindOf(s.remote.state) == Timed {
      EveryTimeoutAcks(s.remote.state);
      assert Ones([REMOTE_ACK]) == [ACK];
    }
  }

  /** Whatever stands before the key is read, then the key. */
  lemma {:induction false} CatchUp(s: System, i: nat) returns (ls: seq<Label>)
    requires Lagging(s) && i < |s.forward| && s.forward[i].byte == Key(s.master.state)
    ensures Reaches(s, ls, Exec(s, ls)) && Level(Exec(s, ls))
    ensures s.remote != Running(RemoteIdle) || (s.remoteArmed && i == 0) ==> HonouredRun(s, ls)
    decreases i
  {
    var m, r, b := s.master.state, s.remote.state, s.forward[0].byte;
    var reader := ReaderFor(s.remote);
    var u := Step(s, RemoteTimer);
    var t := Step(u, DeliverForward(reader));
    TimerFirst(s);
    LossTolerance.StepKeeps(u, DeliverForward(reader));
    RemoteReads(m, r, b, reader);
    var rest: seq<Label> := [];
    if b == Key(m) {
      KeyCatchesUp(m, r, reader);
    } else if !Level(t) {
      rest := CatchUp(t, i - 1);
    }
    Chain(u, DeliverForward(reader), rest, Exec(t, rest));
    ls := [DeliverForward(reader)] + rest;
    Chain(s, RemoteTimer, ls, Exec(t, rest));
    ls := [RemoteTimer] + ls;
  }

  // ----- The key comes -----

  /** A master that awaits an ack sends its key again at every timeout. */
  lemma TimeoutSendsKey(s: System)
    requires Lagging(s) && AwaitsAck(s.master.state)
    ensures var t := Step(s, Local(Timeout));
            && Lagging(t) && t.master == s.master && t.remote == s.remote && t.remoteArmed == s.remoteArmed
            && t.forward == s.forward + [Cell(Key(s.master.state), Protocol)]
  {
    LossTolerance.StepKeeps(s, Local(Timeout));
    assert MasterNext(s.master, Timeout).sent == [Key(s.master.state)];
  }

  function MasterReaderFor(p: Process<MasterState>): Reader {
    if MasterActive(p) then ActivityReader else StateReader
  }

  /** A master that awaits none answers the next ack with its key, and stays where it is. */
  lemma {:induction false} AckBringsKey(s: System, k: nat) returns (ls: seq<Label>)
    requires Lagging(s) && !AwaitsAck(s.master.state) && k < |s.reverse| && s.reverse[k] == ACK
    ensures Reaches(s, ls, Exec(s, ls))
    ensures var t := Exec(s, ls);
            && Lagging(t) && t.master == s.master && t.remote == s.remote && t.remoteArmed == s.remoteArmed
            && t.forward == s.forward + [Cell(MASTER_ACK, Protocol)]
    ensures MasterActive(s.master) || (s.masterArmed && k == 0) ==> HonouredRun(s, ls)
    decreases k
  {
    var read := DeliverReverse(MasterReaderFor(s.master));
    var t := Step(s, read);
    LossTolerance.StepKeeps(s, read);
    assert s.reverse[0] in s.reverse && Honest(s.reverse[0]);
    var rest: seq<Label> := [];
    if s.reverse[0] == ACK {
      EveryAckIsAnswered(s.master);
      assert Protocols([MASTER_ACK]) == [Cell(MASTER_ACK, Protocol)];
    } else {
      assert t.forward == s.forward;
      rest := AckBringsKey(t, k - 1);
    }
    Chain(s, read, rest, Exec(t, rest));
    ls := [read] + rest;
  }

  lemma JoinReaches(s: System, xs: seq<Label>, ys: seq<Label>)
    requires Reaches(s, xs, Exec(s, xs)) && Reaches(Exec(s, xs), ys, Exec(Exec(s, xs), ys))
    ensures Reaches(s, xs + ys, Exec(Exec(s, xs), ys))
    ensures HonouredRun(s, xs) && HonouredRun(Exec(s, xs), ys) ==> HonouredRun(s, xs + ys)
  {
    ExecConcat(s, xs, ys);
  }

  // ----- Who can be stuck -----

  ghost predicate HasKey(s: System)
    requires s.master.Running?
  {
    exists i :: 0 <= i < |s.forward| && s.forward[i].byte == Key(s.master.state)
  }

  /** An idle remote without a read, or about to lose it to a byte that moves it nowhere. */
  predicate RemoteStuck(s: System) {
    && s.master.Running? && AwaitsAck(s.master.state) && s.remote == Running(RemoteIdle)
    && (!s.remoteArmed || (s.forward != [] && s.forward[0].byte == MASTER_ACK))
  }

  /** An idle master without a read, or about to lose it, and no MasterAck on its way to the remote. */
  ghost predicate MasterStuck(s: System) {
    && s.master == Running(Idle) && s.remote == Running(EndModeReceived) && !HasKey(s)
    && (!s.masterArmed || (s.reverse != [] && s.reverse[0] != ACK))
  }

  /** An idle remote that is not stuck has the command next, or nothing at all. */
  lemma IdleReadsNext(s: System)
    requires Lagging(s) && s.remote == Running(RemoteIdle) && !RemoteStuck(s)
    ensures AwaitsAck(s.master.state) && s.remoteArmed
    ensures s.forward != [] ==> s.forward[0].byte == Key(s.master.state)
  {
    var m := s.master.state;
    assert s.forward != [] ==> Old(m, s.forward[0].byte) || New(m, s.forward[0].byte);
  }

  lemma ByTimeout(s: System) returns (ls: seq<Label>)
    requires Lagging(s) && AwaitsAck(s.master.state) && !HasKey(s)
    ensures Reaches(s, ls, Exec(s, ls)) && Level(Exec(s, ls))
    ensures !RemoteStuck(s) ==> HonouredRun(s, ls)
  {
    TimeoutSendsKey(s);
    var t := Step(s, Local(Timeout));
    if s.remote == Running(RemoteIdle) && !RemoteStuck(s) {
      IdleReadsNext(s);
    }
    var rest := CatchUp(t, |s.forward|);
    Chain(s, Local(Timeout), rest, Exec(t, rest));
    ls := [Local(Timeout)] + rest;
  }

  lemma ByAck(s: System, k: nat) returns (ls: seq<Label>)
    requires Lagging(s) && !AwaitsAck(s.master.state) && k < |s.reverse| && s.reverse[k] == ACK
    ensures Reaches(s, ls, Exec(s, ls)) && Level(Exec(s, ls))
    ensures MasterActive(s.master) || (s.masterArmed && k == 0) ==> HonouredRun(s, ls)
  {
    var first := AckBringsKey(s, k);
    var t := Exec(s, first);
    var rest := CatchUp(t, |s.forward|);
    JoinReaches(s, first, rest);
    ls := first + rest;
  }

  /** The remote repeats its ack, and the master answers it. */
  lemma ByRepeatedAck(s: System) returns (ls: seq<Label>)
    requires Lagging(s) && !AwaitsAck(s.master.state)
    ensures Reaches(s, ls, Exec(s, ls)) && Level(Exec(s, ls))
    ensures MasterActive(s.master) || (s.masterArmed && s.reverse == []) ==> HonouredRun(s, ls)
  {
    TimerFirst(s);
    var t := Step(s, RemoteTimer);
    assert RemoteFsm.KindOf(s.remote.state) == Timed;
    var rest := ByAck(t, |s.reverse|);
    Chain(s, RemoteTimer, rest, Exec(t, rest));
    ls := [RemoteTimer] + rest;
  }

  lemma ByQueuedKey(s: System) returns (ls: seq<Label>)
    requires Lagging(s) && HasKey(s)
    ensures Reaches(s, ls, Exec(s, ls)) && Level(Exec(s, ls))
    ensures !RemoteStuck(s) ==> HonouredRun(s, ls)
  {
    if s.remote == Running(RemoteIdle) && !RemoteStuck(s) {
      IdleReadsNext(s);
      ls := CatchUp(s, 0);
    } else {
      var i :| 0 <= i < |s.forward| && s.forward[i].byte == Key(s.master.state);
      ls := CatchUp(s, i);
    }
  }

  /** From every state within the phase invariant, timeouts and deliveries alone can bring the remote level;
      and if neither machine is stuck, they can do so by reads that are posted. */
  lemma Recovers(s: System) returns (ls: seq<Label>)
    requires Inv(s) && s.master.Running?
    ensures Reaches(s, ls, Exec(s, ls)) && Level(Exec(s, ls))
    ensures !RemoteStuck(s) && !MasterStuck(s) ==> HonouredRun(s, ls)
  {
    if Level(s) {
      ls := [];
    } else if HasKey(s) {
      ls := ByQueuedKey(s);
    } else if AwaitsAck(s.master.state) {
      ls := ByTimeout(s);
    } else if s.reverse != [] && s.reverse[0] == ACK {
      ls := ByAck(s, 0);
    } else {
      ls := ByRepeatedAck(s);
    }
  }

  ghost predicate RecoversBy(s: System, ls: seq<Label>) {
    HonouredRun(s, ls) && (forall l :: l in ls ==> Patient(l)) && Level(Exec(s, ls))
  }

  // ----- A stuck machine stays stuck -----

  ghost predicate Halted(s: System) {
    && (RemoteStuck(s) || MasterStuck(s))
    && (forall x :: x in s.reverse ==> Honest(x))
    && (RemoteStuck(s) ==> ACK !in s.reverse)
  }

  lemma StuckIsNotLevel(s: System)
    requires RemoteStuck(s) || MasterStuck(s)
    ensures !Level(s)
  {
  }

  lemma RemoteStaysStuck(s: System, l: Label)
    requires Halted(s) && RemoteStuck(s) && Patient(l) && Honours(s, l)
    ensures Halted(Step(s, l)) && RemoteStuck(Step(s, l))
  {
    match l
    case RemoteTimer => assert Ones([]) == [] && s.reverse + [] == s.reverse;
    case DeliverForward(reader) => assert Ones([]) == [] && s.reverse + [] == s.reverse;
    case DeliverReverse(reader) =>
      if CanReadReverse(s) {
        assert s.reverse[0] in s.reverse && Honest(s.reverse[0]);
        assert s.forward + [] == s.forward;
      }
    case _ =>
  }

  lemma MasterStaysStuck(s: System, l: Label)
    requires Halted(s) && MasterStuck(s) && Patient(l) && Honours(s, l)
    requires forall i :: 0 <= i < |s.forward| ==> s.forward[i].byte == END_MODE_COMMAND
    ensures Halted(Step(s, l)) && MasterStuck(Step(s, l))
    ensures forall i :: 0 <= i < |Step(s, l).forward| ==> Step(s, l).forward[i].byte == END_MODE_COMMAND
  {
    var t := Step(s, l);
    match l
    case RemoteTimer =>
      EveryTimeoutAcks(EndModeReceived);
      assert Ones([REMOTE_ACK]) == [ACK] && t.reverse == s.reverse + [ACK];
    case DeliverForward(reader) =>
      if CanReadForward(s) {
        assert RemoteTurn(s.remote, END_MODE_COMMAND, reader).writes == [ACK];
        assert t.reverse == s.reverse + [ACK] && t.forward == s.forward[1..];
      }
    case DeliverReverse(reader) =>
      if CanReadReverse(s) {
        assert s.reverse[0] in s.reverse && Honest(s.reverse[0]);
        assert t.forward == s.forward;
      }
    case Local(_) =>
      assert Protocols([]) == [] && t.forward == s.forward;
  }

  lemma {:induction false} StuckForever(s: System, ls: seq<Label>)
    requires Halted(s) && HonouredRun(s, ls) && forall l :: l in ls ==> Patient(l)
    requires MasterStuck(s) ==> forall i :: 0 <= i < |s.forward| ==> s.forward[i].byte == END_MODE_COMMAND
    ensures !Level(Exec(s, ls))
    decreases |ls|
  {
    if ls == [] {
      StuckIsNotLevel(s);
    } else {
      assert Patient(ls[0]);
      if RemoteStuck(s) {
        RemoteStaysStuck(s, ls[0]);
      } else {
        MasterStaysStuck(s, ls[0]);
      }
      StuckForever(Step(s, ls[0]), ls[1..]);
    }
  }

  /** Exactly when a handshake recovers by reads that are posted: unless an idle machine is stuck. */
  lemma RecoversExactly(s: System)
    requires Inv(s) && s.master.Running?
    ensures !RemoteStuck(s) && !MasterStuck(s) <==>
            exists ls: seq<Label> :: RecoversBy(s, ls)
  {
    if !RemoteStuck(s) && !MasterStuck(s) {
      var ls := Recovers(s);
      assert RecoversBy(s, ls);
    } else {
      StuckQueue(s);
      forall ls: seq<Label>
        ensures !RecoversBy(s, ls)
      {
        if HonouredRun(s, ls) && forall l :: l in ls ==> Patient(l) {
          StuckForever(s, ls);
        }
      }
    }
  }

  lemma StuckQueue(s: System)
    requires Inv(s) && s.master.Running? && (RemoteStuck(s) || MasterStuck(s))
    ensures Halted(s)
    ensures MasterStuck(s) ==> forall i :: 0 <= i < |s.forward| ==> s.forward[i].byte == END_MODE_COMMAND
  {
    if MasterStuck(s) {
      forall i | 0 <= i < |s.forward|
        ensures s.forward[i].byte == END_MODE_COMMAND
      {
        assert Old(Idle, s.forward[i].byte) || New(Idle, s.forward[i].byte);
      }
    }
  }

  /** The remote deafened by Traps.DEAFENING is stuck as soon as the next mode is commanded, and the gate
      admits that command. */
  lemma StuckIsReachable()
    ensures Gated(INITIAL, Traps.DEAFENING) && HonouredRun(INITIAL, Traps.DEAFENING)
    ensures var s := Exec(INITIAL, Traps.DEAFENING);
            Admitted(s, Local(AvailabilityModeCommand)) && RemoteStuck(Step(s, Local(AvailabilityModeCommand)))
  {
    Traps.DeafnessIsReachable();
  }
}
