/**
 The two processes of the handshake are the runtime machines of MasterFsm and
 RemoteFsm: same state, same bytes written, same outstanding read, step by step. Two
 runtime machines joined by two lines, with their timers, expiries and late callbacks,
 have exactly the runs of the handshake in which every read was posted.
 */
module RuntimeRefinement {
  import opened Events
  import opened Machines
  import opened MasterFsm
  import opened RemoteFsm
  import opened Handshake
  import R = Runtime
  import Ownership
  import ResendTimer
  import Lockstep
  import LossTolerance
  import Traps

  // ----- One step -----

  lemma OnesConcat(a: seq<Byte>, b: seq<Byte>)
    ensures Ones(a + b) == Ones(a) + Ones(b)
  {
  }

  lemma ProtocolsConcat(a: seq<Byte>, b: seq<Byte>)
    ensures Protocols(a + b) == Protocols(a) + Protocols(b)
  {
  }

  lemma RemoteDispatchRefines(rt: R.Rt<RemoteState>, e: Event)
    requires !rt.exited
    ensures var o, end := RemoteNext(Running(rt.current), e), R.Dispatch(REMOTE, rt, e);
            && R.ProcessOf(end) == o.next && Ones(end.output) == Ones(rt.output) + Ones(o.sent)
            && end.armed == (rt.armed || RemoteRearms(Running(rt.current), e))
  {
    Ownership.DispatchIsNext(REMOTE, rt, e);
    OnesConcat(rt.output, RemoteNext(Running(rt.current), e).sent);
  }

  lemma MasterDispatchRefines(rt: R.Rt<MasterState>, e: Event)
    requires !rt.exited
    ensures var o, end := MasterNext(Running(rt.current), e), R.Dispatch(MASTER, rt, e);
            && R.ProcessOf(end) == o.next && Protocols(end.output) == Protocols(rt.output) + Protocols(o.sent)
            && end.armed == (rt.armed || MasterRearms(Running(rt.current), e))
  {
    Ownership.DispatchIsNext(MASTER, rt, e);
    ProtocolsConcat(rt.output, MasterNext(Running(rt.current), e).sent);
  }

  /** A byte read by a state of the remote: HandleReadEvt does what the turn of a StateReader says. */
  lemma RemoteReadRefines(rt: R.Rt<RemoteState>, b: Byte)
    requires !rt.exited && rt.armed
    ensures var turn, end := RemoteTurn(Running(rt.current), b, StateReader), R.ReadByte(REMOTE, rt, b);
            && R.ProcessOf(end) == turn.next && Ones(end.output) == Ones(rt.output) + turn.writes
            && end.armed == turn.rearms
  {
    if Decode(b).Some? {
      RemoteDispatchRefines(rt.(armed := false), Decode(b).value);
    }
  }

  lemma MasterReadRefines(rt: R.Rt<MasterState>, b: Byte)
    requires !rt.exited && rt.armed
    ensures var turn, end := MasterTurn(Running(rt.current), One(b), StateReader), R.ReadByte(MASTER, rt, b);
            && R.ProcessOf(end) == turn.next && Protocols(end.output) == Protocols(rt.output) + turn.writes
            && end.armed == turn.rearms
  {
    if Decode(b).Some? {
      MasterDispatchRefines(rt.(armed := false), Decode(b).value);
    }
  }

  // ----- Two runtime machines joined by two lines -----

  datatype Joint = Joint(
    master: R.Rt<MasterState>,
    remote: R.Rt<RemoteState>,
    forward: seq<Cell>,
    reverse: seq<Reply>)

  /** A timer of either machine expires, a queued callback of either runs, or anything else happens. */
  datatype Act =
    | MasterExpires(timer: nat)
    | RemoteExpires(timer: nat)
    | MasterCallback(index: nat)
    | RemoteCallback(index: nat)
    | Other(step: Label)

  /** What a machine wrote in one step goes onto its line. */
  function Written<S>(before: R.Rt<S>, after: R.Rt<S>): seq<Byte> {
    if |before.output| <= |after.output| then after.output[|before.output|..] else []
  }

  function MasterTo(j: Joint, m: R.Rt<MasterState>): Joint {
    j.(master := m, forward := j.forward + Protocols(Written(j.master, m)))
  }

  /** What an activity answers goes ahead of what the machine writes. */
  function RemoteTo(j: Joint, answers: seq<Reply>, r: R.Rt<RemoteState>): Joint {
    j.(remote := r, reverse := j.reverse + answers + Ones(Written(j.remote, r)))
  }

  /** An activity's read leaves the state's read alone; what it hears it dispatches. */
  function RemoteReads(j: Joint, reader: Reader): Joint {
    if j.remote.exited || j.forward == [] then j
    else
      var b, p, rest := j.forward[0].byte, R.ProcessOf(j.remote), j.(forward := j.forward[1..]);
      if reader == StateReader then RemoteTo(rest, [], R.ReadByte(REMOTE, j.remote, b))
      else
        match RemoteHears(p, b, reader)
        case None => RemoteTo(rest, Answers(p, b, reader), j.remote)
        case Some(e) => RemoteTo(rest, Answers(p, b, reader), R.Dispatch(REMOTE, j.remote, e))
  }

  /** A state that reads into a result gets a byte that is no event. */
  function MasterReads(j: Joint, reader: Reader): Joint {
    if j.master.exited || j.reverse == [] then j
    else
      var x, p, rest := j.reverse[0], R.ProcessOf(j.master), j.(reverse := j.reverse[1..]);
      if reader == StateReader then
        MasterTo(rest, R.ReadByte(MASTER, j.master, if x.One? then x.byte else BEGIN_STANDARD_CODES))
      else
        match MasterHears(p, x, reader)
        case None => rest
        case Some(e) => MasterTo(rest, R.Dispatch(MASTER, j.master, e))
  }

  function JointStep(j: Joint, a: Act): Joint {
    match a
    case MasterExpires(t) => j.(master := R.Step(MASTER, j.master, R.Expire(t)))
    case RemoteExpires(t) => j.(remote := R.Step(REMOTE, j.remote, R.Expire(t)))
    case MasterCallback(i) => MasterTo(j, R.Step(MASTER, j.master, R.RunCallback(i)))
    case RemoteCallback(i) => RemoteTo(j, [], R.Step(REMOTE, j.remote, R.RunCallback(i)))
    case Other(l) =>
      (match l
       case Local(e) => MasterTo(j, R.Step(MASTER, j.master, R.Local(e)))
       case RemoteTimer => j
       case SendPayload(b) =>
         var p := R.ProcessOf(j.master);
         if MaySend(p, b) then j.(forward := j.forward + [Cell(b, OriginOf(p, b))]) else j
       case DeliverForward(reader) => RemoteReads(j, reader)
       case DeliverReverse(reader) => MasterReads(j, reader)
       case DropForward(i) => j.(forward := DropAt(j.forward, i))
       case RepeatForward(i) => j.(forward := RepeatAt(j.forward, i))
       case DropReverse(i) => j.(reverse := DropAt(j.reverse, i))
       case RepeatReverse(i) => j.(reverse := RepeatAt(j.reverse, i))
       case InventReverse(i, reply) => j.(reverse := InsertAt(j.reverse, i, reply)))
  }

  function JointRun(j: Joint, acts: seq<Act>): Joint
    decreases |acts|
  {
    if acts == [] then j else JointRun(JointStep(j, acts[0]), acts[1..])
  }

  function View(j: Joint): System {
    System(R.ProcessOf(j.master), R.ProcessOf(j.remote), j.forward, j.reverse, j.master.armed, j.remote.armed)
  }

  /** A byte reaches a state only through a read it posted; a timer fires only through an expiry and its callback. */
  predicate Proper(j: Joint, a: Act) {
    a.Other? ==> !a.step.RemoteTimer? && Honours(View(j), a.step)
  }

  predicate ProperRun(j: Joint, acts: seq<Act>)
    decreases |acts|
  {
    acts == [] || (Proper(j, acts[0]) && ProperRun(JointStep(j, acts[0]), acts[1..]))
  }

  // ----- From the runtime to the handshake -----

  /** What the handshake sees of an act: a callback that was not aborted is a timeout, expiries are unseen. */
  function Seen(j: Joint, a: Act): seq<Label> {
    match a
    case MasterExpires(_) => []
    case RemoteExpires(_) => []
    case MasterCallback(i) =>
      if j.master.exited || i >= |j.master.timers.callbacks| || j.master.timers.callbacks[i].aborted then []
      else [Local(Timeout)]
    case RemoteCallback(i) =>
      if j.remote.exited || i >= |j.remote.timers.callbacks| || j.remote.timers.callbacks[i].aborted then []
      else [RemoteTimer]
    case Other(l) => [l]
  }

  function SeenRun(j: Joint, acts: seq<Act>): seq<Label>
    decreases |acts|
  {
    if acts == [] then [] else Seen(j, acts[0]) + SeenRun(JointStep(j, acts[0]), acts[1..])
  }

  lemma MasterDispatchSeen(j: Joint, m: R.Rt<MasterState>, e: Event)
    requires !m.exited && m.current == j.master.current && m.output == j.master.output
    requires j.master.exited == m.exited && j.master.armed == m.armed
    ensures View(MasterTo(j, R.Dispatch(MASTER, m, e))) == MasterDispatch(View(j), e)
  {
    Ownership.DispatchIsNext(MASTER, m, e);
    MasterDispatchRefines(m, e);
  }

  lemma RemoteDispatchSeen(j: Joint, r: R.Rt<RemoteState>, e: Event)
    requires !r.exited && r.current == j.remote.current && r.output == j.remote.output
    requires j.remote.exited == r.exited && j.remote.armed == r.armed
    ensures View(RemoteTo(j, [], R.Dispatch(REMOTE, r, e))) == RemoteDispatch(View(j), e)
  {
    Ownership.DispatchIsNext(REMOTE, r, e);
    RemoteDispatchRefines(r, e);
    assert j.reverse + [] == j.reverse;
  }

  /** Nothing written, nothing moved: the lines stay as they are. */
  lemma NothingWritten(j: Joint)
    ensures forall m: R.Rt<MasterState> :: m.output == j.master.output ==> MasterTo(j, m) == j.(master := m)
    ensures forall r: R.Rt<RemoteState> :: r.output == j.remote.output ==> RemoteTo(j, [], r) == j.(remote := r)
  {
    assert j.forward + Protocols([]) == j.forward && j.reverse + [] + Ones([]) == j.reverse;
  }

  lemma MasterCallbackSeen(j: Joint, i: nat)
    ensures View(JointStep(j, MasterCallback(i))) == Exec(View(j), Seen(j, MasterCallback(i)))
  {
    NothingWritten(j);
    if !j.master.exited && i < |j.master.timers.callbacks| {
      var cb := j.master.timers.callbacks[i];
      if !cb.aborted {
        var dropped := R.DropTimer(R.PopCallback(j.master.timers, i), cb.owner);
        MasterDispatchSeen(j, j.master.(timers := dropped), Timeout);
        ExecOne(View(j), Local(Timeout));
      }
    }
  }

  lemma RemoteCallbackSeen(j: Joint, i: nat)
    ensures View(JointStep(j, RemoteCallback(i))) == Exec(View(j), Seen(j, RemoteCallback(i)))
  {
    NothingWritten(j);
    if !j.remote.exited && i < |j.remote.timers.callbacks| {
      var cb := j.remote.timers.callbacks[i];
      if !cb.aborted {
        var dropped := R.DropTimer(R.PopCallback(j.remote.timers, i), cb.owner);
        RemoteDispatchSeen(j, j.remote.(timers := dropped), Timeout);
        ExecOne(View(j), RemoteTimer);
      }
    }
  }

  lemma ReadWrites<S(!new)>(m: Machine<S>, rt: R.Rt<S>, b: Byte)
    requires !rt.exited && rt.armed
    ensures var sent := if Decode(b).Some? then Next(m, Running(rt.current), Decode(b).value).sent else [];
            Written(rt, R.ReadByte(m, rt, b)) == sent
  {
    if Decode(b).Some? {
      Ownership.DispatchIsNext(m, rt.(armed := false), Decode(b).value);
    }
  }

  lemma RemoteReadWrites(rt: R.Rt<RemoteState>, b: Byte)
    requires !rt.exited && rt.armed
    ensures Ones(Written(rt, R.ReadByte(REMOTE, rt, b))) == RemoteTurn(Running(rt.current), b, StateReader).writes
  {
    ReadWrites(REMOTE, rt, b);
    assert Ones([]) == [];
  }

  lemma RemoteStateReadSeen(j: Joint)
    requires j.remote.armed && CanReadForward(View(j))
    ensures View(RemoteReads(j, StateReader)) == ReadForward(View(j), StateReader)
  {
    var b := j.forward[0].byte;
    RemoteReadRefines(j.remote, b);
    RemoteReadWrites(j.remote, b);
    assert j.reverse + [] == j.reverse;
    assert !(StateReader == ActivityReader && RemoteActive(R.ProcessOf(j.remote)));
  }

  lemma RemoteActivityReadSeen(j: Joint)
    requires RemoteActive(R.ProcessOf(j.remote)) && CanReadForward(View(j))
    ensures View(RemoteReads(j, ActivityReader)) == ReadForward(View(j), ActivityReader)
  {
    var b, p := j.forward[0].byte, R.ProcessOf(j.remote);
    var answers := Answers(p, b, ActivityReader);
    match RemoteHears(p, b, ActivityReader)
    case None =>
      assert Ones([]) == [] && j.reverse + answers + [] == j.reverse + answers;
    case Some(e) =>
      var acks := Ones(RemoteNext(p, e).sent);
      Ownership.DispatchIsNext(REMOTE, j.remote, e);
      RemoteDispatchRefines(j.remote, e);
      assert j.reverse + answers + acks == j.reverse + (answers + acks);
  }

  lemma RemoteReadSeen(j: Joint, reader: Reader)
    requires Honours(View(j), DeliverForward(reader)) && CanReadForward(View(j))
    ensures View(RemoteReads(j, reader)) == ReadForward(View(j), reader)
  {
    if reader == StateReader {
      RemoteStateReadSeen(j);
    } else {
      RemoteActivityReadSeen(j);
    }
  }

  lemma MasterReadSeen(j: Joint, reader: Reader)
    requires Honours(View(j), DeliverReverse(reader)) && CanReadReverse(View(j))
    ensures View(MasterReads(j, reader)) == ReadReverse(View(j), reader)
  {
    var x, p := j.reverse[0], R.ProcessOf(j.master);
    var rest := j.(reverse := j.reverse[1..]);
    NothingWritten(rest);
    assert j.forward + [] == j.forward;
    if reader == StateReader {
      var b := if x.One? then x.byte else BEGIN_STANDARD_CODES;
      if Decode(b).Some? {
        Ownership.DispatchIsNext(MASTER, j.master.(armed := false), Decode(b).value);
        MasterReadRefines(j.master, b);
      }
    } else {
      match MasterHears(p, x, reader)
      case None =>
      case Some(e) =>
        Ownership.DispatchIsNext(MASTER, j.master, e);
        MasterDispatchRefines(j.master, e);
    }
  }

  lemma ExecOne(s: System, l: Label)
    ensures Exec(s, [l]) == Step(s, l)
  {
    assert [l][1..] == [];
  }

  lemma ActSeen(j: Joint, a: Act)
    requires Proper(j, a)
    ensures View(JointStep(j, a)) == Exec(View(j), Seen(j, a))
  {
    match a
    case MasterExpires(_) =>
    case RemoteExpires(_) =>
    case MasterCallback(i) => MasterCallbackSeen(j, i);
    case RemoteCallback(i) => RemoteCallbackSeen(j, i);
    case Other(l) =>
      ExecOne(View(j), l);
      match l {
        case Local(e) =>
          if j.master.exited {
            NothingWritten(j);
          } else {
            MasterDispatchSeen(j, j.master, e);
          }
        case DeliverForward(reader) => if CanReadForward(View(j)) { RemoteReadSeen(j, reader); }
        case DeliverReverse(reader) => if CanReadReverse(View(j)) { MasterReadSeen(j, reader); }
        case _ =>
      }
  }

  /** Every run of the two runtime machines, with all their timers and late callbacks, is a run of the
      handshake: same states, same lines, same reads outstanding. */
  lemma {:induction false} RuntimeProjects(j: Joint, acts: seq<Act>)
    requires ProperRun(j, acts)
    ensures View(JointRun(j, acts)) == Exec(View(j), SeenRun(j, acts)) && HonouredRun(View(j), SeenRun(j, acts))
    decreases |acts|
  {
    if acts != [] {
      var a, next := acts[0], JointStep(j, acts[0]);
      ActSeen(j, a);
      RuntimeProjects(next, acts[1..]);
      ExecConcat(View(j), Seen(j, a), SeenRun(next, acts[1..]));
    }
  }

  // ----- From the handshake to the runtime -----

  /** Both machines own what they should, and a remote that resends has its timer waiting. */
  ghost predicate Live(j: Joint) {
    && Ownership.Owned(REMOTE, j.remote)
    && (!j.remote.exited && RemoteFsm.KindOf(j.remote.current) == Timed ==> j.remote.timers.waiting != map[])
  }

  lemma RemoteStaysLive(j: Joint, r: R.Rt<RemoteState>, e: Event)
    requires Live(j) && !j.remote.exited && r == j.remote.(armed := r.armed)
    ensures Live(j.(remote := R.Dispatch(REMOTE, r, e)))
  {
    RemoteResends();
    Ownership.DispatchOwns(REMOTE, r, e);
    if e != EndTest && REMOTE.react(r.current, e).Transit? {
      ResendTimer.EnteringState(REMOTE, r, e);
    }
  }

  lemma OtherStaysLive(j: Joint, l: Label)
    requires Live(j) && Proper(j, Other(l))
    ensures Live(JointStep(j, Other(l)))
  {
    if l.DeliverForward? && CanReadForward(View(j)) {
      var b, p := j.forward[0].byte, R.ProcessOf(j.remote);
      if l.reader == StateReader {
        if Decode(b).Some? {
          RemoteStaysLive(j, j.remote.(armed := false), Decode(b).value);
        }
      } else if RemoteHears(p, b, l.reader).Some? {
        RemoteStaysLive(j, j.remote, RemoteHears(p, b, l.reader).value);
      }
    }
  }

  lemma NoTimerToFire(j: Joint)
    requires j.remote.exited || RemoteFsm.KindOf(j.remote.current) != Timed
    ensures Step(View(j), RemoteTimer) == View(j)
  {
    assert Ones([]) == [] && j.reverse + [] == j.reverse;
  }

  lemma TwoTimerActs(j: Joint, a: Act, b: Act)
    requires !a.Other? && !b.Other?
    ensures JointRun(j, [a, b]) == JointStep(JointStep(j, a), b) && ProperRun(j, [a, b])
  {
    var one := JointStep(j, a);
    assert [a, b][1..] == [b] && [b][1..] == [];
    assert JointRun(one, [b]) == JointRun(JointStep(one, b), []);
    assert ProperRun(one, [b]);
  }

  /** A live timer can fire: it expires, and its callback runs before any other. */
  lemma TimerFires(j: Joint) returns (acts: seq<Act>)
    requires Live(j)
    ensures ProperRun(j, acts) && View(JointRun(j, acts)) == Step(View(j), RemoteTimer) && Live(JointRun(j, acts))
  {
    if j.remote.exited || RemoteFsm.KindOf(j.remote.current) != Timed {
      acts := [];
      NoTimerToFire(j);
    } else {
      FiresOnce(j);
      var fire := RemoteExpires(j.remote.timers.held[j.remote.current]);
      var call := RemoteCallback(|j.remote.timers.callbacks|);
      acts := [fire, call];
      TwoTimerActs(j, fire, call);
    }
  }

  lemma FiresOnce(j: Joint)
    requires Live(j) && !j.remote.exited && RemoteFsm.KindOf(j.remote.current) == Timed
    ensures j.remote.current in j.remote.timers.held
    ensures var expired := JointStep(j, RemoteExpires(j.remote.timers.held[j.remote.current]));
            var end := JointStep(expired, RemoteCallback(|j.remote.timers.callbacks|));
            View(end) == Step(View(j), RemoteTimer) && Live(end)
  {
    TimerIsWaiting(j);
    var i := |j.remote.timers.callbacks|;
    var expired := JointStep(j, RemoteExpires(j.remote.timers.held[j.remote.current]));
    RemoteCallbackSeen(expired, i);
    ExecOne(View(expired), RemoteTimer);
    CallbackStaysLive(expired, i);
  }

  lemma TimerIsWaiting(j: Joint)
    requires Live(j) && !j.remote.exited && RemoteFsm.KindOf(j.remote.current) == Timed
    ensures var s, ts := j.remote.current, j.remote.timers;
            && s in ts.held && ts.held[s] in ts.waiting && ts.waiting == map[ts.held[s] := s]
    ensures var s, i := j.remote.current, |j.remote.timers.callbacks|;
            var expired := JointStep(j, RemoteExpires(j.remote.timers.held[s]));
            && expired == j.(remote := expired.remote)
            && Ownership.Owned(REMOTE, expired.remote) && !expired.remote.exited && expired.remote.current == s
            && R.ProcessOf(expired.remote) == R.ProcessOf(j.remote) && expired.remote.armed == j.remote.armed
            && expired.remote.timers.waiting == map[]
            && |expired.remote.timers.callbacks| == i + 1
            && expired.remote.timers.callbacks[i] == R.Callback(s, false)
  {
    var t :| t in j.remote.timers.waiting;
    assert t == j.remote.timers.held[j.remote.current];
    RemoteResends();
    Ownership.StepOwns(REMOTE, j.remote, R.Expire(t));
  }

  lemma CallbackStaysLive(j: Joint, i: nat)
    requires Ownership.Owned(REMOTE, j.remote) && !j.remote.exited && j.remote.timers.waiting == map[]
    requires RemoteFsm.KindOf(j.remote.current) == Timed && i < |j.remote.timers.callbacks|
    requires j.remote.timers.callbacks[i] == R.Callback(j.remote.current, false)
    ensures Live(JointStep(j, RemoteCallback(i)))
  {
    RemoteResends();
    Ownership.CallbackOwns(REMOTE, j.remote, i);
    var popped := R.PopCallback(j.remote.timers, i);
    Ownership.DroppingOwn(popped, j.remote.current);
    ResendTimer.EnteringState(REMOTE, j.remote.(timers := R.DropTimer(popped, j.remote.current)), Timeout);
  }

  lemma {:induction false} JointConcat(j: Joint, xs: seq<Act>, ys: seq<Act>)
    ensures JointRun(j, xs + ys) == JointRun(JointRun(j, xs), ys)
    ensures ProperRun(j, xs) && ProperRun(JointRun(j, xs), ys) ==> ProperRun(j, xs + ys)
    decreases |xs|
  {
    if xs == [] {
      assert xs + ys == ys;
    } else {
      assert (xs + ys)[1..] == xs[1..] + ys;
      JointConcat(JointStep(j, xs[0]), xs[1..], ys);
    }
  }

  /** Every run of the handshake in which reads were posted is one of the two runtime machines: whenever
      it fires the remote's timer, that timer is live, expires and has its callback run. */
  lemma {:induction false} HandshakeIsReal(j: Joint, ls: seq<Label>) returns (acts: seq<Act>)
    requires Live(j) && HonouredRun(View(j), ls)
    ensures ProperRun(j, acts) && View(JointRun(j, acts)) == Exec(View(j), ls)
    decreases |ls|
  {
    if ls == [] {
      acts := [];
    } else {
      var first: seq<Act>;
      if ls[0] == RemoteTimer {
        first := TimerFires(j);
      } else {
        first := [Other(ls[0])];
        assert first[1..] == [];
        assert JointRun(j, first) == JointStep(j, Other(ls[0]));
        ActSeen(j, Other(ls[0]));
        ExecOne(View(j), ls[0]);
        OtherStaysLive(j, ls[0]);
      }
      var rest := HandshakeIsReal(JointRun(j, first), ls[1..]);
      acts := first + rest;
      JointConcat(j, first, rest);
    }
  }

  // ----- From start-up -----

  const BOOT: Joint := Joint(R.Start(MASTER, Idle), R.Start(REMOTE, RemoteIdle), [], [])

  lemma BootIsInitial()
    ensures View(BOOT) == INITIAL && Live(BOOT)
  {
    Ownership.StartOwns(REMOTE, RemoteIdle);
  }

  /** The runtime machines do exactly what the handshake does. */
  lemma SameReach(s: System)
    ensures (exists acts: seq<Act> :: ProperRun(BOOT, acts) && View(JointRun(BOOT, acts)) == s) <==>
            (exists ls: seq<Label> :: HonouredRun(INITIAL, ls) && Exec(INITIAL, ls) == s)
  {
    BootIsInitial();
    if acts: seq<Act> :| ProperRun(BOOT, acts) && View(JointRun(BOOT, acts)) == s {
      RuntimeProjects(BOOT, acts);
    }
    if ls: seq<Label> :| HonouredRun(INITIAL, ls) && Exec(INITIAL, ls) == s {
      var acts := HandshakeIsReal(BOOT, ls);
    }
  }

  predicate FaithfulAct(a: Act) {
    a.Other? ==> Lockstep.ForwardFaithful(a.step)
  }

  lemma {:induction false} SeenFaithful(j: Joint, acts: seq<Act>)
    requires forall i :: 0 <= i < |acts| ==> FaithfulAct(acts[i])
    ensures forall l :: l in SeenRun(j, acts) ==> Lockstep.ForwardFaithful(l)
    decreases |acts|
  {
    if acts != [] {
      SeenFaithful(JointStep(j, acts[0]), acts[1..]);
    }
  }

  /** Lockstep holds of the runtime, timers and late callbacks included. */
  lemma RuntimeInLockstep(acts: seq<Act>)
    requires ProperRun(BOOT, acts) && forall i :: 0 <= i < |acts| ==> FaithfulAct(acts[i])
    ensures var s := View(JointRun(BOOT, acts));
            Lockstep.InLockstep(s) && Lockstep.PayloadPlaced(s) && (s.forward == [] ==> s.remote == Twin(s.master))
  {
    BootIsInitial();
    RuntimeProjects(BOOT, acts);
    SeenFaithful(BOOT, acts);
    Lockstep.ModesAgree(SeenRun(BOOT, acts));
  }

  /** The gate concerns what is dispatched from elsewhere; timers never wait. */
  predicate GatedActs(j: Joint, acts: seq<Act>)
    decreases |acts|
  {
    acts == [] ||
    ((acts[0].Other? ==> LossTolerance.Admitted(View(j), acts[0].step)) && GatedActs(JointStep(j, acts[0]), acts[1..]))
  }

  lemma {:induction false} SeenGated(j: Joint, acts: seq<Act>)
    requires ProperRun(j, acts) && GatedActs(j, acts)
    ensures LossTolerance.Gated(View(j), SeenRun(j, acts))
    decreases |acts|
  {
    if acts != [] {
      var seen, rest := Seen(j, acts[0]), SeenRun(JointStep(j, acts[0]), acts[1..]);
      ActSeen(j, acts[0]);
      SeenGated(JointStep(j, acts[0]), acts[1..]);
      if seen != [] {
        assert (seen + rest)[1..] == rest;
        ExecOne(View(j), seen[0]);
      } else {
        assert seen + rest == rest;
      }
    }
  }

  /** Loss tolerance holds of the runtime, timers and late callbacks included. */
  lemma RuntimeLossTolerant(acts: seq<Act>)
    requires ProperRun(BOOT, acts) && GatedActs(BOOT, acts)
    ensures LossTolerance.OnePhaseBehind(View(JointRun(BOOT, acts)))
  {
    BootIsInitial();
    RuntimeProjects(BOOT, acts);
    SeenGated(BOOT, acts);
    LossTolerance.LossTolerant(SeenRun(BOOT, acts));
  }

  /** The runs that deafen and wedge the remote are runs of the runtime: the timer they fire is live. */
  lemma TrapsAreReal() returns (deafening: seq<Act>, wedging: seq<Act>)
    ensures ProperRun(BOOT, deafening) && Traps.Deaf(View(JointRun(BOOT, deafening)))
    ensures ProperRun(BOOT, wedging) && Traps.Wedged(View(JointRun(BOOT, wedging)))
  {
    BootIsInitial();
    Traps.DeafnessIsReachable();
    deafening := HandshakeIsReal(BOOT, Traps.DEAFENING);
    Traps.WedgeIsReachable();
    wedging := HandshakeIsReal(BOOT, Traps.WEDGING);
  }
}
