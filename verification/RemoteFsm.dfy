/** The remote's six states (src/remote/RemoteFSM.cpp). */
module RemoteFsm {
  import opened Events
  import opened Machines
  import opened Runtime
  import opened BaseFsm
  import Ownership
  import TimeoutErasure

  datatype RemoteState =
    | RemoteIdle
    | AvailabilityCommandReceived
    | ThroughputCommandReceived
    | RemoteAvailabilityMode
    | RemoteThroughputMode
    | EndModeReceived

  // ----- The table -----

  function KindOf(s: RemoteState): Kind {
    match s
    case RemoteIdle => Plain
    case AvailabilityCommandReceived => Timed
    case ThroughputCommandReceived => Timed
    case RemoteAvailabilityMode => Active
    case RemoteThroughputMode => Active
    case EndModeReceived => Timed
  }

  /** The byte written by each state's entry action. */
  function Greeting(s: RemoteState): seq<Byte> {
    match s
    case RemoteIdle => []
    case AvailabilityCommandReceived => [REMOTE_ACK]
    case ThroughputCommandReceived => [REMOTE_ACK]
    case RemoteAvailabilityMode => []
    case RemoteThroughputMode => []
    case EndModeReceived => [REMOTE_ACK]
  }

  function Reacts(s: RemoteState, e: Event): Reaction<RemoteState> {
    match s
    case RemoteIdle =>
      (match e
       case AvailabilityModeCommand => Transit([], AvailabilityCommandReceived)
       case ThroughputModeCommand => Transit([], ThroughputCommandReceived)
       case _ => Ignore)
    case AvailabilityCommandReceived =>
      (match e
       case MasterAck => Transit([], RemoteAvailabilityMode)
       case Timeout => Transit([], AvailabilityCommandReceived)
       case _ => Ignore)
    case ThroughputCommandReceived =>
      (match e
       case MasterAck => Transit([], RemoteThroughputMode)
       case Timeout => Transit([], ThroughputCommandReceived)
       case _ => Ignore)
    case RemoteAvailabilityMode =>
      (match e
       case EndModeCommand => Transit([], EndModeReceived)
       case MasterAck => Transit([], RemoteAvailabilityMode)
       case _ => Ignore)
    case RemoteThroughputMode =>
      (match e
       case EndModeCommand => Transit([], EndModeReceived)
       case MasterAck => Transit([], RemoteThroughputMode)
       case _ => Ignore)
    case EndModeReceived =>
      (match e
       case EndModeCommand | Timeout => Transit([], EndModeReceived)
       case MasterAck => Transit([], RemoteIdle)
       case _ => Ignore)
  }

  const REMOTE: Machine<RemoteState> := Machine(KindOf, Greeting, Reacts)

  /** The whole reaction to every event as a rule: which events move the remote, and what it answers. */
  lemma RemoteMoves(s: RemoteState, e: Event)
    ensures Reacts(s, e).Transit? <==>
            || (e == MasterAck && s != RemoteIdle)
            || (e == Timeout && Greeting(s) == [REMOTE_ACK])
            || (e == EndModeCommand && s in {RemoteAvailabilityMode, RemoteThroughputMode, EndModeReceived})
            || (e in {AvailabilityModeCommand, ThroughputModeCommand} && s == RemoteIdle)
    ensures Reacts(s, e).Transit? && e == Timeout ==> Reacts(s, e).target == s
    ensures Reacts(s, e).Transit? ==>
              Reacts(s, e).before == [] && Greeting(Reacts(s, e).target) == if e == MasterAck then [] else [REMOTE_ACK]
    ensures KindOf(s) == Timed <==> Greeting(s) == [REMOTE_ACK]
    ensures Reacts(s, e).Transit? && e == MasterAck ==>
              KindOf(Reacts(s, e).target) == if s == EndModeReceived then Plain else Active
  {
  }

  // ----- The machine -----

  method EnterState(fsm: Fsm<RemoteState>, s: RemoteState)
    modifies fsm
    ensures fsm.View() == Enter(REMOTE, old(fsm.View()), s)
  {
    fsm.current := s;
    fsm.orphaned := false;
    assert fsm.output + [] == fsm.output;
    match s
    case RemoteIdle =>
      fsm.PostRead();
    case AvailabilityCommandReceived =>
      fsm.SendByte(REMOTE_ACK);
      fsm.TimedEntry(s);
    case ThroughputCommandReceived =>
      fsm.SendByte(REMOTE_ACK);
      fsm.TimedEntry(s);
    case RemoteAvailabilityMode =>
      fsm.ActivityEntry(s);
    case RemoteThroughputMode =>
      fsm.ActivityEntry(s);
    case EndModeReceived =>
      fsm.SendByte(REMOTE_ACK);
      fsm.TimedEntry(s);
  }

  method LeaveState(fsm: Fsm<RemoteState>)
    modifies fsm
    ensures fsm.View() == Leave(REMOTE, old(fsm.View()))
  {
    match fsm.current {
      case RemoteIdle =>
      case AvailabilityCommandReceived | ThroughputCommandReceived | EndModeReceived =>
        fsm.TimedExit(fsm.current);
      case RemoteAvailabilityMode | RemoteThroughputMode =>
        fsm.ActivityExit(fsm.current);
    }
  }

  method TransitTo(fsm: Fsm<RemoteState>, target: RemoteState)
    modifies fsm
    ensures fsm.View() == Enter(REMOTE, Leave(REMOTE, old(fsm.View())), target)
  {
    LeaveState(fsm);
    EnterState(fsm, target);
  }

  method RemoteIdleReact(fsm: Fsm<RemoteState>, e: Event)
    requires fsm.current == RemoteIdle
    modifies fsm
    ensures fsm.View() == Carry(REMOTE, old(fsm.View()), Reacts(RemoteIdle, e))
  {
    assert fsm.output + [] == fsm.output;
    match e {
      case AvailabilityModeCommand => TransitTo(fsm, AvailabilityCommandReceived);
      case ThroughputModeCommand => TransitTo(fsm, ThroughputCommandReceived);
      case _ =>
    }
  }

  method AvailabilityCommandReceivedReact(fsm: Fsm<RemoteState>, e: Event)
    requires fsm.current == AvailabilityCommandReceived
    modifies fsm
    ensures fsm.View() == Carry(REMOTE, old(fsm.View()), Reacts(AvailabilityCommandReceived, e))
  {
    assert fsm.output + [] == fsm.output;
    match e {
      case MasterAck => TransitTo(fsm, RemoteAvailabilityMode);
      case Timeout => TransitTo(fsm, AvailabilityCommandReceived);
      case _ =>
    }
  }

  method ThroughputCommandReceivedReact(fsm: Fsm<RemoteState>, e: Event)
    requires fsm.current == ThroughputCommandReceived
    modifies fsm
    ensures fsm.View() == Carry(REMOTE, old(fsm.View()), Reacts(ThroughputCommandReceived, e))
  {
    assert fsm.output + [] == fsm.output;
    match e {
      case MasterAck => TransitTo(fsm, RemoteThroughputMode);
      case Timeout => TransitTo(fsm, ThroughputCommandReceived);
      case _ =>
    }
  }

  method RemoteAvailabilityModeReact(fsm: Fsm<RemoteState>, e: Event)
    requires fsm.current == RemoteAvailabilityMode
    modifies fsm
    ensures fsm.View() == Carry(REMOTE, old(fsm.View()), Reacts(RemoteAvailabilityMode, e))
  {
    assert fsm.output + [] == fsm.output;
    match e {
      case EndModeCommand => TransitTo(fsm, EndModeReceived);
      case MasterAck => TransitTo(fsm, RemoteAvailabilityMode);
      case _ =>
    }
  }

  method RemoteThroughputModeReact(fsm: Fsm<RemoteState>, e: Event)
    requires fsm.current == RemoteThroughputMode
    modifies fsm
    ensures fsm.View() == Carry(REMOTE, old(fsm.View()), Reacts(RemoteThroughputMode, e))
  {
    assert fsm.output + [] == fsm.output;
    match e {
      case EndModeCommand => TransitTo(fsm, EndModeReceived);
      case MasterAck => TransitTo(fsm, RemoteThroughputMode);
      case _ =>
    }
  }

  method EndModeReceivedReact(fsm: Fsm<RemoteState>, e: Event)
    requires fsm.current == EndModeReceived
    modifies fsm
    ensures fsm.View() == Carry(REMOTE, old(fsm.View()), Reacts(EndModeReceived, e))
  {
    assert fsm.output + [] == fsm.output;
    match e {
      case EndModeCommand | Timeout => TransitTo(fsm, EndModeReceived);
      case MasterAck => TransitTo(fsm, RemoteIdle);
      case _ =>
    }
  }

  method DispatchEvent(fsm: Fsm<RemoteState>, e: Event)
    modifies fsm
    ensures fsm.View() == Dispatch(REMOTE, old(fsm.View()), e)
  {
    if fsm.exited {
      return;
    }
    fsm.dispatched := fsm.dispatched + [e];
    if e == EndTest {
      fsm.SendByte(END_TEST);
      fsm.exited := true;
      return;
    }
    match fsm.current
    case RemoteIdle => RemoteIdleReact(fsm, e);
    case AvailabilityCommandReceived => AvailabilityCommandReceivedReact(fsm, e);
    case ThroughputCommandReceived => ThroughputCommandReceivedReact(fsm, e);
    case RemoteAvailabilityMode => RemoteAvailabilityModeReact(fsm, e);
    case RemoteThroughputMode => RemoteThroughputModeReact(fsm, e);
    case EndModeReceived => EndModeReceivedReact(fsm, e);
  }

  method HandleReadEvt(fsm: Fsm<RemoteState>, b: Byte)
    requires !fsm.exited && fsm.armed
    modifies fsm
    ensures fsm.View() == ReadByte(REMOTE, old(fsm.View()), b)
  {
    fsm.armed := false;
    match Decode(b) {
      case Some(e) => DispatchEvent(fsm, e);
      case None =>
    }
  }

  method HandleTimerCallback(fsm: Fsm<RemoteState>, index: nat)
    requires !fsm.exited && index < |fsm.timers.callbacks|
    modifies fsm
    ensures fsm.View() == DispatchTimeout(REMOTE, old(fsm.View()), index)
  {
    var timedOut := fsm.TakeCallback(index);
    if timedOut {
      DispatchEvent(fsm, Timeout);
    }
  }

  // ----- What the generic results say of the remote -----

  lemma RemoteResends()
    ensures Resends(REMOTE)
  {
  }

  /** Over every run of the remote: no double free, null dereference or leak, and one owner. */
  lemma RemoteOwnership(xs: seq<Stimulus>)
    ensures Ownership.Owned(REMOTE, Exec(REMOTE, Start(REMOTE, RemoteIdle), xs))
    ensures Ownership.FollowsTable(REMOTE, RemoteIdle, Exec(REMOTE, Start(REMOTE, RemoteIdle), xs))
  {
    RemoteResends();
    Ownership.StartOwns(REMOTE, RemoteIdle);
    Ownership.EveryRunOwns(REMOTE, Start(REMOTE, RemoteIdle), xs);
    Ownership.EveryRunFollowsTable(REMOTE, RemoteIdle, Start(REMOTE, RemoteIdle), xs);
  }

  lemma RemoteTimeoutErasure(es: seq<Event>)
    ensures var p := Running(RemoteIdle);
            var full, erased := Run(REMOTE, p, es), Run(REMOTE, p, TimeoutErasure.Erase(es));
            full.next == erased.next
            && TimeoutErasure.RepeatsInPlace(full.sent, erased.sent, TimeoutErasure.Resent(REMOTE, p, es))
  {
    RemoteResends();
    TimeoutErasure.TimeoutsOnlyRepeat(REMOTE, RemoteIdle, es);
  }
}
