/** The master's six states (src/master/MasterFSM.cpp). */
module MasterFsm {
  import opened Events
  import opened Machines
  import opened Runtime
  import opened BaseFsm
  import Ownership
  import TimeoutErasure

  datatype MasterState =
    | Idle
    | SentAvailableModeCommand
    | SentThroughputModeCommand
    | AvailabilityMode
    | ThroughputMode
    | WaitAckAfterEndMode

  // ----- The table -----

  function KindOf(s: MasterState): Kind {
    match s
    case Idle => Plain
    case SentAvailableModeCommand => Timed
    case SentThroughputModeCommand => Timed
    case AvailabilityMode => Active
    case ThroughputMode => Active
    case WaitAckAfterEndMode => Timed
  }

  /** The byte written by each state's entry action. */
  function Greeting(s: MasterState): seq<Byte> {
    match s
    case Idle => []
    case SentAvailableModeCommand => [AVAILABILITY_MODE_COMMAND]
    case SentThroughputModeCommand => [THROUGHPUT_MODE_COMMAND]
    case AvailabilityMode => [MASTER_ACK]
    case ThroughputMode => [MASTER_ACK]
    case WaitAckAfterEndMode => [END_MODE_COMMAND]
  }

  function Reacts(s: MasterState, e: Event): Reaction<MasterState> {
    match s
    case Idle =>
      (match e
       case AvailabilityModeCommand => Transit([], SentAvailableModeCommand)
       case ThroughputModeCommand => Transit([], SentThroughputModeCommand)
       case RemoteAck => Transit([MASTER_ACK], Idle)
       case _ => Ignore)
    case SentAvailableModeCommand =>
      (match e
       case Timeout => Transit([], SentAvailableModeCommand)
       case RemoteAck => Transit([], AvailabilityMode)
       case _ => Ignore)
    case SentThroughputModeCommand =>
      (match e
       case Timeout => Transit([], SentThroughputModeCommand)
       case RemoteAck => Transit([], ThroughputMode)
       case _ => Ignore)
    case AvailabilityMode =>
      (match e
       case EndModeCommand => Transit([], WaitAckAfterEndMode)
       case RemoteAck => Transit([], AvailabilityMode)
       case _ => Ignore)
    case ThroughputMode =>
      (match e
       case EndModeCommand => Transit([], WaitAckAfterEndMode)
       case RemoteAck => Transit([], ThroughputMode)
       case _ => Ignore)
    case WaitAckAfterEndMode =>
      (match e
       case RemoteAck => Transit([MASTER_ACK], Idle)
       case Timeout => Transit([], WaitAckAfterEndMode)
       case _ => Ignore)
  }

  const MASTER: Machine<MasterState> := Machine(KindOf, Greeting, Reacts)

  /** The whole reaction to every event, state by state as a rule: which events move the master, and where to. */
  lemma MasterMoves(s: MasterState, e: Event)
    ensures Reacts(s, e).Transit? <==>
            || e == RemoteAck
            || (e == Timeout && Greeting(s) != [] && Greeting(s) != [MASTER_ACK])
            || (e == EndModeCommand && Greeting(s) == [MASTER_ACK])
            || (s == Idle && e in {AvailabilityModeCommand, ThroughputModeCommand})
    ensures Reacts(s, e).Transit? && e == Timeout ==> Reacts(s, e).target == s
    ensures Reacts(s, e).Transit? && e in {AvailabilityModeCommand, ThroughputModeCommand, EndModeCommand} ==>
              Greeting(Reacts(s, e).target) == [Id(e)] && Reacts(s, e).before == []
    ensures KindOf(s) == if s == Idle then Plain else if Greeting(s) == [MASTER_ACK] then Active else Timed
    ensures e == RemoteAck ==> Reacts(s, e).before + Greeting(Reacts(s, e).target) == [MASTER_ACK]
  {
  }

  // ----- The machine -----

  method EnterState(fsm: Fsm<MasterState>, s: MasterState)
    modifies fsm
    ensures fsm.View() == Enter(MASTER, old(fsm.View()), s)
  {
    fsm.current := s;
    fsm.orphaned := false;
    match s
    case Idle =>
      fsm.PostRead();
    case SentAvailableModeCommand =>
      fsm.SendByte(AVAILABILITY_MODE_COMMAND);
      fsm.StartTimer(s);
      fsm.TimedEntry(s);
    case SentThroughputModeCommand =>
      fsm.StartTimer(s);
      fsm.SendByte(THROUGHPUT_MODE_COMMAND);
      fsm.TimedEntry(s);
    case AvailabilityMode =>
      fsm.SendByte(MASTER_ACK);
      fsm.ActivityEntry(s);
    case ThroughputMode =>
      fsm.SendByte(MASTER_ACK);
      fsm.ActivityEntry(s);
    case WaitAckAfterEndMode =>
      fsm.SendByte(END_MODE_COMMAND);
      fsm.TimedEntry(s);
  }

  method LeaveState(fsm: Fsm<MasterState>)
    modifies fsm
    ensures fsm.View() == Leave(MASTER, old(fsm.View()))
  {
    match fsm.current {
      case Idle =>
      case SentAvailableModeCommand | SentThroughputModeCommand | WaitAckAfterEndMode =>
        fsm.TimedExit(fsm.current);
      case AvailabilityMode | ThroughputMode =>
        fsm.ActivityExit(fsm.current);
    }
  }

  method TransitTo(fsm: Fsm<MasterState>, target: MasterState)
    modifies fsm
    ensures fsm.View() == Enter(MASTER, Leave(MASTER, old(fsm.View())), target)
  {
    LeaveState(fsm);
    EnterState(fsm, target);
  }

  method IdleReact(fsm: Fsm<MasterState>, e: Event)
    requires fsm.current == Idle
    modifies fsm
    ensures fsm.View() == Carry(MASTER, old(fsm.View()), Reacts(Idle, e))
  {
    assert fsm.output + [] == fsm.output;
    match e {
      case AvailabilityModeCommand => TransitTo(fsm, SentAvailableModeCommand);
      case ThroughputModeCommand => TransitTo(fsm, SentThroughputModeCommand);
      case RemoteAck =>
        fsm.SendByte(MASTER_ACK);
        TransitTo(fsm, Idle);
      case _ =>
    }
  }

  method SentAvailableModeCommandReact(fsm: Fsm<MasterState>, e: Event)
    requires fsm.current == SentAvailableModeCommand
    modifies fsm
    ensures fsm.View() == Carry(MASTER, old(fsm.View()), Reacts(SentAvailableModeCommand, e))
  {
    assert fsm.output + [] == fsm.output;
    match e {
      case Timeout => TransitTo(fsm, SentAvailableModeCommand);
      case RemoteAck => TransitTo(fsm, AvailabilityMode);
      case _ =>
    }
  }

  method SentThroughputModeCommandReact(fsm: Fsm<MasterState>, e: Event)
    requires fsm.current == SentThroughputModeCommand
    modifies fsm
    ensures fsm.View() == Carry(MASTER, old(fsm.View()), Reacts(SentThroughputModeCommand, e))
  {
    assert fsm.output + [] == fsm.output;
    match e {
      case Timeout => TransitTo(fsm, SentThroughputModeCommand);
      case RemoteAck => TransitTo(fsm, ThroughputMode);
      case _ =>
    }
  }

  method AvailabilityModeReact(fsm: Fsm<MasterState>, e: Event)
    requires fsm.current == AvailabilityMode
    modifies fsm
    ensures fsm.View() == Carry(MASTER, old(fsm.View()), Reacts(AvailabilityMode, e))
  {
    assert fsm.output + [] == fsm.output;
    match e {
      case EndModeCommand => TransitTo(fsm, WaitAckAfterEndMode);
      case RemoteAck => TransitTo(fsm, AvailabilityMode);
      case _ =>
    }
  }

  method ThroughputModeReact(fsm: Fsm<MasterState>, e: Event)
    requires fsm.current == ThroughputMode
    modifies fsm
    ensures fsm.View() == Carry(MASTER, old(fsm.View()), Reacts(ThroughputMode, e))
  {
    assert fsm.output + [] == fsm.output;
    match e {
      case EndModeCommand => TransitTo(fsm, WaitAckAfterEndMode);
      case RemoteAck => TransitTo(fsm, ThroughputMode);
      case _ =>
    }
  }

  method WaitAckAfterEndModeReact(fsm: Fsm<MasterState>, e: Event)
    requires fsm.current == WaitAckAfterEndMode
    modifies fsm
    ensures fsm.View() == Carry(MASTER, old(fsm.View()), Reacts(WaitAckAfterEndMode, e))
  {
    assert fsm.output + [] == fsm.output;
    match e {
      case RemoteAck =>
        fsm.SendByte(MASTER_ACK);
        TransitTo(fsm, Idle);
      case Timeout => TransitTo(fsm, WaitAckAfterEndMode);
      case _ =>
    }
  }

  method DispatchEvent(fsm: Fsm<MasterState>, e: Event)
    modifies fsm
    ensures fsm.View() == Dispatch(MASTER, old(fsm.View()), e)
  {
    if fsm.exited {
      return;
    }
    fsm.dispatched := fsm.dispatched + [e];
    if e == EndTest {
      fsm.SendByte(END_TEST);
      fsm.exited := true;
      return;
    }
    match fsm.current
    case Idle => IdleReact(fsm, e);
    case SentAvailableModeCommand => SentAvailableModeCommandReact(fsm, e);
    case SentThroughputModeCommand => SentThroughputModeCommandReact(fsm, e);
    case AvailabilityMode => AvailabilityModeReact(fsm, e);
    case ThroughputMode => ThroughputModeReact(fsm, e);
    case WaitAckAfterEndMode => WaitAckAfterEndModeReact(fsm, e);
  }

  method HandleReadEvt(fsm: Fsm<MasterState>, b: Byte)
    requires !fsm.exited && fsm.armed
    modifies fsm
    ensures fsm.View() == ReadByte(MASTER, old(fsm.View()), b)
  {
    fsm.armed := false;
    match Decode(b) {
      case Some(e) => DispatchEvent(fsm, e);
      case None =>
    }
  }

  method HandleTimerCallback(fsm: Fsm<MasterState>, index: nat)
    requires !fsm.exited && index < |fsm.timers.callbacks|
    modifies fsm
    ensures fsm.View() == DispatchTimeout(MASTER, old(fsm.View()), index)
  {
    var timedOut := fsm.TakeCallback(index);
    if timedOut {
      DispatchEvent(fsm, Timeout);
    }
  }

  // ----- What the generic results say of the master -----

  lemma MasterResends()
    ensures Resends(MASTER)
  {
  }

  /** Over every run of the master: no double free, null dereference or leak, and one owner. */
  lemma MasterOwnership(xs: seq<Stimulus>)
    ensures Ownership.Owned(MASTER, Exec(MASTER, Start(MASTER, Idle), xs))
    ensures Ownership.FollowsTable(MASTER, Idle, Exec(MASTER, Start(MASTER, Idle), xs))
  {
    MasterResends();
    Ownership.StartOwns(MASTER, Idle);
    Ownership.EveryRunOwns(MASTER, Start(MASTER, Idle), xs);
    Ownership.EveryRunFollowsTable(MASTER, Idle, Start(MASTER, Idle), xs);
  }

  lemma MasterTimeoutErasure(es: seq<Event>)
    ensures var full, erased := Run(MASTER, Running(Idle), es), Run(MASTER, Running(Idle), TimeoutErasure.Erase(es));
            full.next == erased.next
            && TimeoutErasure.RepeatsInPlace(full.sent, erased.sent, TimeoutErasure.Resent(MASTER, Running(Idle), es))
  {
    MasterResends();
    TimeoutErasure.TimeoutsOnlyRepeat(MASTER, Idle, es);
  }
}
