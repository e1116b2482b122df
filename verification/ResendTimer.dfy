/**
 When a timed state keeps its resend timer. A callback deletes whatever timer its
 object holds by then, and dispatches a Timeout to whatever state is current by
 then; so entering a timed state while the wrong callback is queued can cost the
 state its timer, and with it every further resend.
 */
module ResendTimer {
  import opened Events
  import opened Machines
  import opened Runtime
  import opened Ownership
  import opened MasterFsm
  import opened RemoteFsm

  predicate KeepsTimer<S>(m: Machine<S>, rt: Rt<S>) {
    m.kind(rt.current) == Timed ==> rt.current in rt.timers.held
  }

  /** A callback that can take the timer of s: one of s itself, or any that dispatches a Timeout. */
  predicate Threatens<S(==)>(cb: Callback<S>, s: S) {
    cb.owner == s || !cb.aborted
  }

  /**
   What a caller can look at before dispatching e: if e enters a timed state, nothing queued
   threatens it, and it does not re-enter the current state while that state's timer waits.
   */
  ghost predicate Undisturbed<S(!new)>(m: Machine<S>, rt: Rt<S>, e: Event) {
    !rt.exited && e != EndTest && m.react(rt.current, e).Transit? ==>
      var target := m.react(rt.current, e).target;
      m.kind(target) == Timed ==>
        && (forall i :: 0 <= i < |rt.timers.callbacks| ==> !Threatens(rt.timers.callbacks[i], target))
        && (target == rt.current ==> rt.timers.waiting == map[])
  }

  // ----- Undisturbed machines keep their timer -----

  /** Nothing queued threatens the timer of s, but the one callback of its own expiry. */
  ghost predicate Calm<S(!new)>(ts: Timers<S>, s: S) {
    && (forall i :: 0 <= i < |ts.callbacks| && Threatens(ts.callbacks[i], s) ==>
          ts.callbacks[i] == Callback(s, false) && ts.waiting == map[])
    && (forall i, j :: 0 <= i < j < |ts.callbacks| ==>
          !Threatens(ts.callbacks[i], s) || !Threatens(ts.callbacks[j], s))
  }

  ghost predicate Kept<S(!new)>(m: Machine<S>, rt: Rt<S>) {
    && Owned(m, rt)
    && (!rt.exited && m.kind(rt.current) == Timed ==> !rt.orphaned && Calm(rt.timers, rt.current))
  }

  /** Leaving queues exactly one abort, of the current object, if its timer still waits. */
  lemma LeavingQueues<S(!new)>(m: Machine<S>, rt: Rt<S>)
    requires Leavable(m, rt)
    ensures Leave(m, rt).timers.callbacks ==
            rt.timers.callbacks + if rt.timers.waiting == map[] then [] else [Callback(rt.current, true)]
  {
    if t :| t in rt.timers.waiting {
      assert t == rt.timers.held[rt.current];
    }
  }

  lemma StartedWaits<S(!new)>(ts: Timers<S>, s: S)
    requires NoTimer(ts)
    ensures StartTimer(ts, s).waiting != map[] && StartTimer(ts, s).callbacks == ts.callbacks
  {
    assert ts.created in StartTimer(ts, s).waiting;
  }

  /** A transition keeps the queue as the leaving left it, and starts the timer of a timed state. */
  lemma EnteringState<S(!new)>(m: Machine<S>, rt: Rt<S>, e: Event)
    requires Leavable(m, rt) && !rt.exited && e != EndTest && m.react(rt.current, e).Transit?
    ensures var one, s := Dispatch(m, rt, e), m.react(rt.current, e).target;
            && !one.exited && one.current == s && !one.orphaned
            && one.timers.callbacks == Leave(m, rt).timers.callbacks
            && (m.kind(s) == Timed ==> one.timers.waiting != map[])
  {
    var left, s := Leave(m, rt).timers, m.react(rt.current, e).target;
    LeavingFreesAll(m, rt);
    StartedWaits(left, s);
    assert Dispatch(m, rt, e).timers == if m.kind(s) == Timed then StartTimer(left, s) else left;
  }

  lemma EntryKeeps<S(!new)>(m: Machine<S>, rt: Rt<S>, e: Event)
    requires Resends(m) && Leavable(m, rt) && Undisturbed(m, rt, e)
    requires !rt.exited && e != EndTest && m.react(rt.current, e).Transit?
    ensures Kept(m, Dispatch(m, rt, e))
  {
    DispatchOwns(m, rt, e);
    EnteringState(m, rt, e);
    LeavingQueues(m, rt);
  }

  lemma DispatchKeeps<S(!new)>(m: Machine<S>, rt: Rt<S>, e: Event)
    requires Resends(m) && Kept(m, rt) && Undisturbed(m, rt, e)
    ensures Kept(m, Dispatch(m, rt, e))
  {
    if !rt.exited && e != EndTest && m.react(rt.current, e).Transit? {
      EntryKeeps(m, rt, e);
    }
  }

  lemma ExpiryKeeps<S(!new)>(m: Machine<S>, rt: Rt<S>, t: nat)
    requires Kept(m, rt)
    ensures Kept(m, Step(m, rt, Expire(t)))
  {
    if t in rt.timers.waiting {
      assert rt.timers.waiting.Keys == {t};
      assert (rt.timers.waiting - {t}).Keys == {};
    }
  }

  /** The state's own expiry: the timer goes, and the Timeout re-enters the state undisturbed. */
  lemma OwnExpiryKeeps<S(!new)>(m: Machine<S>, rt: Rt<S>, index: nat)
    requires Resends(m) && Kept(m, rt) && !rt.exited && m.kind(rt.current) == Timed
    requires index < |rt.timers.callbacks| && Threatens(rt.timers.callbacks[index], rt.current)
    ensures Kept(m, DispatchTimeout(m, rt, index))
  {
    var popped := PopCallback(rt.timers, index);
    DroppingOwn(popped, rt.current);
    var alone := rt.(timers := DropTimer(popped, rt.current));
    assert alone.timers.callbacks == popped.callbacks;
    forall i | 0 <= i < |popped.callbacks|
      ensures !Threatens(popped.callbacks[i], rt.current)
    {
      assert popped.callbacks[i] == rt.timers.callbacks[if i < index then i else i + 1];
    }
    EntryKeeps(m, alone, Timeout);
  }

  /** Any other callback of a calm timed state was aborted, and finds nothing to delete. */
  lemma StrangerKeeps<S(!new)>(m: Machine<S>, rt: Rt<S>, index: nat)
    requires Kept(m, rt) && !rt.exited && m.kind(rt.current) == Timed
    requires index < |rt.timers.callbacks| && !Threatens(rt.timers.callbacks[index], rt.current)
    ensures Kept(m, DispatchTimeout(m, rt, index))
  {
    var popped := PopCallback(rt.timers, index);
    DroppingOther(popped, rt.current, rt.timers.callbacks[index].owner);
    assert forall i :: 0 <= i < |popped.callbacks| ==>
      popped.callbacks[i] == rt.timers.callbacks[if i < index then i else i + 1];
  }

  lemma CallbackKeeps<S(!new)>(m: Machine<S>, rt: Rt<S>, index: nat)
    requires Resends(m) && Kept(m, rt)
    ensures Kept(m, DispatchTimeout(m, rt, index))
  {
    if !rt.exited && index < |rt.timers.callbacks| {
      if m.kind(rt.current) != Timed {
        CallbackOwns(m, rt, index);
      } else if Threatens(rt.timers.callbacks[index], rt.current) {
        OwnExpiryKeeps(m, rt, index);
      } else {
        StrangerKeeps(m, rt, index);
      }
    }
  }

  /** Expiries and callbacks need no permission; what is dispatched from elsewhere does. */
  ghost predicate UndisturbedBy<S(!new)>(m: Machine<S>, rt: Rt<S>, x: Stimulus) {
    match x
    case Local(e) => Undisturbed(m, rt, e)
    case Read(b) => rt.armed && Decode(b).Some? ==> Undisturbed(m, rt, Decode(b).value)
    case Expire(_) => true
    case RunCallback(_) => true
  }

  ghost predicate UndisturbedRun<S(!new)>(m: Machine<S>, rt: Rt<S>, xs: seq<Stimulus>)
    decreases |xs|
  {
    xs == [] || (UndisturbedBy(m, rt, xs[0]) && UndisturbedRun(m, Step(m, rt, xs[0]), xs[1..]))
  }

  lemma StepKeeps<S(!new)>(m: Machine<S>, rt: Rt<S>, x: Stimulus)
    requires Resends(m) && Kept(m, rt) && UndisturbedBy(m, rt, x)
    ensures Kept(m, Step(m, rt, x))
  {
    match x
    case Local(e) => DispatchKeeps(m, rt, e);
    case Read(b) =>
      if !rt.exited && rt.armed && Decode(b).Some? {
        DispatchKeeps(m, rt.(armed := false), Decode(b).value);
      }
    case Expire(t) => ExpiryKeeps(m, rt, t);
    case RunCallback(i) => CallbackKeeps(m, rt, i);
  }

  /** Over every undisturbed run a timed state has its timer, and nothing queued can take it. */
  lemma {:induction false} UndisturbedRunsKeepTimer<S(!new)>(m: Machine<S>, rt: Rt<S>, xs: seq<Stimulus>)
    requires Resends(m) && Kept(m, rt) && UndisturbedRun(m, rt, xs)
    ensures Kept(m, Exec(m, rt, xs))
    ensures !Exec(m, rt, xs).exited ==> KeepsTimer(m, Exec(m, rt, xs))
    decreases |xs|
  {
    if xs != [] {
      StepKeeps(m, rt, xs[0]);
      UndisturbedRunsKeepTimer(m, Step(m, rt, xs[0]), xs[1..]);
    }
  }

  lemma StartKeeps<S(!new)>(m: Machine<S>, s: S)
    requires m.kind(s) != Timed
    ensures Kept(m, Start(m, s))
  {
    StartOwns(m, s);
  }

  // ----- Disturbed machines can lose it -----

  predicate OnlyTimerWork(x: Stimulus) {
    x.Expire? || x.RunCallback?
  }

  ghost predicate TimerWork(xs: seq<Stimulus>) {
    forall i :: 0 <= i < |xs| ==> OnlyTimerWork(xs[i])
  }

  lemma {:induction false} TimerWorkIsUndisturbed<S(!new)>(m: Machine<S>, rt: Rt<S>, xs: seq<Stimulus>)
    requires TimerWork(xs)
    ensures UndisturbedRun(m, rt, xs)
    decreases |xs|
  {
    if xs != [] {
      assert OnlyTimerWork(xs[0]);
      assert forall i :: 0 <= i < |xs[1..]| ==> xs[1..][i] == xs[i + 1];
      TimerWorkIsUndisturbed(m, Step(m, rt, xs[0]), xs[1..]);
    }
  }

  /** Running an aborted callback of the current object takes its timer at once. */
  lemma AbortTakesTimer<S(!new)>(m: Machine<S>, rt: Rt<S>, i: nat)
    requires Owned(m, rt) && !rt.exited && m.kind(rt.current) == Timed
    requires i < |rt.timers.callbacks| && rt.timers.callbacks[i] == Callback(rt.current, true)
    ensures var end := Step(m, rt, RunCallback(i));
            !KeepsTimer(m, end) && end.current == rt.current && end.orphaned
  {
  }

  /** A late success first re-enters the state, which queues an abort for its new timer. */
  lemma LateTimeoutQueuesAbort<S(!new)>(m: Machine<S>, rt: Rt<S>, i: nat)
    requires Resends(m) && Owned(m, rt) && !rt.exited && m.kind(rt.current) == Timed && rt.timers.waiting != map[]
    requires i < |rt.timers.callbacks| && !rt.timers.callbacks[i].aborted
    ensures var one, last := Step(m, rt, RunCallback(i)), |rt.timers.callbacks| - 1;
            && Owned(m, one) && !one.exited && one.current == rt.current
            && |one.timers.callbacks| == last + 1 && one.timers.callbacks[last] == Callback(rt.current, true)
  {
    CallbackOwns(m, rt, i);
    var t :| t in rt.timers.waiting;
    assert t == rt.timers.held[rt.current];
    var cb, popped := rt.timers.callbacks[i], PopCallback(rt.timers, i);
    if cb.owner != rt.current {
      DroppingOther(popped, rt.current, cb.owner);
    }
  }

  lemma ExecOne<S>(m: Machine<S>, rt: Rt<S>, x: Stimulus)
    ensures Exec(m, rt, [x]) == Step(m, rt, x)
  {
    assert [x][1..] == [];
  }

  lemma ExecTwo<S>(m: Machine<S>, rt: Rt<S>, x: Stimulus, y: Stimulus)
    ensures Exec(m, rt, [x, y]) == Step(m, Step(m, rt, x), y)
  {
    assert [x, y][1..] == [y];
    ExecOne(m, Step(m, rt, x), y);
  }

  lemma LateTimeoutTakesTimer<S(!new)>(m: Machine<S>, rt: Rt<S>, i: nat) returns (xs: seq<Stimulus>)
    requires Resends(m) && Owned(m, rt) && !rt.exited && m.kind(rt.current) == Timed && rt.timers.waiting != map[]
    requires i < |rt.timers.callbacks| && !rt.timers.callbacks[i].aborted
    ensures TimerWork(xs) && !KeepsTimer(m, Exec(m, rt, xs))
  {
    var late, last := RunCallback(i), |rt.timers.callbacks| - 1;
    xs := [late, RunCallback(last)];
    ExecTwo(m, rt, late, RunCallback(last));
    LateTimeoutQueuesAbort(m, rt, i);
    AbortTakesTimer(m, Step(m, rt, late), last);
  }

  lemma ThreatTakesTimer<S(!new)>(m: Machine<S>, rt: Rt<S>, i: nat) returns (xs: seq<Stimulus>)
    requires Resends(m) && Owned(m, rt) && !rt.exited && m.kind(rt.current) == Timed && rt.timers.waiting != map[]
    requires i < |rt.timers.callbacks| && Threatens(rt.timers.callbacks[i], rt.current)
    ensures TimerWork(xs) && !KeepsTimer(m, Exec(m, rt, xs))
  {
    if rt.timers.callbacks[i].aborted {
      xs := [RunCallback(i)];
      ExecOne(m, rt, xs[0]);
      AbortTakesTimer(m, rt, i);
    } else {
      xs := LateTimeoutTakesTimer(m, rt, i);
    }
  }

  /** A disturbed entry finds a threat in the queue, beside its own new timer. */
  lemma DisturbedEntry<S(!new)>(m: Machine<S>, rt: Rt<S>, e: Event) returns (i: nat)
    requires Resends(m) && Owned(m, rt) && !Undisturbed(m, rt, e)
    ensures var one := Dispatch(m, rt, e);
            && Owned(m, one) && !one.exited && m.kind(one.current) == Timed && one.timers.waiting != map[]
            && i < |one.timers.callbacks| && Threatens(one.timers.callbacks[i], one.current)
  {
    var target := m.react(rt.current, e).target;
    var one := Dispatch(m, rt, e);
    DispatchOwns(m, rt, e);
    EnteringState(m, rt, e);
    LeavingQueues(m, rt);
    if i' :| 0 <= i' < |rt.timers.callbacks| && Threatens(rt.timers.callbacks[i'], target) {
      i := i';
    } else {
      i := |rt.timers.callbacks|;
    }
  }

  /**
   Exactly when a timed state keeps its timer: entered by e, it keeps it through every order of
   expiries and callbacks if and only if the dispatch of e was undisturbed.
   */
  lemma TimerKeptExactly<S(!new)>(m: Machine<S>, rt: Rt<S>, e: Event)
    requires Resends(m) && Owned(m, rt) && !rt.exited
    requires e != EndTest && m.react(rt.current, e).Transit?
    ensures Undisturbed(m, rt, e) <==>
            forall xs: seq<Stimulus> :: TimerWork(xs) ==> KeepsTimer(m, Exec(m, Dispatch(m, rt, e), xs))
  {
    var one := Dispatch(m, rt, e);
    if Undisturbed(m, rt, e) {
      EntryKeeps(m, rt, e);
      forall xs: seq<Stimulus> | TimerWork(xs)
        ensures KeepsTimer(m, Exec(m, one, xs))
      {
        TimerWorkIsUndisturbed(m, one, xs);
        UndisturbedRunsKeepTimer(m, one, xs);
        TimerWorkNeverExits(m, one, xs);
      }
    } else {
      var i := DisturbedEntry(m, rt, e);
      var xs := ThreatTakesTimer(m, one, i);
    }
  }

  lemma {:induction false} TimerWorkNeverExits<S(!new)>(m: Machine<S>, rt: Rt<S>, xs: seq<Stimulus>)
    requires TimerWork(xs) && !rt.exited
    ensures !Exec(m, rt, xs).exited
    decreases |xs|
  {
    if xs != [] {
      assert OnlyTimerWork(xs[0]);
      assert forall i :: 0 <= i < |xs[1..]| ==> xs[1..][i] == xs[i + 1];
      TimerWorkNeverExits(m, Step(m, rt, xs[0]), xs[1..]);
    }
  }

  // ----- Which events disturb a state whose timer waits -----

  /** With nothing else queued, the abort that takes the new timer is queued by self-transitions and nothing else. */
  lemma SelfTransitionQueuesAbort<S(!new)>(m: Machine<S>, rt: Rt<S>, e: Event)
    requires Owned(m, rt) && !rt.exited && m.kind(rt.current) == Timed
    requires rt.timers.waiting != map[] && rt.timers.callbacks == []
    ensures var one := Dispatch(m, rt, e);
            Callback(one.current, true) in one.timers.callbacks <==>
            e != EndTest && m.react(rt.current, e).Transit? && m.react(rt.current, e).target == rt.current
  {
    if e != EndTest && m.react(rt.current, e).Transit? {
      EnteringState(m, rt, e);
      LeavingQueues(m, rt);
    }
  }

  /** At the master only a Timeout from elsewhere does it: an event script may hold one. */
  lemma MasterDisturbedExactly(rt: Rt<MasterState>, e: Event)
    requires !rt.exited && MasterFsm.KindOf(rt.current) == Timed
    requires rt.timers.waiting != map[] && rt.timers.callbacks == []
    ensures !Undisturbed(MASTER, rt, e) <==> e == Timeout
  {
  }

  /** At the remote a repeated EndModeCommand does it, which every timeout of a waiting master sends. */
  lemma RemoteDisturbedExactly(rt: Rt<RemoteState>, e: Event)
    requires !rt.exited && RemoteFsm.KindOf(rt.current) == Timed
    requires rt.timers.waiting != map[] && rt.timers.callbacks == []
    ensures !Undisturbed(REMOTE, rt, e) <==>
            e == Timeout || (rt.current == EndModeReceived && e == EndModeCommand)
  {
  }

  /** A self-transition while the timer waits, then the two aborted callbacks: the timer is gone. */
  lemma SelfTransitionLosesTimer<S(!new)>(m: Machine<S>, rt: Rt<S>, e: Event)
    requires Resends(m) && Owned(m, rt) && !rt.exited && m.kind(rt.current) == Timed
    requires rt.timers.waiting != map[] && rt.timers.callbacks == []
    requires e != EndTest && m.react(rt.current, e).Transit? && m.react(rt.current, e).target == rt.current
    ensures var end := Exec(m, Dispatch(m, rt, e), [RunCallback(0), RunCallback(0)]);
            && Owned(m, end) && end.current == rt.current && end.orphaned && end.timers.callbacks == []
            && end.current !in end.timers.held
  {
    var one := Dispatch(m, rt, e);
    var xs := [RunCallback(0), RunCallback(0)];
    DispatchOwns(m, rt, e);
    var t :| t in rt.timers.waiting;
    assert t == rt.timers.held[rt.current];
    assert one.timers.callbacks == [Callback(rt.current, true)];
    var two := Step(m, one, xs[0]);
    assert two.timers.callbacks == [Callback(rt.current, true)] && two.orphaned;
    var three := Step(m, two, xs[1]);
    assert three.timers.callbacks == [];
    ExecTwo(m, one, xs[0], xs[1]);
    EveryRunOwns(m, one, xs);
  }

  ghost predicate Rests(rt: Rt<RemoteState>, s: RemoteState) {
    Owned(REMOTE, rt) && !rt.exited && rt.armed && rt.current == s && rt.timers.callbacks == []
  }

  /** The everyday input: the master repeats its EndModeCommand before the remote's own timer fires. */
  lemma RepeatedEndModeLosesTimer(rt: Rt<RemoteState>)
    requires Rests(rt, EndModeReceived) && rt.timers.waiting != map[]
    ensures var end := Exec(REMOTE, rt, [Read(END_MODE_COMMAND), RunCallback(0), RunCallback(0)]);
            && Owned(REMOTE, end) && end.current == EndModeReceived && end.orphaned
            && end.timers.callbacks == [] && end.current !in end.timers.held
  {
    var xs := [Read(END_MODE_COMMAND), RunCallback(0), RunCallback(0)];
    RemoteResends();
    SelfTransitionLosesTimer(REMOTE, rt.(armed := false), EndModeCommand);
    assert xs[1..] == [RunCallback(0), RunCallback(0)];
    assert Step(REMOTE, rt, xs[0]) == Dispatch(REMOTE, rt.(armed := false), EndModeCommand);
  }

  /** A byte read that causes a transition. */
  lemma ReadEnters<S(!new)>(m: Machine<S>, rt: Rt<S>, b: Byte, e: Event)
    requires Owned(m, rt) && !rt.exited && rt.armed
    requires Decode(b) == Some(e) && e != EndTest && m.react(rt.current, e).Transit?
    ensures var one, s := Step(m, rt, Read(b)), m.react(rt.current, e).target;
            && Owned(m, one) && !one.exited && one.armed && one.current == s
            && one.timers.callbacks ==
               rt.timers.callbacks + (if rt.timers.waiting == map[] then [] else [Callback(rt.current, true)])
            && (m.kind(s) == Timed <==> one.timers.waiting != map[])
  {
    var taken := rt.(armed := false);
    assert Step(m, rt, Read(b)) == Dispatch(m, taken, e);
    DispatchOwns(m, taken, e);
    EnteringState(m, taken, e);
    LeavingQueues(m, taken);
  }

  const INTO_END_MODE: seq<Stimulus> :=
    [Read(AVAILABILITY_MODE_COMMAND), Read(MASTER_ACK), RunCallback(0), Read(END_MODE_COMMAND)]

  lemma IntoCommandReceived(rt: Rt<RemoteState>)
    requires Rests(rt, RemoteIdle)
    ensures var one := Step(REMOTE, rt, Read(AVAILABILITY_MODE_COMMAND));
            Rests(one, AvailabilityCommandReceived) && one.timers.waiting != map[]
  {
    assert rt.timers.waiting.Keys == {};
    ReadEnters(REMOTE, rt, AVAILABILITY_MODE_COMMAND, AvailabilityModeCommand);
  }

  lemma IntoMode(rt: Rt<RemoteState>)
    requires Rests(rt, AvailabilityCommandReceived) && rt.timers.waiting != map[]
    ensures Rests(Step(REMOTE, Step(REMOTE, rt, Read(MASTER_ACK)), RunCallback(0)), RemoteAvailabilityMode)
  {
    ReadEnters(REMOTE, rt, MASTER_ACK, MasterAck);
    AbortIsSpent(Step(REMOTE, rt, Read(MASTER_ACK)));
  }

  lemma OutOfMode(rt: Rt<RemoteState>)
    requires Rests(rt, RemoteAvailabilityMode)
    ensures var one := Step(REMOTE, rt, Read(END_MODE_COMMAND));
            Rests(one, EndModeReceived) && one.timers.waiting != map[]
  {
    assert rt.timers.waiting.Keys == {};
    ReadEnters(REMOTE, rt, END_MODE_COMMAND, EndModeCommand);
  }

  /** Such a remote is four stimuli away from start-up. */
  lemma EndModeIsReachable()
    ensures var rt := Exec(REMOTE, Start(REMOTE, RemoteIdle), INTO_END_MODE);
            Rests(rt, EndModeReceived) && rt.timers.waiting != map[]
  {
    var idle := Start(REMOTE, RemoteIdle);
    StartOwns(REMOTE, RemoteIdle);
    IntoCommandReceived(idle);
    var one := Step(REMOTE, idle, INTO_END_MODE[0]);
    IntoMode(one);
    OutOfMode(Step(REMOTE, Step(REMOTE, one, INTO_END_MODE[1]), INTO_END_MODE[2]));
    FourSteps(idle, INTO_END_MODE[0], INTO_END_MODE[1], INTO_END_MODE[2], INTO_END_MODE[3]);
  }

  lemma FourSteps(rt: Rt<RemoteState>, w: Stimulus, x: Stimulus, y: Stimulus, z: Stimulus)
    ensures Exec(REMOTE, rt, [w, x, y, z]) == Step(REMOTE, Step(REMOTE, Step(REMOTE, Step(REMOTE, rt, w), x), y), z)
  {
    assert [w, x, y, z][1..] == [x, y, z] && [x, y, z][1..] == [y, z];
    ExecTwo(REMOTE, Step(REMOTE, Step(REMOTE, rt, w), x), y, z);
  }

  /** The aborted callback of a state that was left finds nothing to delete. */
  lemma AbortIsSpent(rt: Rt<RemoteState>)
    requires Owned(REMOTE, rt) && !rt.exited && rt.current == RemoteAvailabilityMode
    requires rt.timers.callbacks == [Callback(AvailabilityCommandReceived, true)]
    ensures var end := Step(REMOTE, rt, RunCallback(0));
            Owned(REMOTE, end) && end == rt.(timers := rt.timers.(callbacks := []))
  {
    DroppingOther(PopCallback(rt.timers, 0), rt.current, AvailabilityCommandReceived);
  }

  /** A timed state left without a timer, and with no callback queued, never resends again on its own. */
  lemma {:induction false} LostTimerIsSilent<S(!new)>(m: Machine<S>, rt: Rt<S>, xs: seq<Stimulus>)
    requires Owned(m, rt) && m.kind(rt.current) == Timed && rt.orphaned && rt.timers.callbacks == []
    requires TimerWork(xs)
    ensures Exec(m, rt, xs) == rt
    decreases |xs|
  {
    if xs != [] {
      assert OnlyTimerWork(xs[0]);
      assert rt.timers.waiting == map[];
      assert Step(m, rt, xs[0]) == rt;
      assert forall i :: 0 <= i < |xs[1..]| ==> xs[1..][i] == xs[i + 1];
      LostTimerIsSilent(m, rt, xs[1..]);
    }
  }

  // ----- For the two machines -----

  lemma MasterKeepsTimer(xs: seq<Stimulus>)
    requires UndisturbedRun(MASTER, Start(MASTER, Idle), xs)
    ensures var end := Exec(MASTER, Start(MASTER, Idle), xs); !end.exited ==> KeepsTimer(MASTER, end)
  {
    MasterResends();
    StartKeeps(MASTER, Idle);
    UndisturbedRunsKeepTimer(MASTER, Start(MASTER, Idle), xs);
  }

  lemma RemoteKeepsTimer(xs: seq<Stimulus>)
    requires UndisturbedRun(REMOTE, Start(REMOTE, RemoteIdle), xs)
    ensures var end := Exec(REMOTE, Start(REMOTE, RemoteIdle), xs); !end.exited ==> KeepsTimer(REMOTE, end)
  {
    RemoteResends();
    StartKeeps(REMOTE, RemoteIdle);
    UndisturbedRunsKeepTimer(REMOTE, Start(REMOTE, RemoteIdle), xs);
  }
}
