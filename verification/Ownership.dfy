/** Timer and activity ownership, over every order of events, expiries and late callbacks. */
module Ownership {
  import opened Events
  import opened Machines
  import opened Runtime

  /** At most one live timer, held by the current state object s; none freed twice or leaked. */
  ghost predicate TimersOwned<S(!new)>(ts: Timers<S>, s: S) {
    && !ts.fault
    && ts.held.Keys <= {s}
    && ts.live == (if s in ts.held then {ts.held[s]} else {})
    && ts.waiting.Keys <= ts.live
    && (forall t :: t in ts.waiting ==> ts.waiting[t] == s)
    && (s in ts.held ==> ts.held[s] < ts.created)
    && ts.created == ts.deleted + |ts.live|
  }

  /** At most one activity alive, held by the current state object s; none leaked. */
  ghost predicate ActivitiesOwned<S(!new)>(acts: Activities<S>, s: S) {
    && !acts.fault
    && acts.held.Keys <= {s}
    && acts.live == (if s in acts.held then {acts.held[s]} else {})
    && (s in acts.held ==> acts.held[s] < acts.created)
    && acts.created == acts.deleted + |acts.live|
  }

  /**
   Nothing is freed twice, leaked or dereferenced through null; an activity is
   alive exactly in an activity state; and a timed state has lost its timer
   exactly when an aborted callback of its own object ran since its last entry.
   */
  ghost predicate Owned<S(!new)>(m: Machine<S>, rt: Rt<S>) {
    && TimersOwned(rt.timers, rt.current)
    && ActivitiesOwned(rt.activities, rt.current)
    && (rt.current in rt.activities.held <==> m.kind(rt.current) == Active)
    && (rt.current in rt.timers.held <==> m.kind(rt.current) == Timed && !rt.orphaned)
  }

  /** What holds between leaving one state and entering the next: nothing is owned, by anyone. */
  ghost predicate NoTimer<S(!new)>(ts: Timers<S>) {
    !ts.fault && ts.held == map[] && ts.live == {} && ts.waiting == map[] && ts.created == ts.deleted
  }

  ghost predicate NoActivity<S(!new)>(acts: Activities<S>) {
    !acts.fault && acts.held == map[] && acts.live == {} && acts.created == acts.deleted
  }

  lemma DroppingOwn<S(!new)>(ts: Timers<S>, s: S)
    requires TimersOwned(ts, s)
    ensures NoTimer(DropTimer(ts, s))
  {
    var left := DropTimer(ts, s);
    assert left.held.Keys == {};
    assert left.waiting.Keys == {};
  }

  lemma DroppingOther<S(!new)>(ts: Timers<S>, s: S, owner: S)
    requires TimersOwned(ts, s) && owner != s
    ensures DropTimer(ts, owner) == ts
  {
  }

  lemma StartingTimer<S(!new)>(ts: Timers<S>, s: S)
    requires NoTimer(ts)
    ensures TimersOwned(StartTimer(ts, s), s) && s in StartTimer(ts, s).held
  {
    assert StartTimer(ts, s).live == {ts.created};
  }

  lemma StoppingOwn<S(!new)>(acts: Activities<S>, s: S)
    requires ActivitiesOwned(acts, s) && s in acts.held
    ensures NoActivity(StopActivity(acts, s))
  {
    assert StopActivity(acts, s).held.Keys == {};
  }

  lemma StartingActivity<S(!new)>(acts: Activities<S>, s: S)
    requires NoActivity(acts)
    ensures ActivitiesOwned(StartActivity(acts, s), s) && s in StartActivity(acts, s).held
  {
    assert StartActivity(acts, s).live == {acts.created};
  }

  /** Entering an object that already holds its timer or its activity creates no second one. */
  lemma HeldIsKept<S(!new)>(ts: Timers<S>, acts: Activities<S>, s: S)
    ensures s in ts.held ==> StartTimer(ts, s) == ts
    ensures s in acts.held ==> StartActivity(acts, s) == acts
    ensures StartTimer(StartTimer(ts, s), s) == StartTimer(ts, s)
    ensures StartActivity(StartActivity(acts, s), s) == StartActivity(acts, s)
  {
  }

  /** Owned, except that a callback may just have deleted the current timer. */
  ghost predicate Leavable<S(!new)>(m: Machine<S>, rt: Rt<S>) {
    && TimersOwned(rt.timers, rt.current)
    && ActivitiesOwned(rt.activities, rt.current)
    && (rt.current in rt.activities.held <==> m.kind(rt.current) == Active)
    && (rt.current in rt.timers.held ==> m.kind(rt.current) == Timed)
  }

  lemma LeavingFreesAll<S(!new)>(m: Machine<S>, rt: Rt<S>)
    requires Leavable(m, rt)
    ensures NoTimer(Leave(m, rt).timers) && NoActivity(Leave(m, rt).activities)
  {
    if m.kind(rt.current) == Active {
      StoppingOwn(rt.activities, rt.current);
    } else {
      assert rt.activities.held.Keys == {};
    }
    if m.kind(rt.current) == Timed {
      DroppingOwn(rt.timers, rt.current);
    } else {
      assert rt.timers.held.Keys == {} && rt.timers.waiting.Keys == {};
    }
  }

  lemma EnteringOwns<S(!new)>(m: Machine<S>, rt: Rt<S>, s: S)
    requires NoTimer(rt.timers) && NoActivity(rt.activities)
    ensures Owned(m, Enter(m, rt, s))
  {
    StartingTimer(rt.timers, s);
    StartingActivity(rt.activities, s);
  }

  lemma TransitOwns<S(!new)>(m: Machine<S>, rt: Rt<S>, target: S)
    requires Leavable(m, rt)
    ensures Owned(m, Enter(m, Leave(m, rt), target))
  {
    LeavingFreesAll(m, rt);
    EnteringOwns(m, Leave(m, rt), target);
  }

  lemma DispatchOwns<S(!new)>(m: Machine<S>, rt: Rt<S>, e: Event)
    requires Leavable(m, rt)
    ensures Owned(m, rt) || (!rt.exited && e != EndTest && m.react(rt.current, e).Transit?)
            ==> Owned(m, Dispatch(m, rt, e))
  {
    if !rt.exited && e != EndTest && m.react(rt.current, e).Transit? {
      var Transit(before, target) := m.react(rt.current, e);
      var sent := Send(rt.(dispatched := rt.dispatched + [e]), before);
      assert Leavable(m, sent);
      TransitOwns(m, sent, target);
    }
  }

  lemma CallbackOwns<S(!new)>(m: Machine<S>, rt: Rt<S>, index: nat)
    requires Resends(m) && Owned(m, rt)
    ensures Owned(m, DispatchTimeout(m, rt, index))
  {
    if !rt.exited && index < |rt.timers.callbacks| {
      var cb := rt.timers.callbacks[index];
      var popped := PopCallback(rt.timers, index);
      var dropped := DropTimer(popped, cb.owner);
      if cb.owner == rt.current {
        DroppingOwn(popped, rt.current);
      } else {
        DroppingOther(popped, rt.current, cb.owner);
      }
      if !cb.aborted {
        DispatchOwns(m, rt.(timers := dropped), Timeout);
      }
    }
  }

  lemma StepOwns<S(!new)>(m: Machine<S>, rt: Rt<S>, x: Stimulus)
    requires Resends(m) && Owned(m, rt)
    ensures Owned(m, Step(m, rt, x))
  {
    match x
    case Local(e) => DispatchOwns(m, rt, e);
    case Read(b) =>
      if !rt.exited && rt.armed && Decode(b).Some? {
        DispatchOwns(m, rt.(armed := false), Decode(b).value);
      }
    case Expire(t) =>
    case RunCallback(i) => CallbackOwns(m, rt, i);
  }

  /** Over every run: no double free, no null dereference, no leak, one owner. */
  lemma {:induction false} EveryRunOwns<S(!new)>(m: Machine<S>, rt: Rt<S>, xs: seq<Stimulus>)
    requires Resends(m) && Owned(m, rt)
    ensures Owned(m, Exec(m, rt, xs))
    decreases |xs|
  {
    if xs != [] {
      StepOwns(m, rt, xs[0]);
      EveryRunOwns(m, Step(m, rt, xs[0]), xs[1..]);
    }
  }

  lemma StartOwns<S(!new)>(m: Machine<S>, s: S)
    ensures Owned(m, Start(m, s))
  {
    EnteringOwns(m, Blank(s), s);
  }

  // ----- The runtime refines the table -----

  /** The visible machine is its table run over the events dispatched so far. */
  ghost predicate FollowsTable<S(!new)>(m: Machine<S>, s: S, rt: Rt<S>) {
    Run(m, Running(s), rt.dispatched) == Outcome(ProcessOf(rt), rt.output)
  }

  lemma RunSnoc<S(!new)>(m: Machine<S>, p: Process<S>, es: seq<Event>, e: Event)
    ensures var before := Run(m, p, es);
            var last := Next(m, before.next, e);
            Run(m, p, es + [e]) == Outcome(last.next, before.sent + last.sent)
  {
    assert (es + [e])[..|es|] == es;
  }

  lemma DispatchIsNext<S(!new)>(m: Machine<S>, rt: Rt<S>, e: Event)
    requires !rt.exited
    ensures var next := Next(m, Running(rt.current), e);
            var end := Dispatch(m, rt, e);
            && ProcessOf(end) == next.next
            && end.output == rt.output + next.sent
            && end.dispatched == rt.dispatched + [e]
  {
    if e != EndTest && m.react(rt.current, e).Transit? {
      var Transit(before, target) := m.react(rt.current, e);
      assert rt.output + before + m.greeting(target) == rt.output + (before + m.greeting(target));
    }
  }

  lemma DispatchFollows<S(!new)>(m: Machine<S>, s: S, rt: Rt<S>, e: Event)
    requires FollowsTable(m, s, rt)
    ensures FollowsTable(m, s, Dispatch(m, rt, e))
  {
    if !rt.exited {
      DispatchIsNext(m, rt, e);
      RunSnoc(m, Running(s), rt.dispatched, e);
    }
  }

  lemma StepFollows<S(!new)>(m: Machine<S>, s: S, rt: Rt<S>, x: Stimulus)
    requires FollowsTable(m, s, rt)
    ensures FollowsTable(m, s, Step(m, rt, x))
  {
    match x
    case Local(e) => DispatchFollows(m, s, rt, e);
    case Read(b) =>
      if !rt.exited && rt.armed && Decode(b).Some? {
        DispatchFollows(m, s, rt.(armed := false), Decode(b).value);
      }
    case Expire(t) =>
    case RunCallback(i) =>
      if !rt.exited && i < |rt.timers.callbacks| {
        var dropped := DropTimer(PopCallback(rt.timers, i), rt.timers.callbacks[i].owner);
        DispatchFollows(m, s, rt.(timers := dropped), Timeout);
      }
  }

  /** Timers, late callbacks and reads never steer a machine by themselves. */
  lemma {:induction false} EveryRunFollowsTable<S(!new)>(m: Machine<S>, s: S, rt: Rt<S>, xs: seq<Stimulus>)
    requires FollowsTable(m, s, rt)
    ensures FollowsTable(m, s, Exec(m, rt, xs))
    decreases |xs|
  {
    if xs != [] {
      StepFollows(m, s, rt, xs[0]);
      EveryRunFollowsTable(m, s, Step(m, rt, xs[0]), xs[1..]);
    }
  }
}
