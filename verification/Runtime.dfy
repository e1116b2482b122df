/**
 What the states of src/BaseFSM.h own: the `_timer` of every TimerBasedState,
 the `_runnable` of every ActivityState, and the timer callbacks boost.asio
 still has to run. Deleting or cancelling a timer that is still waiting posts an
 aborted callback; a callback deletes whatever timer its state object holds by
 then. Deleting a dead timer and dereferencing a null pointer set `fault`.
 */
module Runtime {
  import opened Events
  import opened Machines

  // ----- Timers -----

  datatype Callback<+S> = Callback(owner: S, aborted: bool)

  datatype Timers<S> = Timers(
    held: map<S, nat>,     // state objects whose _timer is not null
    waiting: map<nat, S>,  // timers with a pending async_wait, and the object it is bound to
    live: set<nat>,        // timers created and not deleted
    created: nat,
    deleted: nat,
    callbacks: seq<Callback<S>>,
    fault: bool)

  function DeleteTimer<S>(ts: Timers<S>, t: nat): Timers<S> {
    if t !in ts.live then ts.(fault := true)
    else
      var aborted := if t in ts.waiting then [Callback(ts.waiting[t], true)] else [];
      ts.(live := ts.live - {t}, deleted := ts.deleted + 1,
          waiting := ts.waiting - {t}, callbacks := ts.callbacks + aborted)
  }

  function DropTimer<S>(ts: Timers<S>, owner: S): Timers<S> {
    if owner in ts.held then
      DeleteTimer(ts, ts.held[owner]).(held := ts.held - {owner})
    else ts
  }

  function StartTimer<S>(ts: Timers<S>, owner: S): Timers<S> {
    if owner in ts.held then ts
    else
      ts.(created := ts.created + 1, live := ts.live + {ts.created},
          held := ts.held[owner := ts.created], waiting := ts.waiting[ts.created := owner])
  }

  function ExpireTimer<S>(ts: Timers<S>, t: nat): Timers<S> {
    if t in ts.waiting then
      ts.(waiting := ts.waiting - {t}, callbacks := ts.callbacks + [Callback(ts.waiting[t], false)])
    else ts
  }

  function PopCallback<S>(ts: Timers<S>, index: nat): Timers<S>
    requires index < |ts.callbacks|
  {
    ts.(callbacks := ts.callbacks[..index] + ts.callbacks[index + 1..])
  }

  // ----- Activities -----

  datatype Activities<S> = Activities(
    held: map<S, nat>,     // state objects whose _runnable is not null
    live: set<nat>,        // activities created and not deleted
    created: nat,
    deleted: nat,
    fault: bool)

  function StopActivity<S>(acts: Activities<S>, owner: S): Activities<S> {
    if owner !in acts.held || acts.held[owner] !in acts.live then acts.(fault := true)
    else acts.(live := acts.live - {acts.held[owner]}, deleted := acts.deleted + 1, held := acts.held - {owner})
  }

  function StartActivity<S>(acts: Activities<S>, owner: S): Activities<S> {
    if owner in acts.held then acts
    else
      acts.(created := acts.created + 1, live := acts.live + {acts.created},
            held := acts.held[owner := acts.created])
  }

  // ----- The machine -----

  datatype Rt<S> = Rt(
    current: S,
    exited: bool,
    output: seq<Byte>,
    armed: bool,            // a read posted by the current state is outstanding
    timers: Timers<S>,
    activities: Activities<S>,
    orphaned: bool,         // an aborted callback of the current object ran since its last entry
    dispatched: seq<Event>)

  function Leave<S>(m: Machine<S>, rt: Rt<S>): Rt<S> {
    match m.kind(rt.current)
    case Plain => rt
    case Timed => rt.(timers := DropTimer(rt.timers, rt.current))
    case Active => rt.(activities := StopActivity(rt.activities, rt.current))
  }

  function Enter<S>(m: Machine<S>, rt: Rt<S>, s: S): Rt<S> {
    var at := rt.(current := s, output := rt.output + m.greeting(s), armed := true, orphaned := false);
    match m.kind(s)
    case Plain => at
    case Timed => at.(timers := StartTimer(rt.timers, s))
    case Active => at.(activities := StartActivity(rt.activities, s))
  }

  function Send<S>(rt: Rt<S>, bytes: seq<Byte>): Rt<S> {
    rt.(output := rt.output + bytes)
  }

  function Carry<S>(m: Machine<S>, rt: Rt<S>, reaction: Reaction<S>): Rt<S> {
    match reaction
    case Ignore => rt
    case Transit(before, target) => Enter(m, Leave(m, Send(rt, before)), target)
  }

  function Dispatch<S>(m: Machine<S>, rt: Rt<S>, e: Event): Rt<S> {
    if rt.exited then rt
    else
      var noted := rt.(dispatched := rt.dispatched + [e]);
      if e == EndTest then Send(noted, [END_TEST]).(exited := true)
      else Carry(m, noted, m.react(rt.current, e))
  }

  function Blank<S>(s: S): Rt<S> {
    Rt(s, false, [], false, Timers(map[], map[], {}, 0, 0, [], false), Activities(map[], {}, 0, 0, false), false, [])
  }

  function Start<S>(m: Machine<S>, s: S): Rt<S> {
    Enter(m, Blank(s), s)
  }

  // ----- What the outside does to a machine -----

  datatype Stimulus =
    | Local(event: Event)      // an event dispatched by a script, a controller or an activity
    | Read(byte: Byte)         // the read posted by the current state completes
    | Expire(timer: nat)       // a waiting timer reaches its date: success is queued
    | RunCallback(index: nat)  // any queued timer callback runs, in any order

  function ReadByte<S>(m: Machine<S>, rt: Rt<S>, b: Byte): Rt<S> {
    if rt.exited || !rt.armed then rt
    else
      var taken := rt.(armed := false);
      match Decode(b)
      case None => taken
      case Some(e) => Dispatch(m, taken, e)
  }

  function DispatchTimeout<S>(m: Machine<S>, rt: Rt<S>, index: nat): Rt<S> {
    if rt.exited || index >= |rt.timers.callbacks| then rt
    else
      var cb := rt.timers.callbacks[index];
      var dropped := DropTimer(PopCallback(rt.timers, index), cb.owner);
      if cb.aborted then rt.(timers := dropped, orphaned := rt.orphaned || cb.owner == rt.current)
      else Dispatch(m, rt.(timers := dropped), Timeout)
  }

  function Step<S>(m: Machine<S>, rt: Rt<S>, x: Stimulus): Rt<S> {
    match x
    case Local(e) => Dispatch(m, rt, e)
    case Read(b) => ReadByte(m, rt, b)
    case Expire(t) => rt.(timers := ExpireTimer(rt.timers, t))
    case RunCallback(i) => DispatchTimeout(m, rt, i)
  }

  function Exec<S>(m: Machine<S>, rt: Rt<S>, xs: seq<Stimulus>): Rt<S>
    decreases |xs|
  {
    if xs == [] then rt else Exec(m, Step(m, rt, xs[0]), xs[1..])
  }

  function ProcessOf<S>(rt: Rt<S>): Process<S> {
    if rt.exited then Exited else Running(rt.current)
  }
}
