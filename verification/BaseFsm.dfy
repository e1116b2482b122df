/**
 The mutable machine behind src/BaseFSM.h and src/tinyfsm.hpp: the static current
 state and stream, the timers and the activities its state objects own. Every
 method is proved against the corresponding function of module Runtime.
 */
module BaseFsm {
  import opened Events
  import opened Runtime

  class Fsm<S(==)> {
    var current: S
    var exited: bool
    var output: seq<Byte>
    var armed: bool
    var timers: Timers<S>
    var activities: Activities<S>
    ghost var orphaned: bool
    ghost var dispatched: seq<Event>

    ghost function View(): Rt<S>
      reads this
    {
      Rt(current, exited, output, armed, timers, activities, orphaned, dispatched)
    }

    constructor (initial: S)
      ensures View() == Blank(initial)
    {
      current, exited, output, armed := initial, false, [], false;
      timers := Timers(map[], map[], {}, 0, 0, [], false);
      activities := Activities(map[], {}, 0, 0, false);
      orphaned, dispatched := false, [];
    }

    // ----- BaseFSM -----

    method SendByte(b: Byte)
      modifies this`output
      ensures output == old(output) + [b]
    {
      output := output + [b];
    }

    method PostRead()
      modifies this`armed
      ensures armed
    {
      armed := true;
    }

    // ----- TimerBasedState -----

    /** Deleting a timer that still waits posts an aborted callback. */
    method Delete(t: nat)
      modifies this`timers
      ensures timers == DeleteTimer(old(timers), t)
    {
      if t !in timers.live {
        timers := timers.(fault := true);
        return;
      }
      if t in timers.waiting {
        var cb := Callback(timers.waiting[t], true);
        timers := timers.(callbacks := timers.callbacks + [cb], waiting := timers.waiting - {t});
      }
      timers := timers.(live := timers.live - {t}, deleted := timers.deleted + 1);
      assert t !in old(timers).waiting ==> old(timers).waiting - {t} == old(timers).waiting;
      assert old(timers).callbacks + [] == old(timers).callbacks;
    }

    method StartTimer(owner: S)
      modifies this`timers
      ensures timers == Runtime.StartTimer(old(timers), owner)
    {
      if owner !in timers.held {
        var t := timers.created;
        timers := timers.(created := t + 1, live := timers.live + {t});
        timers := timers.(held := timers.held[owner := t]);
        timers := timers.(waiting := timers.waiting[t := owner]);
      }
    }

    method CancelTimer(owner: S)
      modifies this`timers
      ensures timers == DropTimer(old(timers), owner)
    {
      if owner in timers.held {
        Delete(timers.held[owner]);
        timers := timers.(held := timers.held - {owner});
      }
    }

    method TimedEntry(owner: S)
      modifies this`armed, this`timers
      ensures armed && timers == Runtime.StartTimer(old(timers), owner)
    {
      PostRead();
      StartTimer(owner);
    }

    method TimedExit(owner: S)
      modifies this`timers
      ensures timers == DropTimer(old(timers), owner)
    {
      CancelTimer(owner);
    }

    method Expire(t: nat)
      modifies this`timers
      ensures timers == ExpireTimer(old(timers), t)
    {
      if t in timers.waiting {
        var cb := Callback(timers.waiting[t], false);
        timers := timers.(callbacks := timers.callbacks + [cb]);
        timers := timers.(waiting := timers.waiting - {t});
      }
    }

    /** The part of dispatchTimeout before its dispatch; says whether a Timeout is to be dispatched. */
    method TakeCallback(index: nat) returns (timedOut: bool)
      requires !exited && index < |timers.callbacks|
      modifies this`timers, this`orphaned
      ensures var cb := old(timers).callbacks[index];
              && timedOut == !cb.aborted
              && timers == DropTimer(PopCallback(old(timers), index), cb.owner)
              && orphaned == (old(orphaned) || (cb.aborted && cb.owner == current))
    {
      var cb := timers.callbacks[index];
      timers := timers.(callbacks := timers.callbacks[..index] + timers.callbacks[index + 1..]);
      CancelTimer(cb.owner);
      orphaned := orphaned || (cb.aborted && cb.owner == current);
      timedOut := !cb.aborted;
    }

    // ----- ActivityState -----

    method ActivityExit(owner: S)
      modifies this`activities
      ensures activities == StopActivity(old(activities), owner)
    {
      if owner !in activities.held || activities.held[owner] !in activities.live {
        activities := activities.(fault := true);
        return;
      }
      var a := activities.held[owner];
      activities := activities.(live := activities.live - {a}, deleted := activities.deleted + 1);
      activities := activities.(held := activities.held - {owner});
    }

    method ActivityEntry(owner: S)
      modifies this`armed, this`activities
      ensures armed && activities == StartActivity(old(activities), owner)
    {
      if owner !in activities.held {
        var a := activities.created;
        activities := activities.(created := a + 1, live := activities.live + {a});
        activities := activities.(held := activities.held[owner := a]);
      }
      PostRead();
    }
  }
}
