/**
 The step semantics of tinyfsm (src/tinyfsm.hpp) for a machine given by a table:
 which base class each state derives from, the bytes its entry action writes,
 and its reaction to each event.
 */
module Machines {
  import opened Events

  /** The base class of a state: BaseFSM, TimerBasedState or ActivityState. */
  datatype Kind = Plain | Timed | Active

  /** A reaction writes some bytes and then transits, possibly to the same state. */
  datatype Reaction<+S> = Ignore | Transit(before: seq<Byte>, target: S)

  datatype Machine<!S> = Machine(
    kind: S -> Kind,
    greeting: S -> seq<Byte>,
    react: (S, Event) -> Reaction<S>)

  /** EndTest ends the whole process, from any state. */
  datatype Process<+S> = Running(state: S) | Exited

  datatype Outcome<+S> = Outcome(next: Process<S>, sent: seq<Byte>)

  function Next<S>(m: Machine<S>, p: Process<S>, e: Event): Outcome<S> {
    match p
    case Exited => Outcome(Exited, [])
    case Running(s) =>
      if e == EndTest then Outcome(Exited, [END_TEST])
      else
        match m.react(s, e)
        case Ignore => Outcome(p, [])
        case Transit(before, target) => Outcome(Running(target), before + m.greeting(target))
  }

  /** A whole sequence of dispatched events: the final process and everything it wrote. */
  function Run<S>(m: Machine<S>, p: Process<S>, es: seq<Event>): Outcome<S> {
    if es == [] then Outcome(p, [])
    else
      var before := Run(m, p, es[..|es| - 1]);
      var last := Next(m, before.next, es[|es| - 1]);
      Outcome(last.next, before.sent + last.sent)
  }

  /** Timers only ever resend: a timeout re-enters a timed state, whose entry writes one byte. */
  ghost predicate Resends<S(!new)>(m: Machine<S>) {
    forall s: S ::
      if m.kind(s) == Timed then m.react(s, Timeout) == Transit([], s) && |m.greeting(s)| == 1
      else m.react(s, Timeout) == Ignore
  }
}
