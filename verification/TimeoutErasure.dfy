/**
 Timeouts never steer a machine: erasing them all from a run leaves the final
 state unchanged, and the original output is the erased run's output with some
 bytes repeated in place.
 */
module TimeoutErasure {
  import opened Events
  import opened Machines

  function Erase(es: seq<Event>): seq<Event> {
    if es == [] then []
    else
      var e := es[|es| - 1];
      Erase(es[..|es| - 1]) + (if e == Timeout then [] else [e])
  }

  /** base with its i-th byte written 1 + extra[i] times. */
  function Stretch(base: seq<Byte>, extra: seq<nat>): seq<Byte>
    requires |base| == |extra|
  {
    if base == [] then []
    else
      var n := |base| - 1;
      Stretch(base[..n], extra[..n]) + seq(1 + extra[n], i => base[n])
  }

  function Total(extra: seq<nat>): nat {
    if extra == [] then 0 else Total(extra[..|extra| - 1]) + extra[|extra| - 1]
  }

  /** How many timeouts of the run hit a state that has a timer. */
  function Resent<S>(m: Machine<S>, p: Process<S>, es: seq<Event>): nat {
    if es == [] then 0
    else
      var before := es[..|es| - 1];
      var q := Run(m, p, before).next;
      Resent(m, p, before) +
      (if es[|es| - 1] == Timeout && q.Running? && m.kind(q.state) == Timed then 1 else 0)
  }

  /** The process has just written the greeting of the timed state it is in. */
  predicate JustGreeted<S>(m: Machine<S>, p: Process<S>, sent: seq<Byte>) {
    p.Running? && m.kind(p.state) == Timed ==>
      sent != [] && |m.greeting(p.state)| == 1 && sent[|sent| - 1] == m.greeting(p.state)[0]
  }

  lemma {:induction false} StretchAppend(base: seq<Byte>, extra: seq<nat>, more: seq<Byte>)
    requires |base| == |extra|
    ensures var zeros := seq(|more|, i => 0);
            Stretch(base + more, extra + zeros) == Stretch(base, extra) + more
            && Total(extra + zeros) == Total(extra)
  {
    var zeros := seq(|more|, i => 0);
    if more == [] {
      assert base + more == base && extra + zeros == extra;
    } else {
      var n := |more| - 1;
      var all, allExtra := base + more, extra + zeros;
      assert zeros[..n] == seq(n, i => 0);
      assert all[..|all| - 1] == base + more[..n];
      assert allExtra[..|all| - 1] == extra + zeros[..n];
      StretchAppend(base, extra, more[..n]);
      assert seq(1 + allExtra[|all| - 1], i => all[|all| - 1]) == [more[n]];
      assert more[..n] + [more[n]] == more;
    }
  }

  lemma StretchLast(base: seq<Byte>, extra: seq<nat>)
    requires |base| == |extra| && base != []
    ensures var n := |base| - 1;
            Stretch(base, extra[n := extra[n] + 1]) == Stretch(base, extra) + [base[n]]
            && Total(extra[n := extra[n] + 1]) == Total(extra) + 1
  {
    var n := |base| - 1;
    assert extra[n := extra[n] + 1][..n] == extra[..n];
    assert seq(2 + extra[n], i => base[n]) == seq(1 + extra[n], i => base[n]) + [base[n]];
  }

  lemma GreetedAfter<S(!new)>(m: Machine<S>, p: Process<S>, e: Event, sent: seq<Byte>)
    requires Resends(m) && JustGreeted(m, p, sent)
    ensures JustGreeted(m, Next(m, p, e).next, sent + Next(m, p, e).sent)
  {
  }

  lemma TimeoutOnly<S(!new)>(m: Machine<S>, p: Process<S>, sent: seq<Byte>)
    requires Resends(m) && JustGreeted(m, p, sent)
    ensures Next(m, p, Timeout).next == p
    ensures if p.Running? && m.kind(p.state) == Timed
            then sent != [] && Next(m, p, Timeout).sent == [sent[|sent| - 1]]
            else Next(m, p, Timeout).sent == []
  {
    if p.Running? && m.kind(p.state) == Timed {
      assert m.greeting(p.state) == [m.greeting(p.state)[0]];
    }
  }

  lemma EraseLast(es: seq<Event>)
    requires es != []
    ensures var init, e := es[..|es| - 1], es[|es| - 1];
            if e == Timeout then Erase(es) == Erase(init)
            else Erase(es) != [] && Erase(es)[..|Erase(es)| - 1] == Erase(init) && Erase(es)[|Erase(es)| - 1] == e
  {
  }

  /** One more event keeps the correspondence between a run and its erased run. */
  lemma ErasingStep<S(!new)>(m: Machine<S>, q: Process<S>, full: seq<Byte>, kept: seq<Byte>,
                             shorter: seq<nat>, e: Event)
    returns (extra: seq<nat>)
    requires Resends(m) && JustGreeted(m, q, kept)
    requires |shorter| == |kept| && full == Stretch(kept, shorter)
    ensures var hit := e == Timeout && q.Running? && m.kind(q.state) == Timed;
            var out := Next(m, q, e);
            var kept' := if e == Timeout then kept else kept + out.sent;
            && JustGreeted(m, out.next, kept')
            && (e == Timeout ==> out.next == q)
            && |extra| == |kept'| && full + out.sent == Stretch(kept', extra)
            && Total(extra) == Total(shorter) + (if hit then 1 else 0)
  {
    var out := Next(m, q, e);
    if e == Timeout {
      TimeoutOnly(m, q, kept);
      if q.Running? && m.kind(q.state) == Timed {
        StretchLast(kept, shorter);
        var n := |shorter| - 1;
        extra := shorter[n := shorter[n] + 1];
      } else {
        extra := shorter;
        assert full + [] == full;
      }
    } else {
      GreetedAfter(m, q, e, kept);
      StretchAppend(kept, shorter, out.sent);
      extra := shorter + seq(|out.sent|, i => 0);
    }
  }

  /** Erasing every timeout keeps the final state; the output only loses in-place repetitions. */
  lemma {:induction false} ErasingTimeouts<S(!new)>(m: Machine<S>, p: Process<S>, es: seq<Event>)
    returns (extra: seq<nat>)
    requires Resends(m) && JustGreeted(m, p, [])
    ensures Run(m, p, es).next == Run(m, p, Erase(es)).next
    ensures |extra| == |Run(m, p, Erase(es)).sent|
    ensures Run(m, p, es).sent == Stretch(Run(m, p, Erase(es)).sent, extra)
    ensures Total(extra) == Resent(m, p, es)
    ensures JustGreeted(m, Run(m, p, Erase(es)).next, Run(m, p, Erase(es)).sent)
    decreases |es|
  {
    if es == [] {
      extra := [];
    } else {
      var init, e := es[..|es| - 1], es[|es| - 1];
      var shorter := ErasingTimeouts(m, p, init);
      EraseLast(es);
      var kept, full := Run(m, p, Erase(init)), Run(m, p, init);
      extra := ErasingStep(m, kept.next, full.sent, kept.sent, shorter, e);
    }
  }

  /** sent is base with n extra bytes, each a copy of the byte it stands next to. */
  ghost predicate RepeatsInPlace(sent: seq<Byte>, base: seq<Byte>, n: nat) {
    exists extra: seq<nat> :: |extra| == |base| && sent == Stretch(base, extra) && Total(extra) == n
  }

  lemma TimeoutsOnlyRepeat<S(!new)>(m: Machine<S>, s: S, es: seq<Event>)
    requires Resends(m) && m.kind(s) != Timed
    ensures var full, erased := Run(m, Running(s), es), Run(m, Running(s), Erase(es));
            full.next == erased.next
            && RepeatsInPlace(full.sent, erased.sent, Resent(m, Running(s), es))
  {
    var extra := ErasingTimeouts(m, Running(s), es);
  }
}
