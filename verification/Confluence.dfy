/**
 Deliveries commute whoever reads each byte. Which of two outstanding reads takes a
 byte decides what payload is echoed and which reads stay posted, but never the
 states, the handshake bytes or where the system comes to rest.
 */
module Confluence {
  import opened Events
  import opened Machines
  import opened RemoteFsm
  import opened Handshake
  import opened Quiescence
  import ReaderIndependence

  predicate IsEvent(reply: Reply) {
    reply.One? && Decode(reply.byte).Some?
  }

  function EventsOf(q: seq<Reply>): seq<Reply> {
    if q == [] then [] else (if IsEvent(q[0]) then [q[0]] else []) + EventsOf(q[1..])
  }

  /** What the readers cannot change: both machines, the forward line, and the events on their way back. */
  function Core(s: System): System {
    s.(reverse := EventsOf(s.reverse), masterArmed := false, remoteArmed := false)
  }

  lemma {:induction false} EventsConcat(a: seq<Reply>, b: seq<Reply>)
    ensures EventsOf(a + b) == EventsOf(a) + EventsOf(b)
  {
    if a == [] {
      assert a + b == b;
    } else {
      var head := if IsEvent(a[0]) then [a[0]] else [];
      assert (a + b)[1..] == a[1..] + b && (a + b)[0] == a[0];
      EventsConcat(a[1..], b);
      assert EventsOf(a + b) == head + (EventsOf(a[1..]) + EventsOf(b));
    }
  }

  lemma {:induction false} EventsTwice(q: seq<Reply>)
    ensures EventsOf(EventsOf(q)) == EventsOf(q)
  {
    if q != [] {
      EventsTwice(q[1..]);
      if IsEvent(q[0]) {
        assert EventsOf(q)[1..] == EventsOf(q[1..]);
      } else {
        assert EventsOf(q) == EventsOf(q[1..]);
      }
    }
  }

  lemma {:induction false} EventsWeighLess(q: seq<Reply>)
    ensures ReverseEnergy(EventsOf(q)) <= ReverseEnergy(q)
  {
    if q != [] {
      EventsWeighLess(q[1..]);
      if IsEvent(q[0]) {
        assert EventsOf(q)[1..] == EventsOf(q[1..]);
      } else {
        assert EventsOf(q) == EventsOf(q[1..]);
      }
    }
  }

  /** Both readers write the same events. */
  lemma SameEvents(p: Process<RemoteState>, b: Byte, reader: Reader)
    requires p.Running?
    ensures EventsOf(RemoteTurn(p, b, reader).writes) == EventsOf(RemoteTurn(p, b, StateReader).writes)
  {
    var writes, others := RemoteTurn(p, b, reader).writes, RemoteTurn(p, b, StateReader).writes;
    assert |writes| <= 1 && |others| <= 1;
    assert |writes| == 1 ==> writes[1..] == [];
    assert |others| == 1 ==> others[1..] == [];
  }

  lemma CoreForward(s: System, reader: Reader)
    requires CanReadForward(s)
    ensures CanReadForward(Core(s)) && Core(ReadForward(s, reader)) == Core(ReadForward(Core(s), StateReader))
  {
    var b := s.forward[0].byte;
    var writes, others := RemoteTurn(s.remote, b, reader).writes, RemoteTurn(s.remote, b, StateReader).writes;
    ReaderIndependence.RemoteTurnsAgree(s.remote, b, reader, StateReader);
    SameEvents(s.remote, b, reader);
    EventsConcat(s.reverse, writes);
    EventsConcat(EventsOf(s.reverse), others);
    EventsTwice(s.reverse);
  }

  lemma CoreReverse(s: System, reader: Reader)
    requires CanReadReverse(s)
    ensures if IsEvent(s.reverse[0])
            then CanReadReverse(Core(s)) && Core(ReadReverse(s, reader)) == Core(ReadReverse(Core(s), StateReader))
            else Core(ReadReverse(s, reader)) == Core(s)
  {
    ReaderIndependence.MasterTurnsAgree(s.master, s.reverse[0], reader, StateReader);
    EventsTwice(s.reverse[1..]);
    if IsEvent(s.reverse[0]) {
      assert EventsOf(s.reverse)[1..] == EventsOf(s.reverse[1..]);
    } else {
      assert s.forward + [] == s.forward;
    }
  }

  function NextForward(c: System): System
    requires CanReadForward(c)
  {
    Core(ReadForward(c, StateReader))
  }

  function NextReverse(c: System): System
    requires CanReadReverse(c)
  {
    Core(ReadReverse(c, StateReader))
  }

  lemma NextSpends(c: System)
    ensures CanReadForward(c) ==> Energy(NextForward(c)) < Energy(c)
    ensures CanReadReverse(c) ==> Energy(NextReverse(c)) < Energy(c)
  {
    DeliverySpends(c, StateReader);
    if CanReadForward(c) {
      EventsWeighLess(ReadForward(c, StateReader).reverse);
    }
    if CanReadReverse(c) {
      EventsWeighLess(ReadReverse(c, StateReader).reverse);
    }
  }

  /** Where a core comes to rest. */
  function Settle(c: System): System
    decreases Energy(c)
  {
    NextSpends(c);
    if CanReadForward(c) then Settle(NextForward(c))
    else if CanReadReverse(c) then Settle(NextReverse(c))
    else c
  }

  lemma NextsCommute(c: System)
    requires CanReadForward(c) && CanReadReverse(c) && IsEvent(c.reverse[0])
    ensures CanReadForward(NextReverse(c)) && CanReadReverse(NextForward(c))
    ensures NextForward(NextReverse(c)) == NextReverse(NextForward(c))
  {
    DeliveriesCommute(c, StateReader, StateReader);
    CoreForward(ReadReverse(c, StateReader), StateReader);
    CoreReverse(ReadForward(c, StateReader), StateReader);
  }

  lemma {:induction false} EventsAreEvents(q: seq<Reply>)
    ensures forall x :: x in EventsOf(q) ==> IsEvent(x)
  {
    if q != [] {
      EventsAreEvents(q[1..]);
    }
  }

  lemma {:induction false} SettleAbsorbsReverse(c: System)
    requires CanReadReverse(c) && forall x :: x in c.reverse ==> IsEvent(x)
    ensures Settle(NextReverse(c)) == Settle(c)
    decreases Energy(c)
  {
    if CanReadForward(c) {
      assert c.reverse[0] in c.reverse;
      NextsCommute(c);
      NextSpends(c);
      EventsAreEvents(ReadForward(c, StateReader).reverse);
      SettleAbsorbsReverse(NextForward(c));
    }
  }

  /** Every order of deliveries, each to either reader, that runs to rest ends with the same core. */
  lemma {:induction false} ReadersDoNotMatter(s: System, ds: seq<Label>)
    requires OnlyDeliveries(s, ds) && AtRest(Exec(s, ds))
    ensures Core(Exec(s, ds)) == Settle(Core(s))
    decreases |ds|
  {
    if ds != [] {
      var d := ds[0];
      ReadersDoNotMatter(Step(s, d), ds[1..]);
      if d.DeliverForward? {
        CoreForward(s, d.reader);
      } else {
        CoreReverse(s, d.reader);
        if IsEvent(s.reverse[0]) {
          EventsAreEvents(s.reverse);
          SettleAbsorbsReverse(Core(s));
        }
      }
    }
  }

  /** Any two ways of delivering what is in flight end with both machines in the same states. */
  lemma RestIsDetermined(s: System, some: seq<Label>, others: seq<Label>)
    requires OnlyDeliveries(s, some) && AtRest(Exec(s, some))
    requires OnlyDeliveries(s, others) && AtRest(Exec(s, others))
    ensures var a, b := Exec(s, some), Exec(s, others);
            a.master == b.master && a.remote == b.remote && a.forward == b.forward
  {
    ReadersDoNotMatter(s, some);
    ReadersDoNotMatter(s, others);
  }
}
