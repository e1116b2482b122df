/**
 When the remote keeps hearing. A read that causes no transition in RemoteIdle leaves
 the remote without a read for good. On a forward line that neither loses nor repeats,
 this is the doing of one branch of the master alone: answering an ack while idle.
 */
module Hearing {
  import opened Events
  import opened Machines
  import opened MasterFsm
  import opened RemoteFsm
  import opened Handshake
  import opened Lockstep
  import opened Traps
  import Quiescence

  /** No byte queued will be read in RemoteIdle without moving the remote on. */
  ghost predicate IdleHears(s: System) {
    forall i :: 0 <= i < |s.forward| && After(s.remote, s.forward[..i]) == Running(RemoteIdle) ==>
      WakesIdle(s.forward[i].byte)
  }

  ghost predicate HearingWell(s: System) {
    InLockstep(s) && PayloadPlaced(s) && IdleHears(s) && !Deaf(s)
  }

  /** The master answers an ack although it is idle. */
  predicate LateAck(s: System, l: Label) {
    && s.master == Running(Idle)
    && (l == Local(RemoteAck) || (l.DeliverReverse? && s.reverse != [] && s.reverse[0] == ACK))
  }

  predicate NoLateAck(s: System, ls: seq<Label>)
    decreases |ls|
  {
    ls == [] || (!LateAck(s, ls[0]) && NoLateAck(Step(s, ls[0]), ls[1..]))
  }

  // ----- Without late acks the remote never goes deaf -----

  lemma HearsAppended(s: System, t: System, cells: seq<Cell>)
    requires IdleHears(s) && t.remote == s.remote && t.forward == s.forward + cells && |cells| <= 1
    requires cells != [] && After(s.remote, s.forward) == Running(RemoteIdle) ==> WakesIdle(cells[0].byte)
    ensures IdleHears(t)
  {
    forall i | 0 <= i < |t.forward|
      ensures t.forward[..i] == if i <= |s.forward| then s.forward[..i] else t.forward[..i]
    {
    }
    assert s.forward[..|s.forward|] == s.forward;
  }

  lemma HearsTail(s: System, t: System)
    requires IdleHears(s) && s.forward != []
    requires t.forward == s.forward[1..] && t.remote == Consume(s.remote, s.forward[0].byte)
    ensures IdleHears(t)
  {
    TailAfter(s, t);
  }

  /** The master writes into a remote that will be idle only when it starts something, ends, or answers late. */
  lemma MasterWakes(s: System, e: Event, t: System)
    requires s.master.Running? && InLockstep(s) && IdleHears(s)
    requires s.master == Running(Idle) ==> e != RemoteAck
    requires var o := MasterNext(s.master, e);
             t.remote == s.remote && t.forward == s.forward + Protocols(o.sent)
    ensures IdleHears(t)
  {
    HearsAppended(s, t, Protocols(MasterNext(s.master, e).sent));
  }

  lemma HearsFirst(s: System)
    requires IdleHears(s) && CanReadForward(s) && s.remote == Running(RemoteIdle)
    ensures WakesIdle(s.forward[0].byte)
  {
    assert After(s.remote, s.forward[..0]) == s.remote;
  }

  lemma HearingStep(s: System, l: Label)
    requires ForwardFaithful(l) && HearingWell(s) && !LateAck(s, l)
    ensures HearingWell(Step(s, l))
  {
    Lockstep.StepKeeps(s, l);
    DeafenedExactlyBy(s, l);
    match l
    case Local(e) => if s.master.Running? { MasterWakes(s, e, Step(s, l)); }
    case RemoteTimer => if s.remote.Running? { TimeoutKeepsRemote(s.remote); }
    case SendPayload(b) =>
      if MaySend(s.master, b) {
        HearsAppended(s, Step(s, l), [Cell(b, OriginOf(s.master, b))]);
      }
    case DeliverForward(reader) =>
      if CanReadForward(s) {
        ReadIsConsume(s, reader);
        HearsTail(s, Step(s, l));
        if s.remote == Running(RemoteIdle) {
          HearsFirst(s);
        }
      }
    case DeliverReverse(reader) =>
      if CanReadReverse(s) {
        match MasterHears(s.master, s.reverse[0], reader) {
          case None => assert Step(s, l).forward == s.forward;
          case Some(e) => MasterWakes(s, e, Step(s, l));
        }
      }
    case _ =>
  }

  lemma {:induction false} NoLateAckKeepsHearing(s: System, ls: seq<Label>)
    requires HearingWell(s) && NoLateAck(s, ls)
    requires forall l :: l in ls ==> ForwardFaithful(l)
    ensures HearingWell(Exec(s, ls))
    decreases |ls|
  {
    if ls != [] {
      assert ForwardFaithful(ls[0]);
      HearingStep(s, ls[0]);
      NoLateAckKeepsHearing(Step(s, ls[0]), ls[1..]);
    }
  }

  /** From start-up: a run in which the master never answers an ack while idle never deafens the remote. */
  lemma NeverDeaf(ls: seq<Label>)
    requires NoLateAck(INITIAL, ls)
    requires forall l :: l in ls ==> ForwardFaithful(l)
    ensures !Deaf(Exec(INITIAL, ls))
  {
    NoLateAckKeepsHearing(INITIAL, ls);
  }

  // ----- One late ack is enough -----

  /** What the remote does by itself: read what is queued, and let its timers fire. */
  predicate RemoteMove(l: Label) {
    l == RemoteTimer || l.DeliverForward?
  }

  ghost predicate RemoteAlone(s: System, ls: seq<Label>) {
    HonouredRun(s, ls) && forall l :: l in ls ==> RemoteMove(l)
  }

  /** Firing the timer first makes sure a read is posted; then the next byte is read. */
  lemma ReadsOn(s: System) returns (reader: Reader)
    requires CanReadForward(s) && !Deaf(s) && (s.remote == Running(RemoteIdle) ==> WakesIdle(s.forward[0].byte))
    ensures var t := Step(Step(s, RemoteTimer), DeliverForward(reader));
            && Honours(Step(s, RemoteTimer), DeliverForward(reader))
            && t.forward == s.forward[1..] && t.remote == Consume(s.remote, s.forward[0].byte) && !Deaf(t)
  {
    reader := if RemoteActive(s.remote) then ActivityReader else StateReader;
    var armed := Step(s, RemoteTimer);
    TimeoutKeepsRemote(s.remote);
    assert armed.remote == s.remote && armed.forward == s.forward;
    ReadIsConsume(armed, reader);
    DeafenedExactlyBy(s, RemoteTimer);
    DeafenedExactlyBy(armed, DeliverForward(reader));
  }

  lemma {:induction false} Deafens(s: System, n: nat) returns (ls: seq<Label>)
    requires !Deaf(s) && n < |s.forward|
    requires After(s.remote, s.forward[..n]) == Running(RemoteIdle) && !WakesIdle(s.forward[n].byte)
    ensures RemoteAlone(s, ls) && Deaf(Exec(s, ls))
    decreases n
  {
    if s.remote.Exited? {
      Quiescence.ExitedStays(s.forward[..n]);
    }
    if s.remote == Running(RemoteIdle) && !WakesIdle(s.forward[0].byte) {
      ls := [DeliverForward(StateReader)];
      DeafenedExactlyBy(s, ls[0]);
      assert ls[1..] == [];
      assert Exec(s, ls) == Step(s, ls[0]);
    } else {
      assert n > 0 by { assert s.forward[..0] == []; }
      var reader := ReadsOn(s);
      var armed := Step(s, RemoteTimer);
      var t := Step(armed, DeliverForward(reader));
      assert s.forward[..n][1..] == t.forward[..n - 1];
      var rest := Deafens(t, n - 1);
      ls := [RemoteTimer, DeliverForward(reader)] + rest;
      assert ls[1..] == [DeliverForward(reader)] + rest && ls[1..][1..] == rest;
      assert HonouredRun(armed, ls[1..]);
    }
  }

  lemma {:induction false} AloneKeepsHearing(s: System, ls: seq<Label>)
    requires IdleHears(s) && !Deaf(s) && (forall l :: l in ls ==> RemoteMove(l))
    ensures !Deaf(Exec(s, ls))
    decreases |ls|
  {
    if ls != [] {
      var l := ls[0];
      assert RemoteMove(l);
      DeafenedExactlyBy(s, l);
      if l.DeliverForward? && CanReadForward(s) {
        ReadIsConsume(s, l.reader);
        HearsTail(s, Step(s, l));
        if s.remote == Running(RemoteIdle) {
          HearsFirst(s);
        }
      } else if l == RemoteTimer && s.remote.Running? {
        TimeoutKeepsRemote(s.remote);
      }
      AloneKeepsHearing(Step(s, l), ls[1..]);
    }
  }

  /** The queue decides: the remote can go deaf by itself exactly when a byte waits that idle will not take. */
  lemma IdleHearsExactly(s: System)
    requires !Deaf(s)
    ensures IdleHears(s) <==> forall ls: seq<Label> :: RemoteAlone(s, ls) ==> !Deaf(Exec(s, ls))
  {
    if IdleHears(s) {
      forall ls: seq<Label> | RemoteAlone(s, ls)
        ensures !Deaf(Exec(s, ls))
      {
        AloneKeepsHearing(s, ls);
      }
    } else {
      var n :| 0 <= n < |s.forward| && After(s.remote, s.forward[..n]) == Running(RemoteIdle)
               && !WakesIdle(s.forward[n].byte);
      var ls := Deafens(s, n);
    }
  }

  /** A late ack queues a MasterAck that the remote will read when it is idle. */
  lemma LateAckIsHeardIdle(s: System, l: Label)
    requires InLockstep(s) && LateAck(s, l)
    ensures !IdleHears(Step(s, l))
  {
    var t, n := Step(s, l), |s.forward|;
    assert t.forward == s.forward + [Cell(MASTER_ACK, Protocol)];
    assert t.forward[..n] == s.forward;
    assert After(t.remote, t.forward[..n]) == Running(RemoteIdle);
  }

  /**
   Exactly which steps can deafen a remote that hears well: after a late ack, and after no other
   step, the remote has a run of its own, every read of it posted, that ends with the remote deaf.
   */
  lemma LateAckDeafensExactly(s: System, l: Label)
    requires HearingWell(s) && ForwardFaithful(l)
    ensures LateAck(s, l) <==> exists ls: seq<Label> :: RemoteAlone(Step(s, l), ls) && Deaf(Exec(Step(s, l), ls))
  {
    if LateAck(s, l) {
      DeafenedExactlyBy(s, l);
      LateAckIsHeardIdle(s, l);
    } else {
      HearingStep(s, l);
    }
    IdleHearsExactly(Step(s, l));
  }
}
