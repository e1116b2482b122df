/**
 On a forward line that neither loses nor repeats, folding the remote over the
 bytes still queued to it always yields the twin of the master's state, whatever
 the reverse line does and whichever reader takes each byte.
 */
module Lockstep {
  import opened Events
  import opened Machines
  import opened MasterFsm
  import opened RemoteFsm
  import opened Handshake

  /** The remote after reading the whole queue. */
  function After(p: Process<RemoteState>, cells: seq<Cell>): Process<RemoteState>
    decreases |cells|
  {
    if cells == [] then p else After(Consume(p, cells[0].byte), cells[1..])
  }

  function Consume(p: Process<RemoteState>, b: Byte): Process<RemoteState> {
    match Decode(b)
    case None => p
    case Some(e) => RemoteNext(p, e).next
  }

  ghost predicate InLockstep(s: System) {
    After(s.remote, s.forward) == Twin(s.master)
  }

  /** A cell read by a remote in state `at` is read where its origin wants it. */
  predicate Fits(at: Process<RemoteState>, c: Cell) {
    match c.origin
    case Protocol => true
    case Ping => at == Running(RemoteAvailabilityMode) && c.byte < END_STANDARD_CODES
    case Load => at == Running(RemoteThroughputMode) && c.byte < END_STANDARD_CODES
    case ResultRequest => at == Running(RemoteThroughputMode) && c.byte == END_STANDARD_CODES
  }

  /** No payload byte will ever be read outside the mode it was sent in. */
  ghost predicate PayloadPlaced(s: System) {
    forall i :: 0 <= i < |s.forward| ==> Fits(After(s.remote, s.forward[..i]), s.forward[i])
  }

  predicate ForwardFaithful(l: Label) {
    !l.DropForward? && !l.RepeatForward?
  }

  lemma {:induction false} AfterAppend(p: Process<RemoteState>, xs: seq<Cell>, ys: seq<Cell>)
    ensures After(p, xs + ys) == After(After(p, xs), ys)
    decreases |xs|
  {
    if xs == [] {
      assert xs + ys == ys;
    } else {
      assert (xs + ys)[1..] == xs[1..] + ys;
      AfterAppend(Consume(p, xs[0].byte), xs[1..], ys);
    }
  }

  /** Which of the two outstanding reads gets a byte makes no difference to the next state. */
  lemma ReadIsConsume(s: System, reader: Reader)
    ensures CanReadForward(s) ==> ReadForward(s, reader).remote == Consume(s.remote, s.forward[0].byte)
    ensures CanReadForward(s) ==> ReadForward(s, reader).forward == s.forward[1..]
    ensures CanReadReverse(s) ==>
              && ReadReverse(s, reader).master == ReadReverse(s, StateReader).master
              && ReadReverse(s, reader).forward == ReadReverse(s, StateReader).forward
  {
  }

  /** Everything the master writes moves the remote from one twin to the next. */
  lemma TwinFollows(m: Process<MasterState>, e: Event)
    requires m.Running?
    ensures var o := MasterNext(m, e);
            After(Twin(m), Protocols(o.sent)) == Twin(o.next)
  {
    var o := MasterNext(m, e);
    var cells := Protocols(o.sent);
    assert |o.sent| <= 1;
    if |o.sent| == 1 {
      assert cells == [Cell(o.sent[0], Protocol)];
      assert cells[1..] == [];
    }
  }

  lemma TimeoutKeepsRemote(p: Process<RemoteState>)
    ensures RemoteNext(p, Timeout).next == p
  {
  }

  /** Appending cells to the queue, each placed where the queue leads. */
  lemma PlacedAppend(s: System, t: System, cells: seq<Cell>)
    requires PayloadPlaced(s) && t.remote == s.remote && t.forward == s.forward + cells
    requires |cells| <= 1
    requires cells != [] ==> Fits(After(s.remote, s.forward), cells[0])
    ensures PayloadPlaced(t)
  {
    forall i | 0 <= i < |t.forward|
      ensures t.forward[..i] == if i <= |s.forward| then s.forward[..i] else t.forward[..i]
    {
    }
    assert s.forward[..|s.forward|] == s.forward;
  }

  /** After the first byte is read, every prefix leads where it led before. */
  lemma TailAfter(s: System, t: System)
    requires s.forward != [] && t.forward == s.forward[1..] && t.remote == Consume(s.remote, s.forward[0].byte)
    ensures forall i :: 0 <= i < |t.forward| ==>
              After(t.remote, t.forward[..i]) == After(s.remote, s.forward[..i + 1]) && t.forward[i] == s.forward[i + 1]
  {
    forall i | 0 <= i < |t.forward|
      ensures s.forward[..i + 1][1..] == t.forward[..i]
    {
    }
  }

  lemma PlacedTail(s: System, t: System)
    requires PayloadPlaced(s) && s.forward != []
    requires t.forward == s.forward[1..] && t.remote == Consume(s.remote, s.forward[0].byte)
    ensures PayloadPlaced(t)
  {
    TailAfter(s, t);
  }

  lemma MasterWritesKeep(s: System, e: Event, t: System)
    requires s.master.Running? && InLockstep(s) && PayloadPlaced(s)
    requires var o := MasterNext(s.master, e);
             t.remote == s.remote && t.master == o.next && t.forward == s.forward + Protocols(o.sent)
    ensures InLockstep(t) && PayloadPlaced(t)
  {
    var o := MasterNext(s.master, e);
    TwinFollows(s.master, e);
    AfterAppend(s.remote, s.forward, Protocols(o.sent));
    PlacedAppend(s, t, Protocols(o.sent));
  }

  lemma StepKeeps(s: System, l: Label)
    requires ForwardFaithful(l) && InLockstep(s) && PayloadPlaced(s)
    ensures InLockstep(Step(s, l)) && PayloadPlaced(Step(s, l))
  {
    match l
    case Local(e) => if s.master.Running? { MasterWritesKeep(s, e, Step(s, l)); }
    case RemoteTimer =>
      if s.remote.Running? {
        TimeoutKeepsRemote(s.remote);
      }
    case SendPayload(b) =>
      if MaySend(s.master, b) {
        var c := Cell(b, OriginOf(s.master, b));
        AfterAppend(s.remote, s.forward, [c]);
        assert [c][1..] == [];
        PlacedAppend(s, Step(s, l), [c]);
      }
    case DeliverForward(reader) =>
      if CanReadForward(s) {
        ReadIsConsume(s, reader);
        PlacedTail(s, Step(s, l));
      }
    case DeliverReverse(reader) =>
      if CanReadReverse(s) {
        match MasterHears(s.master, s.reverse[0], reader) {
          case None => assert Step(s, l).forward == s.forward;
          case Some(e) => MasterWritesKeep(s, e, Step(s, l));
        }
      }
    case DropReverse(_) =>
    case RepeatReverse(_) =>
    case InventReverse(_, _) =>
  }

  /** Lockstep and payload placement, over every run with a faithful forward line. */
  lemma {:induction false} LockstepAlways(s: System, ls: seq<Label>)
    requires InLockstep(s) && PayloadPlaced(s)
    requires forall l :: l in ls ==> ForwardFaithful(l)
    ensures InLockstep(Exec(s, ls)) && PayloadPlaced(Exec(s, ls))
    decreases |ls|
  {
    if ls != [] {
      StepKeeps(s, ls[0]);
      LockstepAlways(Step(s, ls[0]), ls[1..]);
    }
  }

  /** From start-up: whenever the forward queue is empty, the two machines agree exactly. */
  lemma ModesAgree(ls: seq<Label>)
    requires forall l :: l in ls ==> ForwardFaithful(l)
    ensures var s := Exec(INITIAL, ls);
            InLockstep(s) && PayloadPlaced(s) && (s.forward == [] ==> s.remote == Twin(s.master))
  {
    LockstepAlways(INITIAL, ls);
  }

  /** Every payload byte is read in the mode it was sent for, never in a handshake state. */
  lemma PayloadReadInMode(ls: seq<Label>)
    requires forall l :: l in ls ==> ForwardFaithful(l)
    ensures var s := Exec(INITIAL, ls);
            CanReadForward(s) ==>
              && (s.forward[0].origin == Ping ==> s.remote == Running(RemoteAvailabilityMode))
              && (s.forward[0].origin in {Load, ResultRequest} ==> s.remote == Running(RemoteThroughputMode))
  {
    LockstepAlways(INITIAL, ls);
    var s := Exec(INITIAL, ls);
    if CanReadForward(s) {
      assert s.forward[..0] == [];
      assert After(s.remote, s.forward[..0]) == s.remote;
    }
  }
}
