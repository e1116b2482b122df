/** The gate of LossTolerance is not only sufficient but exactly what each mode command needs. */
module GateExactness {
  import opened Events
  import opened Machines
  import opened MasterFsm
  import opened RemoteFsm
  import opened Handshake
  import opened LossTolerance

  /** Every gated continuation keeps the remote within one phase of the master. */
  ghost predicate SafeFrom(s: System) {
    forall ls: seq<Label> :: Gated(s, ls) ==> OnePhaseBehind(Exec(s, ls))
  }

  predicate IsModeCommand(e: Event) {
    e == AvailabilityModeCommand || e == ThroughputModeCommand || e == EndModeCommand
  }

  /** Lose everything ahead of the k-th reply, then deliver it. */
  function LoseThenDeliver(k: nat): seq<Label> {
    if k == 0 then [DeliverReverse(StateReader)] else [DropReverse(0)] + LoseThenDeliver(k - 1)
  }

  lemma {:induction false} AckArrives(s: System, k: nat)
    requires s.master.Running? && k < |s.reverse| && s.reverse[k] == ACK
    ensures Gated(s, LoseThenDeliver(k))
    ensures var t := Exec(s, LoseThenDeliver(k));
            t.master == MasterNext(s.master, RemoteAck).next && t.remote == s.remote
    decreases k
  {
    var ls := LoseThenDeliver(k);
    if k == 0 {
      assert ls[1..] == [];
      assert Exec(s, ls) == Step(s, ls[0]);
    } else {
      var t := Step(s, DropReverse(0));
      assert t.reverse == s.reverse[1..];
      AckArrives(t, k - 1);
      assert ls[1..] == LoseThenDeliver(k - 1);
    }
  }

  lemma SettledIsSafe(s: System, command: Event)
    requires Inv(s) && Settled(s)
    ensures SafeFrom(Step(s, Local(command)))
  {
    var issued := Step(s, Local(command));
    StepKeeps(s, Local(command));
    forall ls: seq<Label> | Gated(issued, ls)
      ensures OnePhaseBehind(Exec(issued, ls))
    {
      GatedRunsKeep(issued, ls);
    }
  }

  /** A remote still behind the master would fall two phases behind. */
  lemma TwoPhasesBehind(m: MasterState, r: RemoteState, command: Event)
    requires Behind(m, r) && IsModeCommand(command) && MasterNext(Running(m), command).next != Running(m)
    ensures var next := MasterNext(Running(m), command).next;
            next.Running? && Running(r) != Twin(next) && !Behind(next.state, r)
  {
  }

  /** A stale ack would move the master on while the remote has not even seen the command. */
  lemma StaleAckRunsAhead(m: MasterState, command: Event)
    requires IsModeCommand(command) && MasterNext(Running(m), command).next != Running(m)
    ensures var next := MasterNext(MasterNext(Running(m), command).next, RemoteAck).next;
            next.Running? && TwinState(m) != TwinState(next.state) && !Behind(next.state, TwinState(m))
  {
  }

  lemma UnsettledIsUnsafe(s: System, command: Event)
    requires Inv(s) && s.master.Running? && IsModeCommand(command) && !Settled(s)
    requires MasterNext(s.master, command).next != s.master
    ensures !SafeFrom(Step(s, Local(command)))
  {
    var issued := Step(s, Local(command));
    assert issued.master == MasterNext(s.master, command).next;
    assert issued.remote == s.remote && issued.reverse == s.reverse;
    if s.remote != Twin(s.master) {
      TwoPhasesBehind(s.master.state, s.remote.state, command);
      Unsafe(issued, []);
    } else {
      var k :| 0 <= k < |s.reverse| && s.reverse[k] == ACK;
      StaleAckRunsAhead(s.master.state, command);
      AckArrives(issued, k);
      Unsafe(issued, LoseThenDeliver(k));
    }
  }

  lemma Unsafe(s: System, ls: seq<Label>)
    requires Gated(s, ls) && !OnePhaseBehind(Exec(s, ls))
    ensures !SafeFrom(s)
  {
  }

  /** Issued from a state the gate allows, a mode command is safe forever; issued from any other, it is not. */
  lemma GateIsExact(s: System, command: Event)
    requires Inv(s) && s.master.Running? && IsModeCommand(command)
    requires MasterNext(s.master, command).next != s.master
    ensures Settled(s) <==> SafeFrom(Step(s, Local(command)))
  {
    if Settled(s) {
      SettledIsSafe(s, command);
    } else {
      UnsettledIsUnsafe(s, command);
    }
  }
}
