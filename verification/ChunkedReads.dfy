/**
 Reads of more than one byte. In throughput mode the remote reads up to 255 bytes
 at once, and discards whatever follows an EndModeCommand in the same chunk.
 */
module ChunkedReads {
  import opened Events
  import opened Machines
  import opened MasterFsm
  import opened RemoteFsm
  import opened Handshake
  import RT = RemoteThroughput
  import Lockstep
  import LossTolerance

  function Bytes(q: seq<Cell>): seq<Byte> {
    seq(|q|, i requires 0 <= i < |q| => q[i].byte)
  }

  function Results(n: nat): seq<Reply> {
    seq(n, i => Result)
  }

  /** The system after the remote's throughput activity has handled its next n bytes as one chunk. */
  function ReadChunk(s: System, m: RT.Meter, n: nat, now: int): System
    requires n <= |s.forward| && s.remote == Running(RemoteThroughputMode)
  {
    var (after, heard) := RT.AfterChunk(m, Bytes(s.forward[..n]), now);
    var rest := s.(forward := s.forward[n..], reverse := s.reverse + Results(Requests(Bytes(s.forward[..n]))));
    match heard
    case None => rest
    case Some(e) => RemoteDispatch(rest, e)
  }

  /** How many result requests a chunk holds before the event that ends it. */
  function Requests(bytes: seq<Byte>): nat
    decreases |bytes|
  {
    if bytes == [] || bytes[0] == END_TEST || bytes[0] == END_MODE_COMMAND then 0
    else (if bytes[0] == END_STANDARD_CODES then 1 else 0) + Requests(bytes[1..])
  }

  /** A chunk as steps of the handshake: deliveries up to the event that ends it, then losses. */
  function ChunkSteps(bytes: seq<Byte>): seq<Label>
    decreases |bytes|
  {
    if bytes == [] then []
    else if bytes[0] == END_TEST || bytes[0] == END_MODE_COMMAND then
      [DeliverForward(ActivityReader)] + Losses(|bytes| - 1)
    else [DeliverForward(ActivityReader)] + ChunkSteps(bytes[1..])
  }

  function Losses(n: nat): seq<Label> {
    if n == 0 then [] else [DropForward(0)] + Losses(n - 1)
  }

  lemma {:induction false} LossesDrop(s: System, n: nat)
    requires n <= |s.forward|
    ensures Exec(s, Losses(n)) == s.(forward := s.forward[n..])
    decreases n
  {
    if n > 0 {
      var t := Step(s, DropForward(0));
      assert t.forward == s.forward[1..];
      assert Losses(n)[1..] == Losses(n - 1);
      LossesDrop(t, n - 1);
    }
  }

  /** The event a chunk dispatches depends on its bytes alone. */
  function Ending(bytes: seq<Byte>): Option<Event>
    decreases |bytes|
  {
    if bytes == [] then None
    else if bytes[0] == END_TEST then Some(EndTest)
    else if bytes[0] == END_MODE_COMMAND then Some(EndModeCommand)
    else Ending(bytes[1..])
  }

  lemma {:induction false} ScanHears(m: RT.Meter, bytes: seq<Byte>)
    ensures RT.Scan(m, bytes).1 == Ending(bytes)
    ensures |RT.Scan(m, bytes).0.answers| == |m.answers| + if m.stored != [] then Requests(bytes) else 0
    decreases |bytes|
  {
    if bytes != [] {
      if bytes[0] == END_STANDARD_CODES {
        ScanHears(RT.AfterRequest(m), bytes[1..]);
      } else if bytes[0] != END_TEST && bytes[0] != END_MODE_COMMAND {
        ScanHears(m, bytes[1..]);
      }
    }
  }

  /** The system after n bytes were taken as one chunk that ended as its bytes say. */
  function Taken(s: System, n: nat): System
    requires n <= |s.forward|
  {
    var bytes := Bytes(s.forward[..n]);
    var rest := s.(forward := s.forward[n..], reverse := s.reverse + Results(Requests(bytes)));
    if Ending(bytes).None? then rest else RemoteDispatch(rest, Ending(bytes).value)
  }

  lemma ChunkEnds(s: System, n: nat)
    requires 1 <= n <= |s.forward| && s.remote == Running(RemoteThroughputMode)
    requires s.forward[0].byte == END_TEST || s.forward[0].byte == END_MODE_COMMAND
    ensures Exec(s, ChunkSteps(Bytes(s.forward[..n]))) == Taken(s, n)
  {
    var bytes, t := Bytes(s.forward[..n]), Step(s, DeliverForward(ActivityReader));
    assert ChunkSteps(bytes)[1..] == Losses(n - 1);
    EndingByte(s, n);
    assert t.forward == s.forward[1..] && t.forward[n - 1..] == s.forward[n..];
    LossesDrop(t, n - 1);
    assert s.reverse + Results(0) == s.reverse;
  }

  lemma ChunkGoesOn(s: System, t: System, n: nat)
    requires 1 <= n <= |s.forward| && s.remote == Running(RemoteThroughputMode)
    requires s.forward[0].byte != END_TEST && s.forward[0].byte != END_MODE_COMMAND
    requires t == s.(forward := s.forward[1..],
                     reverse := s.reverse + Results(if s.forward[0].byte == END_STANDARD_CODES then 1 else 0))
    ensures Taken(t, n - 1) == Taken(s, n)
    ensures ChunkSteps(Bytes(s.forward[..n])) ==
            [DeliverForward(ActivityReader)] + ChunkSteps(Bytes(t.forward[..n - 1]))
  {
    var bytes := Bytes(s.forward[..n]);
    assert t.forward[..n - 1] == s.forward[..n][1..];
    assert Bytes(t.forward[..n - 1]) == bytes[1..];
    assert t.forward[n - 1..] == s.forward[n..];
    var one := if bytes[0] == END_STANDARD_CODES then 1 else 0;
    assert t.reverse + Results(Requests(bytes[1..])) == s.reverse + Results(one + Requests(bytes[1..]));
  }

  /** Where the remote stands after the steps of a chunk. */
  lemma {:induction false} StepsOfChunk(s: System, n: nat)
    requires n <= |s.forward| && s.remote == Running(RemoteThroughputMode)
    ensures Exec(s, ChunkSteps(Bytes(s.forward[..n]))) == Taken(s, n)
    decreases n
  {
    if n == 0 {
      assert s.forward[0..] == s.forward && s.reverse + Results(0) == s.reverse;
    } else if s.forward[0].byte == END_TEST || s.forward[0].byte == END_MODE_COMMAND {
      ChunkEnds(s, n);
    } else {
      PlainByte(s);
      var t := ReadForward(s, ActivityReader);
      ChunkGoesOn(s, t, n);
      StepsOfChunk(t, n - 1);
      var steps := ChunkSteps(Bytes(s.forward[..n]));
      assert steps[1..] == ChunkSteps(Bytes(t.forward[..n - 1]));
      assert Step(s, steps[0]) == t;
    }
  }

  lemma PlainByte(s: System)
    requires CanReadForward(s) && s.remote == Running(RemoteThroughputMode)
    requires s.forward[0].byte != END_TEST && s.forward[0].byte != END_MODE_COMMAND
    ensures ReadForward(s, ActivityReader) ==
            s.(forward := s.forward[1..],
               reverse := s.reverse + Results(if s.forward[0].byte == END_STANDARD_CODES then 1 else 0))
  {
  }

  lemma EndingByte(s: System, n: nat)
    requires 1 <= n <= |s.forward| && s.remote == Running(RemoteThroughputMode)
    requires s.forward[0].byte == END_TEST || s.forward[0].byte == END_MODE_COMMAND
    ensures var e := if s.forward[0].byte == END_TEST then EndTest else EndModeCommand;
            ReadForward(s, ActivityReader).(forward := s.forward[n..]) ==
            RemoteDispatch(s.(forward := s.forward[n..]), e)
  {
  }

  /** Handling a chunk is the same as its one-byte deliveries, followed by losing what it discards.
      Unless nothing was stored before, the meter writes exactly the results those deliveries write. */
  lemma ChunkIsSteps(s: System, m: RT.Meter, n: nat, now: int)
    requires n <= |s.forward| && s.remote == Running(RemoteThroughputMode)
    ensures ReadChunk(s, m, n, now) == Exec(s, ChunkSteps(Bytes(s.forward[..n])))
    ensures var bytes := Bytes(s.forward[..n]);
            |RT.AfterChunk(m, bytes, now).0.answers| == |m.answers| + if m.stored != [] then Requests(bytes) else 0
  {
    StepsOfChunk(s, n);
    ScanHears(m, Bytes(s.forward[..n]));
  }

  /** In a gated run, whatever follows an EndModeCommand that the throughput activity can read is
      another EndModeCommand: a chunk only ever discards repeats. */
  lemma OnlyRepeatsAreDiscarded(s: System, i: nat, j: nat)
    requires LossTolerance.Inv(s) && s.master.Running? && s.remote == Running(RemoteThroughputMode)
    requires i < j < |s.forward| && s.forward[i].byte == END_MODE_COMMAND
    ensures s.master == Running(WaitAckAfterEndMode) && s.forward[j].byte == END_MODE_COMMAND
  {
    assert LossTolerance.Old(s.master.state, s.forward[i].byte) || LossTolerance.New(s.master.state, s.forward[i].byte);
    assert LossTolerance.New(WaitAckAfterEndMode, s.forward[i].byte);
  }

  lemma {:induction false} RepeatsChangeNothing(q: seq<Cell>, rest: seq<Cell>)
    requires forall i :: 0 <= i < |q| ==> q[i].byte == END_MODE_COMMAND
    ensures Lockstep.After(Running(EndModeReceived), q + rest) == Lockstep.After(Running(EndModeReceived), rest)
    decreases |q|
  {
    if q == [] {
      assert q + rest == rest;
    } else {
      assert (q + rest)[1..] == q[1..] + rest;
      RepeatsChangeNothing(q[1..], rest);
    }
  }

  /** So chunked reads do not break lockstep: the queue still leads the remote to the master's twin. */
  lemma ChunksKeepLockstep(s: System, m: RT.Meter, n: nat, now: int)
    requires LossTolerance.Inv(s) && s.master.Running? && s.remote == Running(RemoteThroughputMode)
    requires Lockstep.InLockstep(s) && n <= |s.forward|
    ensures Lockstep.InLockstep(ReadChunk(s, m, n, now))
    ensures Lockstep.PayloadPlaced(s) ==> Lockstep.PayloadPlaced(ReadChunk(s, m, n, now))
  {
    ChunkIsSteps(s, m, n, now);
    StepsKeepLockstep(s, n);
  }

  lemma EndKeepsLockstep(s: System, n: nat)
    requires LossTolerance.Inv(s) && s.master.Running? && s.remote == Running(RemoteThroughputMode)
    requires Lockstep.InLockstep(s) && 1 <= n <= |s.forward|
    requires s.forward[0].byte == END_TEST || s.forward[0].byte == END_MODE_COMMAND
    ensures var end := Exec(s, ChunkSteps(Bytes(s.forward[..n])));
            Lockstep.InLockstep(end) && (Lockstep.PayloadPlaced(s) ==> Lockstep.PayloadPlaced(end))
  {
    var steps, t := ChunkSteps(Bytes(s.forward[..n])), ReadForward(s, ActivityReader);
    assert Step(s, steps[0]) == t && steps[1..] == Losses(n - 1);
    LossesDrop(t, n - 1);
    DiscardKeepsLockstep(s, t, n);
  }

  lemma {:induction false} StepsKeepLockstep(s: System, n: nat)
    requires LossTolerance.Inv(s) && s.master.Running? && s.remote == Running(RemoteThroughputMode)
    requires Lockstep.InLockstep(s) && n <= |s.forward|
    ensures var end := Exec(s, ChunkSteps(Bytes(s.forward[..n])));
            Lockstep.InLockstep(end) && (Lockstep.PayloadPlaced(s) ==> Lockstep.PayloadPlaced(end))
    decreases n
  {
    if n > 0 {
      if s.forward[0].byte == END_TEST || s.forward[0].byte == END_MODE_COMMAND {
        EndKeepsLockstep(s, n);
      } else {
        var steps, t := ChunkSteps(Bytes(s.forward[..n])), Step(s, DeliverForward(ActivityReader));
        PlainKeepsLockstep(s);
        PlainByte(s);
        ChunkGoesOn(s, t, n);
        assert steps[1..] == ChunkSteps(Bytes(t.forward[..n - 1]));
        StepsKeepLockstep(t, n - 1);
      }
    }
  }

  lemma PlainKeepsLockstep(s: System)
    requires LossTolerance.Inv(s) && s.master.Running? && s.remote == Running(RemoteThroughputMode)
    requires Lockstep.InLockstep(s) && s.forward != []
    requires s.forward[0].byte != END_TEST && s.forward[0].byte != END_MODE_COMMAND
    ensures var t := ReadForward(s, ActivityReader);
            && LossTolerance.Inv(t) && Lockstep.InLockstep(t) && t.master == s.master && t.remote == s.remote
            && (Lockstep.PayloadPlaced(s) ==> Lockstep.PayloadPlaced(t))
  {
    Lockstep.ReadIsConsume(s, ActivityReader);
    LossTolerance.ReadForwardKeeps(s, ActivityReader);
    PlainByte(s);
    if Lockstep.PayloadPlaced(s) {
      Lockstep.PlacedTail(s, ReadForward(s, ActivityReader));
    }
  }

  lemma RepeatsAreNoPayload(s: System)
    requires LossTolerance.Inv(s) && s.master.Running? && s.remote == Running(RemoteThroughputMode)
    requires Lockstep.PayloadPlaced(s) && s.forward != [] && s.forward[0].byte == END_MODE_COMMAND
    ensures forall i :: 0 < i < |s.forward| ==> s.forward[i].origin == Protocol
  {
    forall i | 0 < i < |s.forward|
      ensures s.forward[i].origin == Protocol
    {
      OnlyRepeatsAreDiscarded(s, 0, i);
      assert Lockstep.Fits(Lockstep.After(s.remote, s.forward[..i]), s.forward[i]);
    }
  }

  /** While the master runs, an event that ends a chunk is the end of the mode. */
  lemma OnlyModesEnd(s: System)
    requires LossTolerance.Inv(s) && s.master.Running? && s.remote == Running(RemoteThroughputMode)
    requires s.forward != [] && (s.forward[0].byte == END_TEST || s.forward[0].byte == END_MODE_COMMAND)
    ensures s.forward[0].byte == END_MODE_COMMAND
  {
    assert LossTolerance.Old(s.master.state, s.forward[0].byte) || LossTolerance.New(s.master.state, s.forward[0].byte);
  }

  lemma RepeatsArePlaced(s: System, t: System, n: nat)
    requires LossTolerance.Inv(s) && s.master.Running? && s.remote == Running(RemoteThroughputMode)
    requires Lockstep.PayloadPlaced(s) && 1 <= n <= |s.forward| && s.forward[0].byte == END_MODE_COMMAND
    requires t.forward == s.forward[1..]
    ensures Lockstep.PayloadPlaced(t.(forward := t.forward[n - 1..]))
  {
    RepeatsAreNoPayload(s);
    var kept := t.forward[n - 1..];
    assert forall i :: 0 <= i < |kept| ==> kept[i] == s.forward[n + i];
  }

  lemma DiscardKeepsLockstep(s: System, t: System, n: nat)
    requires LossTolerance.Inv(s) && s.master.Running? && s.remote == Running(RemoteThroughputMode)
    requires Lockstep.InLockstep(s) && 1 <= n <= |s.forward|
    requires s.forward[0].byte == END_TEST || s.forward[0].byte == END_MODE_COMMAND
    requires t == ReadForward(s, ActivityReader)
    ensures Lockstep.InLockstep(t.(forward := t.forward[n - 1..]))
    ensures Lockstep.PayloadPlaced(s) ==> Lockstep.PayloadPlaced(t.(forward := t.forward[n - 1..]))
  {
    OnlyModesEnd(s);
    Lockstep.ReadIsConsume(s, ActivityReader);
    var gone, kept := t.forward[..n - 1], t.forward[n - 1..];
    forall i | 0 <= i < |gone|
      ensures gone[i].byte == END_MODE_COMMAND
    {
      OnlyRepeatsAreDiscarded(s, 0, i + 1);
    }
    assert t.forward == gone + kept;
    RepeatsChangeNothing(gone, kept);
    if Lockstep.PayloadPlaced(s) {
      RepeatsArePlaced(s, t, n);
    }
  }
}
