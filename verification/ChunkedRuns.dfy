/**
 Runs that mix one-byte reads with the throughput activity's chunks. A chunk discards
 what follows its first EndModeCommand, so a line that loses nothing is not enough:
 what is discarded counts as lost. In gated runs only repeats are discarded, and an
 EndTest only if it is queued close behind an EndModeCommand that a long read can take.
 */
module ChunkedRuns {
  import opened Events
  import opened Machines
  import opened MasterFsm
  import opened RemoteFsm
  import opened Handshake
  import opened Lockstep
  import opened LossTolerance
  import opened ChunkedReads
  import RT = RemoteThroughput
  import Traps
  import Quiescence

  /** One step, or one chunk of any size taken by the remote's throughput activity. */
  datatype Move = Single(step: Label) | Chunk(size: nat, meter: RT.Meter, now: int)

  function Play(s: System, v: Move): System {
    match v
    case Single(l) => Step(s, l)
    case Chunk(n, m, now) =>
      if n <= |s.forward| && s.remote == Running(RemoteThroughputMode) then ReadChunk(s, m, n, now) else s
  }

  function PlayAll(s: System, vs: seq<Move>): System
    decreases |vs|
  {
    if vs == [] then s else PlayAll(Play(s, vs[0]), vs[1..])
  }

  predicate FaithfulMove(v: Move) {
    v.Single? ==> ForwardFaithful(v.step)
  }

  predicate AdmittedMove(s: System, v: Move) {
    v.Single? ==> Admitted(s, v.step)
  }

  predicate GatedMoves(s: System, vs: seq<Move>)
    decreases |vs|
  {
    vs == [] || (AdmittedMove(s, vs[0]) && GatedMoves(Play(s, vs[0]), vs[1..]))
  }

  // ----- While the master runs -----

  ghost predicate InStep(s: System) {
    s.master.Running? ==> Inv(s) && InLockstep(s) && PayloadPlaced(s)
  }

  lemma {:induction false} ChunkStepsGated(s: System, bytes: seq<Byte>)
    ensures Gated(s, ChunkSteps(bytes))
    decreases |bytes|
  {
    if bytes != [] {
      var steps, t := ChunkSteps(bytes), Step(s, DeliverForward(ActivityReader));
      if bytes[0] == END_TEST || bytes[0] == END_MODE_COMMAND {
        assert steps[1..] == Losses(|bytes| - 1);
        LossesGated(t, |bytes| - 1);
      } else {
        assert steps[1..] == ChunkSteps(bytes[1..]);
        ChunkStepsGated(t, bytes[1..]);
      }
    }
  }

  lemma {:induction false} LossesGated(s: System, n: nat)
    ensures Gated(s, Losses(n))
    decreases n
  {
    if n > 0 {
      assert Losses(n)[1..] == Losses(n - 1);
      LossesGated(Step(s, DropForward(0)), n - 1);
    }
  }

  lemma MoveKeeps(s: System, v: Move)
    requires InStep(s) && AdmittedMove(s, v) && FaithfulMove(v)
    ensures InStep(Play(s, v))
  {
    if s.master.Running? {
      match v
      case Single(l) =>
        Lockstep.StepKeeps(s, l);
        LossTolerance.StepKeeps(s, l);
      case Chunk(n, m, now) =>
        if n <= |s.forward| && s.remote == Running(RemoteThroughputMode) {
          var bytes := Bytes(s.forward[..n]);
          ChunkStepsGated(s, bytes);
          GatedRunsKeep(s, ChunkSteps(bytes));
          ChunkIsSteps(s, m, n, now);
          ChunksKeepLockstep(s, m, n, now);
        }
    }
  }

  /** Every gated run on a faithful forward line, of chunks and one-byte reads: as long as the master
      runs, the remote is at most one phase behind, in lockstep, and reads all payload in its mode. */
  lemma {:induction false} ChunkedRunsKeep(s: System, vs: seq<Move>)
    requires InStep(s) && GatedMoves(s, vs)
    requires forall i :: 0 <= i < |vs| ==> FaithfulMove(vs[i])
    ensures InStep(PlayAll(s, vs))
    decreases |vs|
  {
    if vs != [] {
      MoveKeeps(s, vs[0]);
      ChunkedRunsKeep(Play(s, vs[0]), vs[1..]);
    }
  }

  lemma ChunkedModesAgree(vs: seq<Move>)
    requires GatedMoves(INITIAL, vs)
    requires forall i :: 0 <= i < |vs| ==> FaithfulMove(vs[i])
    ensures var s := PlayAll(INITIAL, vs);
            s.master.Running? ==>
              && OnePhaseBehind(s) && InLockstep(s) && PayloadPlaced(s)
              && (s.forward == [] ==> s.remote == Twin(s.master))
  {
    ChunkedRunsKeep(INITIAL, vs);
  }

  // ----- The reads the activity posts -----

  /** The remote enters throughput mode, possibly from itself: a new activity starts, with nothing stored. */
  predicate StartsActivity(s: System, l: Label) {
    && l.DeliverForward? && CanReadForward(s)
    && var turn := RemoteTurn(s.remote, s.forward[0].byte, l.reader);
       turn.rearms && turn.next == Running(RemoteThroughputMode)
  }

  /** A fresh activity first reads one byte, then up to a buffer at a time. All else is one-byte reads
      that were posted. To ask a fresh activity for results is undefined, and no run of the code. */
  predicate Possible(s: System, m: RT.Meter, v: Move) {
    match v
    case Single(l) =>
      Honours(s, l) && !(l == DeliverForward(ActivityReader) && s.remote == Running(RemoteThroughputMode))
    case Chunk(n, meter, _) =>
      && s.remote == Running(RemoteThroughputMode) && meter == m
      && 1 <= n <= |s.forward|
      && (if m.stored == [] then n == 1 && s.forward[0].byte != END_STANDARD_CODES else n <= RT.RECV_BUF)
  }

  function MeterAfter(s: System, m: RT.Meter, v: Move): RT.Meter {
    match v
    case Single(l) => if StartsActivity(s, l) then RT.NEW_METER else m
    case Chunk(n, _, now) => if n <= |s.forward| then RT.AfterChunk(m, Bytes(s.forward[..n]), now).0 else m
  }

  /** A run of the code: every read was posted, every chunk is one the current activity can get. */
  predicate Real(s: System, m: RT.Meter, vs: seq<Move>)
    decreases |vs|
  {
    vs == [] || (Possible(s, m, vs[0]) && Real(Play(s, vs[0]), MeterAfter(s, m, vs[0]), vs[1..]))
  }

  ghost predicate RealAndFaithful(s: System, m: RT.Meter, vs: seq<Move>) {
    Real(s, m, vs) && forall i :: 0 <= i < |vs| ==> FaithfulMove(vs[i])
  }

  lemma StoreIsNonempty(es: seq<RT.Entry>, time: int, bytes: nat)
    ensures RT.Store(es, time, bytes) != []
  {
  }

  /** A chunk that ends nothing is stored. */
  lemma QuietChunkStored(m: RT.Meter, bytes: seq<Byte>, now: int)
    requires Ending(bytes).None?
    ensures RT.AfterChunk(m, bytes, now).0.stored != []
  {
    ScanHears(m, bytes);
    StoreIsNonempty(RT.Scan(m, bytes).0.stored, now, |bytes|);
  }

  // ----- After the master has ended -----

  /** No EndModeCommand will be read in throughput mode, so no chunk discards anything it should not. */
  ghost predicate NoEndInThroughput(s: System) {
    forall i :: 0 <= i < |s.forward| && After(s.remote, s.forward[..i]) == Running(RemoteThroughputMode) ==>
      s.forward[i].byte != END_MODE_COMMAND
  }

  ghost predicate Closing(s: System) {
    s.master == Exited && InLockstep(s) && NoEndInThroughput(s)
  }

  lemma ClosingTail(s: System, t: System)
    requires Closing(s) && s.forward != [] && t.master == Exited
    requires t.forward == s.forward[1..] && t.remote == Consume(s.remote, s.forward[0].byte)
    ensures Closing(t)
  {
    TailAfter(s, t);
  }

  lemma ClosingStep(s: System, l: Label)
    requires Closing(s) && ForwardFaithful(l)
    ensures Closing(Step(s, l))
  {
    match l
    case RemoteTimer => if s.remote.Running? { TimeoutKeepsRemote(s.remote); }
    case DeliverForward(reader) =>
      if CanReadForward(s) {
        ReadIsConsume(s, reader);
        ClosingTail(s, Step(s, l));
      }
    case _ =>
  }

  lemma BothEnded(s: System)
    requires s.master == Exited && s.remote == Exited
    ensures Closing(s)
  {
    Quiescence.ExitedStays(s.forward);
    forall i | 0 <= i < |s.forward|
      ensures After(Exited, s.forward[..i]) == Exited
    {
      Quiescence.ExitedStays(s.forward[..i]);
    }
  }

  lemma ClosingEnd(s: System, n: nat)
    requires Closing(s) && 1 <= n <= |s.forward| && s.remote == Running(RemoteThroughputMode)
    requires s.forward[0].byte == END_TEST
    ensures Closing(Exec(s, ChunkSteps(Bytes(s.forward[..n]))))
  {
    ChunkEnds(s, n);
    assert Bytes(s.forward[..n])[0] == END_TEST;
    BothEnded(Taken(s, n));
  }

  lemma {:induction false} ClosingChunk(s: System, n: nat)
    requires Closing(s) && n <= |s.forward| && s.remote == Running(RemoteThroughputMode)
    ensures Closing(Exec(s, ChunkSteps(Bytes(s.forward[..n]))))
    decreases n
  {
    if n > 0 {
      assert s.forward[..0] == [] && After(s.remote, s.forward[..0]) == s.remote;
      if s.forward[0].byte == END_TEST {
        ClosingEnd(s, n);
      } else {
        var t := Step(s, DeliverForward(ActivityReader));
        ClosingStep(s, DeliverForward(ActivityReader));
        PlainByte(s);
        ChunkGoesOn(s, t, n);
        assert ChunkSteps(Bytes(s.forward[..n]))[1..] == ChunkSteps(Bytes(t.forward[..n - 1]));
        ClosingChunk(t, n - 1);
      }
    }
  }

  lemma {:induction false} ClosingAlways(s: System, vs: seq<Move>)
    requires Closing(s) && forall i :: 0 <= i < |vs| ==> FaithfulMove(vs[i])
    ensures Closing(PlayAll(s, vs))
    decreases |vs|
  {
    if vs != [] {
      match vs[0] {
        case Single(l) => ClosingStep(s, l);
        case Chunk(n, m, now) =>
          if n <= |s.forward| && s.remote == Running(RemoteThroughputMode) {
            ChunkIsSteps(s, m, n, now);
            ClosingChunk(s, n);
          }
      }
      ClosingAlways(Play(s, vs[0]), vs[1..]);
    }
  }

  /** While it reads what the master has queued, the remote is where it is now, or in the master's twin. */
  lemma {:induction false} OldOrNew(s: System, i: nat)
    requires Inv(s) && s.master.Running? && i <= |s.forward|
    ensures After(s.remote, s.forward[..i]) in {s.remote, Twin(s.master)}
    decreases i
  {
    if i > 0 {
      var t := ReadForward(s, StateReader);
      var m, r, b := s.master.state, s.remote.state, s.forward[0].byte;
      ReadIsConsume(s, StateReader);
      ReadForwardKeeps(s, StateReader);
      RemoteReads(m, r, b, StateReader);
      OldOrNew(t, i - 1);
      assert s.forward[..i][1..] == t.forward[..i - 1];
    } else {
      assert s.forward[..0] == [];
    }
  }

  /** The remote has yet to read that the mode is over, and reads in chunks. */
  predicate LeavingThroughput(s: System) {
    s.master == Running(WaitAckAfterEndMode) && s.remote == Running(RemoteThroughputMode)
  }

  lemma EndTestCloses(s: System)
    requires Inv(s) && s.master.Running? && InLockstep(s) && PayloadPlaced(s) && !LeavingThroughput(s)
    ensures Closing(Step(s, Local(EndTest)))
  {
    var t := Step(s, Local(EndTest));
    Lockstep.StepKeeps(s, Local(EndTest));
    forall i | 0 <= i < |t.forward| && After(t.remote, t.forward[..i]) == Running(RemoteThroughputMode)
      ensures t.forward[i].byte != END_MODE_COMMAND
    {
      if i < |s.forward| {
        OldOrNew(s, i);
        assert t.forward[..i] == s.forward[..i];
        assert Old(s.master.state, s.forward[i].byte) || New(s.master.state, s.forward[i].byte);
      }
    }
  }

  /** How many EndModeCommands are queued. */
  function EndModes(q: seq<Cell>): nat
    decreases |q|
  {
    if q == [] then 0 else (if q[0].byte == END_MODE_COMMAND then 1 else 0) + EndModes(q[1..])
  }

  predicate FirstRead(q: seq<Cell>, at: nat) {
    at < |q| && q[at].byte != END_MODE_COMMAND && q[at].byte != END_STANDARD_CODES
  }

  /** Another byte than the EndModeCommand is there for the activity's first read: the next one, or the one
      behind a result request that the read of the state can take. */
  predicate CanStoreFirst(s: System) {
    || FirstRead(s.forward, 0)
    || (s.forward != [] && s.forward[0].byte == END_STANDARD_CODES && s.remoteArmed && FirstRead(s.forward, 1))
  }

  /** A read of the activity can take an EndModeCommand together with an EndTest issued now: the activity
      is past its one-byte first read, or has another byte for it, and the rest fits its buffer. */
  predicate CanLoseEndTest(s: System, m: RT.Meter) {
    && LeavingThroughput(s)
    && (m.stored != [] || CanStoreFirst(s))
    && EndModes(s.forward) < RT.RECV_BUF
  }

  predicate Ends(b: Byte) {
    b == END_MODE_COMMAND || b == END_TEST
  }

  /** What is queued once EndTest follows the end of throughput mode: k bytes that end nothing,
      then EndModeCommands, then the EndTest. */
  ghost predicate Shape(q: seq<Cell>, k: nat) {
    && k < |q|
    && (forall i :: 0 <= i < k ==> !Ends(q[i].byte))
    && (forall i :: k <= i < |q| - 1 ==> q[i].byte == END_MODE_COMMAND)
    && q[|q| - 1].byte == END_TEST
  }

  ghost predicate Draining(s: System, k: nat) {
    s.master == Exited && s.remote == Running(RemoteThroughputMode) && Shape(s.forward, k)
  }

  /** While the master waits for its ack, all EndModeCommands stand at the end of the queue. */
  lemma {:induction false} EndModesLast(q: seq<Cell>) returns (k: nat)
    requires OldThenNew(WaitAckAfterEndMode, q)
    ensures k + EndModes(q) == |q|
    ensures forall i :: 0 <= i < k ==> !Ends(q[i].byte)
    ensures forall i :: k <= i < |q| ==> q[i].byte == END_MODE_COMMAND
    decreases |q|
  {
    if q == [] {
      k := 0;
    } else {
      TailKeeps(WaitAckAfterEndMode, q);
      var rest := EndModesLast(q[1..]);
      k := if q[0].byte == END_MODE_COMMAND then 0 else rest + 1;
    }
  }

  lemma ShapeAfterEndTest(s: System) returns (k: nat)
    requires Inv(s) && LeavingThroughput(s)
    ensures var t := Step(s, Local(EndTest)); Draining(t, k) && |t.forward| == k + EndModes(s.forward) + 1
  {
    k := EndModesLast(s.forward);
  }

  lemma {:induction false} EndingAt(bytes: seq<Byte>, k: nat)
    requires forall i :: 0 <= i < k && i < |bytes| ==> !Ends(bytes[i])
    requires k < |bytes| ==> bytes[k] == END_MODE_COMMAND
    ensures Ending(bytes) == if k < |bytes| then Some(EndModeCommand) else None
    decreases |bytes|
  {
    if bytes != [] && k > 0 {
      EndingAt(bytes[1..], k - 1);
    }
  }

  /** A chunk of a draining queue: within the k bytes it ends nothing, beyond them it ends the mode. */
  lemma ChunkOfShape(s: System, k: nat, v: Move)
    requires Draining(s, k) && v.Chunk? && v.size <= |s.forward| && k < |s.forward| - 1
    ensures var t := Play(s, v);
            && t.master == Exited && t.forward == s.forward[v.size..]
            && t.remote == Running(if v.size <= k then RemoteThroughputMode else EndModeReceived)
    ensures v.size <= k ==> MeterAfter(s, v.meter, v).stored != []
  {
    var bytes := Bytes(s.forward[..v.size]);
    EndingAt(bytes, k);
    ScanHears(v.meter, bytes);
    if v.size <= k {
      QuietChunkStored(v.meter, bytes, v.now);
    }
  }

  // ----- The EndTest can be lost -----

  /** The bytes before the first EndModeCommand one by one, then all the rest in one read. */
  lemma {:induction false} LosesEndTest(s: System, m: RT.Meter, k: nat) returns (vs: seq<Move>)
    requires Draining(s, k) && k < |s.forward| - 1 && |s.forward| - k <= RT.RECV_BUF
    requires m.stored != []
    ensures Real(s, m, vs) && (forall i :: 0 <= i < |vs| ==> vs[i].Chunk?)
    ensures !InLockstep(PlayAll(s, vs))
    decreases k
  {
    var v := Chunk(if k == 0 then |s.forward| else 1, m, 0);
    ChunkOfShape(s, k, v);
    var t := Play(s, v);
    if k == 0 {
      vs := [v];
      assert vs[1..] == [];
      assert PlayAll(s, vs) == PlayAll(t, []);
    } else {
      assert Shape(t.forward, k - 1);
      var rest := LosesEndTest(t, MeterAfter(s, m, v), k - 1);
      vs := [v] + rest;
      assert vs[1..] == rest;
      assert forall i :: 0 < i < |vs| ==> vs[i] == rest[i - 1];
    }
  }

  /** A fresh activity first reads its one byte. */
  lemma FirstStored(s: System, m: RT.Meter, k: nat) returns (vs: seq<Move>)
    requires Draining(s, k) && 0 < k < |s.forward| - 1 && |s.forward| - k <= RT.RECV_BUF
    requires m.stored == [] && FirstRead(s.forward, 0)
    ensures RealAndFaithful(s, m, vs) && !InLockstep(PlayAll(s, vs))
  {
    var v := Chunk(1, m, 0);
    ChunkOfShape(s, k, v);
    var t := Play(s, v);
    assert Shape(t.forward, k - 1);
    var rest := LosesEndTest(t, MeterAfter(s, m, v), k - 1);
    vs := [v] + rest;
    assert vs[1..] == rest;
    assert forall i :: 0 < i < |vs| ==> vs[i] == rest[i - 1];
  }

  /** If a result request comes first, the state reads it, and the activity the byte behind. */
  lemma FreshLosesEndTest(s: System, m: RT.Meter, k: nat) returns (vs: seq<Move>)
    requires Draining(s, k) && 0 < k < |s.forward| - 1 && |s.forward| - k <= RT.RECV_BUF
    requires m.stored == [] && CanStoreFirst(s)
    ensures RealAndFaithful(s, m, vs) && !InLockstep(PlayAll(s, vs))
  {
    if FirstRead(s.forward, 0) {
      vs := FirstStored(s, m, k);
    } else {
      var v := Single(DeliverForward(StateReader));
      var t := Play(s, v);
      assert k > 1 by { assert s.forward[1].byte != END_MODE_COMMAND; }
      assert t.forward == s.forward[1..] && Shape(t.forward, k - 1);
      var rest := FirstStored(t, m, k - 1);
      vs := [v] + rest;
      assert vs[1..] == rest;
      assert forall i :: 0 < i < |vs| ==> vs[i] == rest[i - 1];
    }
  }

  // ----- The EndTest cannot be lost -----

  /** No read can take both: the activity waits for one byte and it is the EndModeCommand, or too much lies between. */
  ghost predicate Safe(s: System, m: RT.Meter, k: nat) {
    && Draining(s, k) && k < |s.forward| - 1
    && ((m.stored == [] && !CanStoreFirst(s)) || |s.forward| - k > RT.RECV_BUF)
  }

  /** In EndModeReceived the remaining EndModeCommands are answered, and the EndTest is read. */
  lemma AnsweringCloses(s: System)
    requires s.master == Exited && s.remote == Running(EndModeReceived) && Shape(s.forward, 0)
    ensures Closing(s)
  {
    var n := |s.forward| - 1;
    var last := [s.forward[n]];
    forall i | 0 <= i <= n
      ensures After(s.remote, s.forward[..i]) == s.remote
    {
      RepeatsChangeNothing(s.forward[..i], []);
      assert s.forward[..i] + [] == s.forward[..i];
    }
    assert s.forward == s.forward[..n] + last && last[1..] == [];
    AfterAppend(s.remote, s.forward[..n], last);
  }

  lemma SafeDelivery(s: System, m: RT.Meter, k: nat)
    requires Safe(s, m, k) && Honours(s, DeliverForward(StateReader))
    ensures var t := Step(s, DeliverForward(StateReader));
            if k == 0 then Closing(t)
            else Safe(t, m, k - 1)
  {
    ReadIsConsume(s, StateReader);
    var t := Step(s, DeliverForward(StateReader));
    if k == 0 {
      assert Shape(t.forward, 0);
      AnsweringCloses(t);
    } else {
      assert !Ends(s.forward[0].byte);
      assert Shape(t.forward, k - 1);
    }
  }

  lemma SafeChunk(s: System, m: RT.Meter, k: nat, v: Move)
    requires Safe(s, m, k) && v.Chunk? && Possible(s, m, v)
    ensures var t := Play(s, v);
            if v.size > k then Closing(t) else Safe(t, MeterAfter(s, m, v), k - v.size)
  {
    ChunkOfShape(s, k, v);
    var t := Play(s, v);
    if v.size > k {
      assert Shape(t.forward, 0);
      AnsweringCloses(t);
    } else {
      assert Shape(t.forward, k - v.size);
    }
  }

  lemma {:induction false} SafeAlways(s: System, m: RT.Meter, k: nat, vs: seq<Move>)
    requires Safe(s, m, k) && RealAndFaithful(s, m, vs)
    ensures InLockstep(PlayAll(s, vs))
    decreases |vs|
  {
    if vs == [] {
      SafeInLockstep(s, k);
    } else {
      var v, t, next := vs[0], Play(s, vs[0]), MeterAfter(s, m, vs[0]);
      if v.Chunk? {
        SafeChunk(s, m, k, v);
        if v.size > k {
          ClosingAlways(t, vs[1..]);
        } else {
          SafeAlways(t, next, k - v.size, vs[1..]);
        }
      } else if v.step.DeliverForward? {
        SafeDelivery(s, m, k);
        if k == 0 {
          ClosingAlways(t, vs[1..]);
        } else {
          SafeAlways(t, next, k - 1, vs[1..]);
        }
      } else {
        SafeStays(s, m, k, v.step);
        SafeAlways(t, next, k, vs[1..]);
      }
    }
  }

  lemma SafeStays(s: System, m: RT.Meter, k: nat, l: Label)
    requires Safe(s, m, k) && ForwardFaithful(l) && !l.DeliverForward?
    ensures Safe(Step(s, l), m, k)
  {
  }

  lemma {:induction false} SafeInLockstep(s: System, k: nat)
    requires Draining(s, k) && k < |s.forward| - 1
    ensures InLockstep(s)
    decreases k
  {
    var t := s.(remote := Consume(s.remote, s.forward[0].byte), forward := s.forward[1..]);
    if k == 0 {
      assert Shape(t.forward, 0);
      AnsweringCloses(t);
    } else {
      assert Shape(t.forward, k - 1);
      SafeInLockstep(t, k - 1);
    }
  }

  /**
   Exactly when an EndTest can be lost on lines that lose nothing: issued in step, it is followed by
   lockstep in every run of the code unless CanLoseEndTest holds when it is issued.
   */
  lemma EndTestReachesExactly(s: System, m: RT.Meter)
    requires Inv(s) && s.master.Running? && InLockstep(s) && PayloadPlaced(s)
    ensures !CanLoseEndTest(s, m) <==>
            var t := Step(s, Local(EndTest));
            forall vs: seq<Move> :: RealAndFaithful(t, m, vs) ==> InLockstep(PlayAll(t, vs))
  {
    var t := Step(s, Local(EndTest));
    if !LeavingThroughput(s) {
      EndTestCloses(s);
      forall vs: seq<Move> | RealAndFaithful(t, m, vs)
        ensures InLockstep(PlayAll(t, vs))
      {
        ClosingAlways(t, vs);
      }
    } else {
      var k := ShapeAfterEndTest(s);
      EndModeIsQueued(s, k);
      assert t.forward[0] == s.forward[0] && (|s.forward| > 1 ==> t.forward[1] == s.forward[1]);
      if CanLoseEndTest(s, m) {
        if m.stored != [] {
          var vs := LosesEndTest(t, m, k);
        } else {
          assert k > 0;
          assert forall i :: 0 <= i < |s.forward| ==> t.forward[i] == s.forward[i];
          var vs := FreshLosesEndTest(t, m, k);
        }
      } else {
        assert Safe(t, m, k);
        forall vs: seq<Move> | RealAndFaithful(t, m, vs)
          ensures InLockstep(PlayAll(t, vs))
        {
          SafeAlways(t, m, k, vs);
        }
      }
    }
  }

  /** In step, the remote still in throughput mode has an EndModeCommand to read. */
  lemma EndModeIsQueued(s: System, k: nat)
    requires InLockstep(s) && LeavingThroughput(s) && Draining(Step(s, Local(EndTest)), k)
    ensures k < |s.forward|
  {
    var t := Step(s, Local(EndTest));
    if k >= |s.forward| {
      assert forall i :: 0 <= i < |s.forward| ==> s.forward[i] == t.forward[i];
      NothingEnds(s.forward);
    }
  }

  /** Without an EndModeCommand or an EndTest the remote stays in throughput mode. */
  lemma {:induction false} NothingEnds(q: seq<Cell>)
    requires forall i :: 0 <= i < |q| ==> !Ends(q[i].byte)
    ensures After(Running(RemoteThroughputMode), q) == Running(RemoteThroughputMode)
    decreases |q|
  {
    if q != [] {
      NothingEnds(q[1..]);
    }
  }

  // ----- Two runs that lose nothing -----

  /** One move of a concrete run; `gated` says whether the gate admits it. */
  ghost predicate MovesTo(s: System, m: RT.Meter, v: Move, t: System, next: RT.Meter, gated: bool) {
    && Possible(s, m, v) && Play(s, v) == t && MeterAfter(s, m, v) == next
    && FaithfulMove(v) && (gated ==> AdmittedMove(s, v))
  }

  /** What a concrete run from s shows: it is real, faithful and, if so asked, gated, and ends in t. */
  ghost predicate Leads(s: System, m: RT.Meter, vs: seq<Move>, t: System, gated: bool) {
    && RealAndFaithful(s, m, vs) && PlayAll(s, vs) == t
    && (gated ==> GatedMoves(s, vs))
  }

  lemma Onward(s: System, m: RT.Meter, v: Move, u: System, next: RT.Meter, rest: seq<Move>, t: System, gated: bool)
    requires MovesTo(s, m, v, u, next, gated) && Leads(u, next, rest, t, gated)
    ensures Leads(s, m, [v] + rest, t, gated)
  {
    var vs := [v] + rest;
    assert vs[1..] == rest;
    assert forall i :: 0 < i < |vs| ==> vs[i] == rest[i - 1];
  }

  const SEND := Single(SendPayload(0))
  const DELIVER := Single(DeliverForward(StateReader))
  const REPLY := Single(DeliverReverse(StateReader))
  const START := Single(Local(ThroughputModeCommand))
  const FINISH := Single(Local(EndModeCommand))
  const FIRST_READ := Chunk(1, RT.NEW_METER, 0)
  const ONE_STORED := RT.Meter([RT.Entry(0, 1)], [], false)

  const COMMAND := Cell(THROUGHPUT_MODE_COMMAND, Protocol)
  const END_COMMAND := Cell(END_MODE_COMMAND, Protocol)
  const MACK := Cell(MASTER_ACK, Protocol)
  const LOAD := Cell(0, Load)

  /** In the mode, with `acks` still on their way; the activity has read one byte, and may read many. */
  function Sent(acks: seq<Reply>): System {
    System(Running(SentThroughputModeCommand), Running(ThroughputCommandReceived), [], [ACK] + acks, true, true)
  }

  function Entered(acks: seq<Reply>): System {
    System(Running(ThroughputMode), Running(ThroughputCommandReceived), [MACK], acks, true, true)
  }

  function InMode(forward: seq<Cell>, acks: seq<Reply>): System {
    System(Running(ThroughputMode), Running(RemoteThroughputMode), forward, acks, true, true)
  }

  function LeavingMode(acks: seq<Reply>): System {
    System(Running(WaitAckAfterEndMode), Running(RemoteThroughputMode), [END_COMMAND], acks, true, true)
  }

  const COMMANDED := System(Running(SentThroughputModeCommand), Running(RemoteIdle), [COMMAND], [], true, true)

  lemma IntoSent()
    ensures MovesTo(INITIAL, RT.NEW_METER, START, COMMANDED, RT.NEW_METER, true)
    ensures MovesTo(COMMANDED, RT.NEW_METER, DELIVER, Sent([]), RT.NEW_METER, true)
  {
  }

  lemma AckedTwice()
    ensures MovesTo(Sent([]), RT.NEW_METER, Single(RemoteTimer), Sent([ACK]), RT.NEW_METER, true)
  {
  }

  lemma IntoMode(acks: seq<Reply>)
    ensures MovesTo(Sent(acks), RT.NEW_METER, REPLY, Entered(acks), RT.NEW_METER, true)
    ensures MovesTo(Entered(acks), RT.NEW_METER, DELIVER, InMode([], acks), RT.NEW_METER, true)
  {
    assert ([ACK] + acks)[1..] == acks;
    assert acks + [] == acks;
  }

  lemma FirstByteRead(acks: seq<Reply>)
    ensures MovesTo(InMode([], acks), RT.NEW_METER, SEND, InMode([LOAD], acks), RT.NEW_METER, true)
    ensures MovesTo(InMode([LOAD], acks), RT.NEW_METER, FIRST_READ, InMode([], acks), ONE_STORED, true)
  {
    OneStored();
    var s := InMode([LOAD], acks);
    var bytes := Bytes(s.forward[..1]);
    assert bytes == [0] && Requests(bytes) == 0;
    assert acks + Results(0) == acks && s.forward[1..] == [];
  }

  lemma OneStored()
    ensures RT.AfterChunk(RT.NEW_METER, [0], 0) == (ONE_STORED, None)
    ensures Requests([0]) == 0
  {
    assert [0][1..] == [];
    assert RT.Scan(RT.NEW_METER, []) == (RT.NEW_METER, None);
    assert RT.Store([], 0, 1) == [RT.Entry(0, 1)];
  }

  lemma OutOfMode(acks: seq<Reply>)
    ensures MovesTo(InMode([], acks), ONE_STORED, FINISH, LeavingMode(acks), ONE_STORED, ACK !in acks)
  {
  }

  /** The last leg of both runs. */
  lemma ThroughMode(acks: seq<Reply>, rest: seq<Move>, t: System, gated: bool)
    requires Leads(LeavingMode(acks), ONE_STORED, rest, t, gated) && (gated ==> ACK !in acks)
    ensures Leads(Sent(acks), RT.NEW_METER, [REPLY, DELIVER, SEND, FIRST_READ, FINISH] + rest, t, gated)
  {
    IntoMode(acks);
    FirstByteRead(acks);
    OutOfMode(acks);
    Onward(InMode([], acks), ONE_STORED, FINISH, LeavingMode(acks), ONE_STORED, rest, t, gated);
    var four := [FINISH] + rest;
    Onward(InMode([LOAD], acks), RT.NEW_METER, FIRST_READ, InMode([], acks), ONE_STORED, four, t, gated);
    var three := [FIRST_READ] + four;
    Onward(InMode([], acks), RT.NEW_METER, SEND, InMode([LOAD], acks), RT.NEW_METER, three, t, gated);
    var two := [SEND] + three;
    Onward(Entered(acks), RT.NEW_METER, DELIVER, InMode([], acks), RT.NEW_METER, two, t, gated);
    var one := [DELIVER] + two;
    Onward(Sent(acks), RT.NEW_METER, REPLY, Entered(acks), RT.NEW_METER, one, t, gated);
    assert [REPLY] + one == [REPLY, DELIVER, SEND, FIRST_READ, FINISH] + rest;
  }

  const BOTH_QUEUED := System(Running(Idle), Running(RemoteThroughputMode), [END_COMMAND, MACK], [], true, true)
  const BOTH_TAKEN := System(Running(Idle), Running(EndModeReceived), [], [ACK], true, true)

  lemma EarlyAnswer()
    ensures MovesTo(LeavingMode([ACK]), ONE_STORED, REPLY, BOTH_QUEUED, ONE_STORED, false)
  {
  }

  lemma BothTaken()
    ensures var v := Chunk(2, ONE_STORED, 1);
            MovesTo(BOTH_QUEUED, ONE_STORED, v, BOTH_TAKEN, MeterAfter(BOTH_QUEUED, ONE_STORED, v), false)
  {
    var bytes := Bytes([END_COMMAND, MACK][..2]);
    assert bytes == [END_MODE_COMMAND, MASTER_ACK];
    ScanHears(ONE_STORED, bytes);
    assert [END_COMMAND, MACK][2..] == [] && [] + Results(0) == [];
    assert Ones([REMOTE_ACK]) == [ACK];
  }

  lemma EndOfEarly()
    ensures Leads(LeavingMode([ACK]), ONE_STORED, [REPLY, Chunk(2, ONE_STORED, 1)], BOTH_TAKEN, false)
  {
    var last := Chunk(2, ONE_STORED, 1);
    EarlyAnswer();
    BothTaken();
    var end := MeterAfter(BOTH_QUEUED, ONE_STORED, last);
    Onward(BOTH_QUEUED, ONE_STORED, last, BOTH_TAKEN, end, [], BOTH_TAKEN, false);
    Onward(LeavingMode([ACK]), ONE_STORED, REPLY, BOTH_QUEUED, ONE_STORED, [last] + [], BOTH_TAKEN, false);
    assert [REPLY] + ([last] + []) == [REPLY, last];
  }

  const EARLY_END: seq<Move> :=
    [START, DELIVER] +
    ([Single(RemoteTimer)] +
     ([REPLY, DELIVER, SEND, FIRST_READ, FINISH] + [REPLY, Chunk(2, ONE_STORED, 1)]))

  /** Without the gate: one ack too many answers the EndModeCommand, and a read of two bytes discards
      the MasterAck behind it; the remote then waits for that in EndModeReceived. */
  lemma ChunkBreaksLockstep()
    ensures Leads(INITIAL, RT.NEW_METER, EARLY_END, BOTH_TAKEN, false) && !InLockstep(BOTH_TAKEN)
  {
    var end := [REPLY, Chunk(2, ONE_STORED, 1)];
    EndOfEarly();
    ThroughMode([ACK], end, BOTH_TAKEN, false);
    AckedTwice();
    var through := [REPLY, DELIVER, SEND, FIRST_READ, FINISH] + end;
    Onward(Sent([]), RT.NEW_METER, Single(RemoteTimer), Sent([ACK]), RT.NEW_METER, through, BOTH_TAKEN, false);
    FromStart([Single(RemoteTimer)] + through, BOTH_TAKEN, false);
  }

  lemma FromStart(rest: seq<Move>, t: System, gated: bool)
    requires Leads(Sent([]), RT.NEW_METER, rest, t, gated)
    ensures Leads(INITIAL, RT.NEW_METER, [START, DELIVER] + rest, t, gated)
  {
    IntoSent();
    Onward(COMMANDED, RT.NEW_METER, DELIVER, Sent([]), RT.NEW_METER, rest, t, gated);
    Onward(INITIAL, RT.NEW_METER, START, COMMANDED, RT.NEW_METER, [DELIVER] + rest, t, gated);
    assert [START] + ([DELIVER] + rest) == [START, DELIVER] + rest;
  }

  const PROPER_END: seq<Move> := [START, DELIVER] + ([REPLY, DELIVER, SEND, FIRST_READ, FINISH] + [])

  /** A gated run into the state from which EndTestReachesExactly says an EndTest can be lost. */
  lemma LosingIsReachable()
    ensures Leads(INITIAL, RT.NEW_METER, PROPER_END, LeavingMode([]), true)
    ensures CanLoseEndTest(LeavingMode([]), ONE_STORED)
  {
    assert Leads(LeavingMode([]), ONE_STORED, [], LeavingMode([]), true);
    ThroughMode([], [], LeavingMode([]), true);
    var rest := [REPLY, DELIVER, SEND, FIRST_READ, FINISH] + [];
    FromStart(rest, LeavingMode([]), true);
    assert [END_COMMAND][1..] == [] && EndModes([]) == 0;
  }
}
