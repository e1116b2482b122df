/**
 The byte-keyed pinger against a reference that numbers its pings without bound.
 Pings travel an echo path that is FIFO and may lose any of them. The two agree
 exactly as long as, whenever an echo arrives, no wrap of the codes lies between
 the oldest and the newest outstanding ping.
 */
module PingReference {
  import opened Events
  import opened MasterPinger

  /** Pings 0..sent were sent at the stamped times; those from low on are outstanding. */
  datatype Reference = Reference(low: nat, received: nat, lost: nat, rtt: int, stamp: seq<int>)

  function RefSend(f: Reference, now: int): Reference {
    f.(stamp := f.stamp + [now])
  }

  /** Echo i arrives: every outstanding ping before it is lost. */
  function RefReceive(f: Reference, i: nat, now: int): Reference
    requires f.low <= i < |f.stamp|
  {
    Reference(i + 1, f.received + 1, f.lost + (i - f.low), f.rtt + (now - f.stamp[i]), f.stamp)
  }

  /** The last of the first n pings that carries code c; negative if there is none. */
  function Last(c: nat, n: nat): int
    requires c < CODES
  {
    n - 1 - (n - 1 - c) % CODES
  }

  lemma LastIsLatest(c: nat, n: nat, j: nat)
    requires c < CODES && j < n
    ensures Last(c, n) < n && (Last(c, n) >= 0 ==> Last(c, n) % CODES == c)
    ensures j % CODES == c ==> j <= Last(c, n)
  {
  }

  lemma NextMod(x: int)
    ensures (x + 1) % CODES == if x % CODES == CODES - 1 then 0 else x % CODES + 1
  {
  }

  lemma SameCode(c: nat, n: nat)
    requires c < CODES
    ensures (n - c) % CODES == 0 <==> c == n % CODES
  {
    assert n - c == CODES * (n / CODES) + (n % CODES - c);
    if (n - c) % CODES == 0 {
      assert (n % CODES - c) == CODES * ((n - c) / CODES - n / CODES);
    }
  }

  lemma LastAfterSend(c: nat, n: nat)
    requires c < CODES
    ensures Last(c, n + 1) == if c == n % CODES then n else Last(c, n)
  {
    NextMod(n - 1 - c);
    SameCode(c, n);
  }

  /** The outstanding pings, as the byte-keyed map should hold them. */
  function Window(f: Reference): map<Byte, int> {
    map c: Byte | c < CODES && f.low <= Last(c, |f.stamp|) < |f.stamp| :: f.stamp[Last(c, |f.stamp|)]
  }

  ghost predicate Agree(p: Pinger, f: Reference) {
    && f.low <= |f.stamp|
    && p.sent == |f.stamp| && p.code == p.sent % CODES
    && p.received == f.received && p.lost == f.lost && p.rtt == f.rtt
    && p.sendTimes == Window(f)
  }

  /** All outstanding pings belong to the same pass over the codes. */
  predicate SingleLap(f: Reference) {
    f.low < |f.stamp| ==> f.low / CODES == (|f.stamp| - 1) / CODES
  }

  lemma SendAgrees(p: Pinger, f: Reference, now: int)
    requires Agree(p, f)
    ensures Agree(Send(p, now), RefSend(f, now))
  {
    var n, g := |f.stamp|, RefSend(f, now);
    NextCodeWraps(n);
    forall c: Byte | c < CODES
      ensures Last(c, n + 1) == if c == n % CODES then n else Last(c, n)
      ensures Last(c, n) < n
    {
      LastAfterSend(c, n);
    }
    assert Send(p, now).sendTimes == Window(g);
  }

  lemma {:induction false} CountBelow(s: set<Byte>, lo: nat, hi: nat)
    requires lo <= hi <= 256
    requires forall k: Byte :: k in s <==> lo <= k < hi
    ensures |s| == hi - lo
    decreases hi
  {
    if lo == hi {
      assert forall k :: k !in s;
    } else {
      CountBelow(s - {hi - 1}, lo, hi - 1);
    }
  }

  /** Where the last ping of each code stands, relative to the lap of the newest ping. */
  lemma LastInLap(c: nat, n: nat)
    requires c < CODES && n > 0
    ensures var base := n - 1 - (n - 1) % CODES;
            && base % CODES == 0
            && Last(c, n) == if c <= (n - 1) % CODES then base + c else base + c - CODES
  {
    var m := (n - 1) % CODES;
    ShiftedMod(m - c, (n - 1) / CODES);
    assert n - 1 - c == CODES * ((n - 1) / CODES) + (m - c);
  }

  lemma ShiftedMod(x: int, q: int)
    requires 0 < x + CODES && x < CODES
    ensures (CODES * q + x) % CODES == if x >= 0 then x else x + CODES
  {
  }

  /** Within one lap, code order is send order. */
  lemma LapOrder(f: Reference, base: nat, c: Byte)
    requires f.low < |f.stamp| && c < CODES
    requires base == |f.stamp| - 1 - (|f.stamp| - 1) % CODES && base <= f.low
    ensures c in Window(f) <==> f.low <= base + c < |f.stamp|
    ensures c in Window(f) ==> Last(c, |f.stamp|) == base + c
  {
    LastInLap(c, |f.stamp|);
  }

  lemma LapBase(low: nat, i: nat, n: nat)
    requires low <= i < n && low / CODES == (n - 1) / CODES
    ensures var base := n - 1 - (n - 1) % CODES;
            base <= low && i == base + i % CODES
  {
  }

  lemma WindowsInLap(f: Reference, g: Reference, base: nat, b: Byte)
    requires f.low <= base + b < |f.stamp| && b < CODES
    requires base == |f.stamp| - 1 - (|f.stamp| - 1) % CODES && base <= f.low
    requires g.stamp == f.stamp && g.low == base + b + 1
    ensures b in Window(f) && Window(f)[b] == f.stamp[base + b]
    ensures forall k: Byte :: k in Below(Window(f), b) <==> f.low - base <= k < b
    ensures Above(Window(f), b) == Window(g)
  {
    forall c: Byte | c < CODES
      ensures c in Window(f) <==> f.low <= base + c < |f.stamp|
      ensures c in Window(f) ==> Last(c, |f.stamp|) == base + c
    {
      LapOrder(f, base, c);
    }
    LapOrder(f, base, b);
  }

  lemma ReceiveInLapAgrees(p: Pinger, f: Reference, i: nat, now: int)
    requires Agree(p, f) && f.low <= i < |f.stamp| && SingleLap(f)
    ensures Agree(Receive(p, i % CODES, now), RefReceive(f, i, now))
  {
    var b: Byte, n := i % CODES, |f.stamp|;
    var base := n - 1 - (n - 1) % CODES;
    LapBase(f.low, i, n);
    WindowsInLap(f, RefReceive(f, i, now), base, b);
    CountBelow(Below(p.sendTimes, b), f.low - base, b);
  }

  lemma LapBehind(low: nat, n: nat)
    requires low < n && low / CODES != (n - 1) / CODES
    ensures low < n - 1 - (n - 1) % CODES
  {
  }

  lemma InNewestLap(i: nat, n: nat)
    requires n - 1 - (n - 1) % CODES <= i < n
    ensures i == n - 1 - (n - 1) % CODES + i % CODES
  {
  }

  /** An echo that arrives while a wrap is outstanding is always miscounted: either a later
      ping is forgotten, or lost pings of the earlier lap are not counted. */
  lemma ReceiveAcrossWrapDisagrees(p: Pinger, f: Reference, i: nat, now: int)
    requires Agree(p, f) && f.low <= i < |f.stamp| && !SingleLap(f)
    ensures !Agree(Receive(p, i % CODES, now), RefReceive(f, i, now))
  {
    var b: Byte, n, g := i % CODES, |f.stamp|, RefReceive(f, i, now);
    var base := n - 1 - (n - 1) % CODES;
    LastIsLatest(b, n, i);
    assert b in p.sendTimes;
    LapBehind(f.low, n);
    if i < base {
      LastInLap(0, n);
      assert 0 in Window(g) && 0 !in Above(p.sendTimes, b);
    } else {
      InNewestLap(i, n);
      forall k: Byte
        ensures k in Below(p.sendTimes, b) <==> 0 <= k < b
      {
        if k < b {
          LastInLap(k, n);
        }
      }
      CountBelow(Below(p.sendTimes, b), 0, b);
    }
  }

  /** Agreement survives an echo exactly when the outstanding pings lie in one lap. */
  lemma ReceiveAgreesExactly(p: Pinger, f: Reference, i: nat, now: int)
    requires Agree(p, f) && f.low <= i < |f.stamp|
    ensures Agree(Receive(p, i % CODES, now), RefReceive(f, i, now)) <==> SingleLap(f)
  {
    if SingleLap(f) {
      ReceiveInLapAgrees(p, f, i, now);
    } else {
      ReceiveAcrossWrapDisagrees(p, f, i, now);
    }
  }

  // ----- Whole runs over a FIFO echo path that may lose pings -----

  datatype World = World(pinger: Pinger, reference: Reference, path: seq<nat>, dropped: set<nat>, echoed: set<nat>)

  datatype Move = Ping(now: int) | Lose(at: nat) | Echo(now: int)

  const NEW_WORLD: World := World(NEW_PINGER, Reference(0, 0, 0, 0, []), [], {}, {})

  /** Pings travel in order, each of them outstanding, and no ping is unaccounted for. */
  ghost predicate PathFits(w: World) {
    var f := w.reference;
    && f.low <= |f.stamp|
    && (forall j :: 0 <= j < |w.path| ==> f.low <= w.path[j] < |f.stamp|)
    && (forall j, k :: 0 <= j < k < |w.path| ==> w.path[j] < w.path[k])
    && (forall i :: i in w.echoed ==> i < f.low)
    && (forall i :: i in w.dropped ==> i < |f.stamp| && i !in w.echoed && i !in w.path)
    && (forall i :: 0 <= i < |f.stamp| ==> i in w.echoed || i in w.dropped || i in w.path)
    && f.received == |w.echoed| && f.received + f.lost == f.low
  }

  function Step(w: World, m: Move): World {
    match m
    case Ping(now) =>
      w.(pinger := Send(w.pinger, now), reference := RefSend(w.reference, now), path := w.path + [|w.reference.stamp|])
    case Lose(k) =>
      if k < |w.path| then w.(path := w.path[..k] + w.path[k + 1..], dropped := w.dropped + {w.path[k]}) else w
    case Echo(now) =>
      if w.path != [] && w.reference.low <= w.path[0] < |w.reference.stamp| then
        var i := w.path[0];
        w.(pinger := Receive(w.pinger, i % CODES, now), reference := RefReceive(w.reference, i, now),
           path := w.path[1..], echoed := w.echoed + {i})
      else w
  }

  function Exec(w: World, ms: seq<Move>): World
    decreases |ms|
  {
    if ms == [] then w else Exec(Step(w, ms[0]), ms[1..])
  }

  lemma PingFits(w: World, now: int)
    requires PathFits(w)
    ensures PathFits(Step(w, Ping(now)))
  {
    var v := Step(w, Ping(now));
    assert v.path[|w.path|] == |w.reference.stamp|;
    forall i | i in w.path ensures i in v.path {
      var j :| 0 <= j < |w.path| && w.path[j] == i;
      assert v.path[j] == i;
    }
  }

  lemma OthersStay(q: seq<nat>, k: nat, x: nat)
    requires k < |q| && x in q && x != q[k]
    ensures x in q[..k] + q[k + 1..]
  {
    var j :| 0 <= j < |q| && q[j] == x;
    assert (q[..k] + q[k + 1..])[if j < k then j else j - 1] == x;
  }

  lemma LoseFits(w: World, k: nat)
    requires PathFits(w) && k < |w.path|
    ensures PathFits(Step(w, Lose(k)))
  {
    var v, i := Step(w, Lose(k)), w.path[k];
    assert forall j :: 0 <= j < |v.path| ==> v.path[j] == w.path[if j < k then j else j + 1];
    forall x | x in w.path && x != i
      ensures x in v.path
    {
      OthersStay(w.path, k, x);
    }
    assert i !in v.path;
  }

  lemma EchoFits(w: World, now: int)
    requires PathFits(w) && w.path != []
    ensures PathFits(Step(w, Echo(now)))
  {
    var v, i := Step(w, Echo(now)), w.path[0];
    assert i !in w.echoed;
    forall x | x in w.path && x != i
      ensures x in v.path
    {
      var j :| 0 <= j < |w.path| && w.path[j] == x;
      assert v.path[j - 1] == x;
    }
  }

  lemma StepFits(w: World, m: Move)
    requires PathFits(w)
    ensures PathFits(Step(w, m))
  {
    match m
    case Ping(now) => PingFits(w, now);
    case Lose(k) => if k < |w.path| { LoseFits(w, k); }
    case Echo(now) => if w.path != [] { EchoFits(w, now); }
  }

  lemma {:induction false} FitsAlways(w: World, ms: seq<Move>)
    requires PathFits(w)
    ensures PathFits(Exec(w, ms))
    decreases |ms|
  {
    if ms != [] {
      StepFits(w, ms[0]);
      FitsAlways(Step(w, ms[0]), ms[1..]);
    }
  }

  /** Every echo of the run arrives while the outstanding pings lie in one lap. */
  predicate EchoesWithinLap(w: World, ms: seq<Move>)
    decreases |ms|
  {
    ms == [] ||
    ((ms[0].Echo? && w.path != [] ==> SingleLap(w.reference)) && EchoesWithinLap(Step(w, ms[0]), ms[1..]))
  }

  ghost predicate AgreesThroughout(w: World, ms: seq<Move>)
    decreases |ms|
  {
    Agree(w.pinger, w.reference) && (ms == [] || AgreesThroughout(Step(w, ms[0]), ms[1..]))
  }

  lemma StepAgreesExactly(w: World, m: Move)
    requires PathFits(w) && Agree(w.pinger, w.reference)
    ensures var v := Step(w, m);
            Agree(v.pinger, v.reference) <==> (m.Echo? && w.path != [] ==> SingleLap(w.reference))
  {
    match m
    case Ping(now) => SendAgrees(w.pinger, w.reference, now);
    case Lose(_) =>
    case Echo(now) =>
      if w.path != [] {
        ReceiveAgreesExactly(w.pinger, w.reference, w.path[0], now);
      }
  }

  /** Over every run: the pinger counts as the reference does, at every step, exactly when each echo
      arrives within a lap. */
  lemma {:induction false} RefinesExactly(w: World, ms: seq<Move>)
    requires PathFits(w) && Agree(w.pinger, w.reference)
    ensures AgreesThroughout(w, ms) <==> EchoesWithinLap(w, ms)
    decreases |ms|
  {
    if ms != [] {
      StepFits(w, ms[0]);
      StepAgreesExactly(w, ms[0]);
      if Agree(Step(w, ms[0]).pinger, Step(w, ms[0]).reference) {
        RefinesExactly(Step(w, ms[0]), ms[1..]);
      }
    }
  }

  lemma {:induction false} AgreeAtEnd(w: World, ms: seq<Move>)
    requires AgreesThroughout(w, ms)
    ensures Agree(Exec(w, ms).pinger, Exec(w, ms).reference)
    decreases |ms|
  {
    if ms != [] {
      AgreeAtEnd(Step(w, ms[0]), ms[1..]);
    }
  }

  /** What the reference calls lost are exactly the pings dropped before the latest echo. */
  lemma LostIsDropped(w: World)
    requires PathFits(w)
    ensures w.reference.lost == |set i | i in w.dropped && i < w.reference.low|
  {
    var gone := set i | i in w.dropped && i < w.reference.low;
    Numbers(w.reference.low, w.echoed + gone);
    assert w.echoed !! gone;
  }

  lemma {:induction false} Numbers(n: nat, s: set<nat>)
    requires forall i: nat :: i in s <==> i < n
    ensures |s| == n
    decreases n
  {
    if n == 0 {
      assert forall i :: i !in s;
    } else {
      Numbers(n - 1, s - {n - 1});
    }
  }

  lemma NewWorldAgrees()
    ensures PathFits(NEW_WORLD) && Agree(NEW_PINGER, NEW_WORLD.reference)
  {
    assert NEW_PINGER.sendTimes == Window(NEW_WORLD.reference);
  }

  /** The pinger's figures are the truth about the path, on every run whose echoes arrive within a lap. */
  lemma PingerCountsTruth(ms: seq<Move>)
    requires EchoesWithinLap(NEW_WORLD, ms)
    ensures var w := Exec(NEW_WORLD, ms);
            && w.pinger.received == |w.echoed|
            && w.pinger.lost == |set i | i in w.dropped && i < w.reference.low|
            && w.pinger.rtt == w.reference.rtt
            && w.pinger.sendTimes == Window(w.reference)
  {
    NewWorldAgrees();
    FitsAlways(NEW_WORLD, ms);
    RefinesExactly(NEW_WORLD, ms);
    AgreeAtEnd(NEW_WORLD, ms);
    LostIsDropped(Exec(NEW_WORLD, ms));
  }

  // ----- A condition the sender can check -----

  /** No ping is outstanding whenever code 0 is about to be sent. */
  predicate EmptyAtWrap(w: World, ms: seq<Move>)
    decreases |ms|
  {
    ms == [] ||
    ((ms[0].Ping? && w.pinger.code == BEGIN_STANDARD_CODES ==> w.pinger.sendTimes == map[])
     && EmptyAtWrap(Step(w, ms[0]), ms[1..]))
  }

  lemma OutstandingIsKept(p: Pinger, f: Reference)
    requires Agree(p, f) && f.low < |f.stamp|
    ensures p.sendTimes != map[]
  {
    var n := |f.stamp|;
    var c: Byte := (n - 1) % CODES;
    LastInLap(c, n);
    assert c in p.sendTimes;
  }

  lemma NextInLap(low: nat, n: nat)
    requires low < n && low / CODES == (n - 1) / CODES && n % CODES != 0
    ensures low / CODES == n / CODES
  {
  }

  lemma Between(low: nat, i: nat, n: nat)
    requires low <= i < n && low / CODES == (n - 1) / CODES
    ensures i / CODES == (n - 1) / CODES
  {
  }

  lemma StepStaysInLap(w: World, m: Move)
    requires PathFits(w) && Agree(w.pinger, w.reference) && SingleLap(w.reference)
    requires m.Ping? && w.pinger.code == BEGIN_STANDARD_CODES ==> w.pinger.sendTimes == map[]
    ensures SingleLap(Step(w, m).reference)
  {
    var f := w.reference;
    match m
    case Ping(now) =>
      if f.low < |f.stamp| {
        OutstandingIsKept(w.pinger, f);
        NextInLap(f.low, |f.stamp|);
      }
    case Lose(_) =>
    case Echo(now) =>
      if w.path != [] && w.path[0] + 1 < |f.stamp| {
        Between(f.low, w.path[0] + 1, |f.stamp|);
      }
  }

  lemma {:induction false} EmptyAtWrapSuffices(w: World, ms: seq<Move>)
    requires PathFits(w) && Agree(w.pinger, w.reference) && SingleLap(w.reference) && EmptyAtWrap(w, ms)
    ensures EchoesWithinLap(w, ms)
    decreases |ms|
  {
    if ms != [] {
      StepFits(w, ms[0]);
      StepAgreesExactly(w, ms[0]);
      StepStaysInLap(w, ms[0]);
      EmptyAtWrapSuffices(Step(w, ms[0]), ms[1..]);
    }
  }

  // ----- A run that straddles a wrap -----

  function PromptPings(n: nat): seq<Move> {
    if n == 0 then [] else PromptPings(n - 1) + [Ping(0), Echo(0)]
  }

  lemma ExecConcat(w: World, xs: seq<Move>, ys: seq<Move>)
    ensures Exec(w, xs + ys) == Exec(Exec(w, xs), ys)
    decreases |xs|
  {
    if xs == [] {
      assert xs + ys == ys;
    } else {
      assert (xs + ys)[1..] == xs[1..] + ys;
      ExecConcat(Step(w, xs[0]), xs[1..], ys);
    }
  }

  lemma ExecTwo(w: World, a: Move, b: Move)
    ensures Exec(w, [a, b]) == Step(Step(w, a), b)
  {
    assert [a, b][1..] == [b] && [b][1..] == [];
    assert Exec(Step(w, a), [b]) == Exec(Step(Step(w, a), b), []);
  }

  ghost predicate NothingOut(w: World, n: nat) {
    && PathFits(w) && Agree(w.pinger, w.reference)
    && w.path == [] && w.dropped == {}
    && w.reference.low == |w.reference.stamp| == n && w.reference.lost == 0
  }

  ghost predicate OneOut(w: World, n: nat) {
    && PathFits(w) && Agree(w.pinger, w.reference)
    && w.path == [n] && w.dropped == {}
    && w.reference.low == n && |w.reference.stamp| == n + 1 && w.reference.lost == 0
  }

  lemma PromptSend(w: World, n: nat)
    requires NothingOut(w, n)
    ensures OneOut(Step(w, Ping(0)), n)
  {
    StepFits(w, Ping(0));
    SendAgrees(w.pinger, w.reference, 0);
  }

  lemma PromptEcho(w: World, n: nat)
    requires OneOut(w, n)
    ensures NothingOut(Step(w, Echo(0)), n + 1)
  {
    StepFits(w, Echo(0));
    ReceiveAgreesExactly(w.pinger, w.reference, n, 0);
  }

  lemma PromptPing(w: World, n: nat)
    requires NothingOut(w, n)
    ensures NothingOut(Step(Step(w, Ping(0)), Echo(0)), n + 1)
  {
    PromptSend(w, n);
    PromptEcho(Step(w, Ping(0)), n);
  }

  lemma NothingOutAtStart()
    ensures NothingOut(NEW_WORLD, 0)
  {
    NewWorldAgrees();
  }

  lemma NoPings()
    ensures Exec(NEW_WORLD, PromptPings(0)) == NEW_WORLD
  {
  }

  lemma PromptPingsUnfold(n: nat)
    requires n > 0
    ensures Exec(NEW_WORLD, PromptPings(n)) == Step(Step(Exec(NEW_WORLD, PromptPings(n - 1)), Ping(0)), Echo(0))
  {
    ExecConcat(NEW_WORLD, PromptPings(n - 1), [Ping(0), Echo(0)]);
    ExecTwo(Exec(NEW_WORLD, PromptPings(n - 1)), Ping(0), Echo(0));
  }

  /** Every ping answered before the next: nothing is ever outstanding. */
  lemma {:induction false} PromptPingsLeaveNothing(n: nat)
    ensures NothingOut(Exec(NEW_WORLD, PromptPings(n)), n)
    decreases n
  {
    if n == 0 {
      NothingOutAtStart();
      NoPings();
    } else {
      PromptPingsLeaveNothing(n - 1);
      PromptPing(Exec(NEW_WORLD, PromptPings(n - 1)), n - 1);
      PromptPingsUnfold(n);
    }
  }

  /** With pings 239 and 240 outstanding and nothing dropped, the echo of 239 counts a loss and forgets 240. */
  lemma StraddlingMiscounts()
    ensures var w := Exec(NEW_WORLD, PromptPings(CODES - 1) + [Ping(0), Ping(0)]);
            var v := Step(w, Echo(0));
            w.dropped == {} && v.reference.lost == 0 && v.pinger.lost == 1 && v.pinger.sendTimes == map[]
  {
    PromptPingsLeaveNothing(CODES - 1);
    var u := Exec(NEW_WORLD, PromptPings(CODES - 1));
    ExecConcat(NEW_WORLD, PromptPings(CODES - 1), [Ping(0), Ping(0)]);
    ExecTwo(u, Ping(0), Ping(0));
    Straddle(u);
  }

  lemma Straddle(u: World)
    requires NothingOut(u, CODES - 1)
    ensures var w := Step(Step(u, Ping(0)), Ping(0));
            var v := Step(w, Echo(0));
            w.dropped == {} && v.reference.lost == 0 && v.pinger.lost == 1 && v.pinger.sendTimes == map[]
  {
    var t := Step(u, Ping(0));
    var w := Step(t, Ping(0));
    assert u.pinger.sendTimes == map[];
    assert w.pinger.sendTimes.Keys == {239, 0};
    assert w.path == [239, 240];
    assert Below(w.pinger.sendTimes, 239) == {0};
    assert Above(w.pinger.sendTimes, 239).Keys == {};
  }
}
