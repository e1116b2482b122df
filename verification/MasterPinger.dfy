/**
 The availability measurement of src/master/MasterPinger.cpp. Pings carry codes
 that wrap modulo 240, and a map keyed by code stands in for the order of sends.
 Times are integer microseconds.
 */
module MasterPinger {
  import opened Events
  import opened Machines
  import MasterFsm
  import H = Handshake

  const CODES: nat := END_STANDARD_CODES - BEGIN_STANDARD_CODES
  const AVAIL_THRESHOLD := 3

  datatype Pinger = Pinger(
    sent: nat,
    lost: nat,
    received: nat,
    rtt: int,
    reachable: bool,
    sendTimes: map<Byte, int>,
    code: Byte)               // the code of the next ping

  const NEW_PINGER: Pinger := Pinger(0, 0, 0, 0, false, map[], BEGIN_STANDARD_CODES)

  function NextCode(code: Byte): Byte {
    (code + 1 - BEGIN_STANDARD_CODES) % CODES + BEGIN_STANDARD_CODES
  }

  function Send(p: Pinger, now: int): Pinger {
    p.(sent := p.sent + 1, sendTimes := p.sendTimes[p.code := now], code := NextCode(p.code))
  }

  /** Keys that precede b in the ordered map: std::distance from its beginning. */
  function Below(times: map<Byte, int>, b: Byte): set<Byte> {
    set k | k in times && k < b
  }

  function Above(times: map<Byte, int>, b: Byte): map<Byte, int> {
    map k | k in times && k > b :: times[k]
  }

  /** One received code: everything the map orders before it counts as lost. */
  function Receive(p: Pinger, b: Byte, now: int): Pinger {
    if b !in p.sendTimes then p
    else
      p.(rtt := p.rtt + (now - p.sendTimes[b]), received := p.received + 1,
         lost := p.lost + |Below(p.sendTimes, b)|, sendTimes := Above(p.sendTimes, b))
  }

  /** The reachability test; its subtraction is unsigned in MasterPinger.cpp, see NeverUnderflows. */
  function Test(p: Pinger): Pinger {
    p.(reachable := p.sent - (p.received + p.lost) <= AVAIL_THRESHOLD)
  }

  lemma NextCodeWraps(n: nat)
    ensures NextCode(n % CODES) == (n + 1) % CODES
  {
  }

  // ----- Conservation -----

  datatype Act = SendPing(now: int) | ReceiveByte(byte: Byte, now: int) | TestReachable

  function Do(p: Pinger, a: Act): Pinger {
    match a
    case SendPing(now) => Send(p, now)
    case ReceiveByte(b, now) => Receive(p, b, now)
    case TestReachable => Test(p)
  }

  function DoAll(p: Pinger, acts: seq<Act>): Pinger
    decreases |acts|
  {
    if acts == [] then p else DoAll(Do(p, acts[0]), acts[1..])
  }

  /** Sends whose code was still outstanding: their predecessor is forgotten, neither received nor lost. */
  function Overwritten(p: Pinger, acts: seq<Act>): nat
    decreases |acts|
  {
    if acts == [] then 0
    else (if acts[0].SendPing? && p.code in p.sendTimes then 1 else 0) + Overwritten(Do(p, acts[0]), acts[1..])
  }

  /** The next code is sent mod 240, and only codes below 240 are ever outstanding. */
  ghost predicate Disciplined(p: Pinger) {
    && p.code == p.sent % CODES
    && (forall k :: k in p.sendTimes ==> k < END_STANDARD_CODES)
  }

  lemma DoKeepsDiscipline(p: Pinger, a: Act)
    requires Disciplined(p)
    ensures Disciplined(Do(p, a))
  {
  }

  lemma SplitAt(times: map<Byte, int>, b: Byte)
    requires b in times
    ensures |times| == |Below(times, b)| + 1 + |Above(times, b)|
  {
    var below, above := Below(times, b), Above(times, b);
    assert times.Keys == below + {b} + above.Keys;
  }

  lemma OneConserves(p: Pinger, a: Act)
    ensures var q := Do(p, a);
            q.sent - q.received - q.lost - |q.sendTimes| ==
            p.sent - p.received - p.lost - |p.sendTimes| + Overwritten(p, [a])
  {
    assert [a][1..] == [];
    match a
    case SendPing(now) =>
      if p.code in p.sendTimes {
        assert p.sendTimes[p.code := now].Keys == p.sendTimes.Keys;
      } else {
        assert p.sendTimes[p.code := now].Keys == p.sendTimes.Keys + {p.code};
      }
    case ReceiveByte(b, _) => if b in p.sendTimes { SplitAt(p.sendTimes, b); }
    case TestReachable =>
  }

  /** Every send is received, lost, still outstanding, or was overwritten; whatever bytes arrive, in any order. */
  lemma {:induction false} Conservation(p: Pinger, acts: seq<Act>)
    requires Disciplined(p)
    ensures var q := DoAll(p, acts);
            && Disciplined(q)
            && q.sent - q.received - q.lost - |q.sendTimes| ==
               p.sent - p.received - p.lost - |p.sendTimes| + Overwritten(p, acts)
    decreases |acts|
  {
    if acts != [] {
      DoKeepsDiscipline(p, acts[0]);
      OneConserves(p, acts[0]);
      assert [acts[0]][1..] == [];
      Conservation(Do(p, acts[0]), acts[1..]);
    }
  }

  /** The unsigned subtraction of the reachability test never wraps: it counts outstanding and overwritten sends. */
  lemma NeverUnderflows(acts: seq<Act>)
    ensures var q := DoAll(NEW_PINGER, acts);
            && q.sent == q.received + q.lost + |q.sendTimes| + Overwritten(NEW_PINGER, acts)
            && q.received + q.lost <= q.sent
            && |q.sendTimes| <= CODES
  {
    Conservation(NEW_PINGER, acts);
    AtMost(DoAll(NEW_PINGER, acts).sendTimes.Keys, CODES);
  }

  lemma {:induction false} AtMost(keys: set<Byte>, n: nat)
    requires n <= 256 && forall k :: k in keys ==> k < n
    ensures |keys| <= n
    decreases n
  {
    if n > 0 {
      AtMost(keys - {n - 1}, n - 1);
    } else {
      assert forall k :: k !in keys;
    }
  }

  /** An incoming 240 or control byte never matches a ping. */
  lemma OnlyCodesMatch(acts: seq<Act>, b: Byte, now: int)
    requires b >= END_STANDARD_CODES
    ensures Receive(DoAll(NEW_PINGER, acts), b, now) == DoAll(NEW_PINGER, acts)
  {
    Conservation(NEW_PINGER, acts);
  }

  lemma {:induction false} OverwrittenConcat(p: Pinger, xs: seq<Act>, ys: seq<Act>)
    ensures DoAll(p, xs + ys) == DoAll(DoAll(p, xs), ys)
    ensures Overwritten(p, xs + ys) == Overwritten(p, xs) + Overwritten(DoAll(p, xs), ys)
    decreases |xs|
  {
    if xs == [] {
      assert xs + ys == ys;
    } else {
      assert (xs + ys)[1..] == xs[1..] + ys;
      OverwrittenConcat(Do(p, xs[0]), xs[1..], ys);
    }
  }

  /** The remote counts as reachable exactly when at most three pings are outstanding or overwritten. */
  lemma ReachableExactly(acts: seq<Act>)
    ensures var q := DoAll(NEW_PINGER, acts);
            DoAll(NEW_PINGER, acts + [TestReachable]).reachable <==>
            |q.sendTimes| + Overwritten(NEW_PINGER, acts) <= AVAIL_THRESHOLD
  {
    OverwrittenConcat(NEW_PINGER, acts, [TestReachable]);
    NeverUnderflows(acts);
    assert [TestReachable][1..] == [];
    assert DoAll(DoAll(NEW_PINGER, acts), [TestReachable]) == Test(DoAll(NEW_PINGER, acts));
  }

  /** After four overwritten pings the remote is never reported reachable again, however well it answers. */
  lemma OutageIsRememberedForever(outage: seq<Act>, later: seq<Act>)
    requires Overwritten(NEW_PINGER, outage) > AVAIL_THRESHOLD
    ensures !DoAll(NEW_PINGER, outage + later + [TestReachable]).reachable
  {
    OverwrittenConcat(NEW_PINGER, outage, later);
    ReachableExactly(outage + later);
  }

  function Unanswered(n: nat): seq<Act> {
    if n == 0 then [] else Unanswered(n - 1) + [SendPing(0)]
  }

  /** Every ping past the 240th without any answer overwrites one. */
  lemma {:induction false} SilenceOverwrites(n: nat)
    ensures var q := DoAll(NEW_PINGER, Unanswered(n));
            && q.sent == n && q.code == n % CODES
            && (forall k: Byte :: k in q.sendTimes <==> k < CODES && k < n)
            && Overwritten(NEW_PINGER, Unanswered(n)) == if n <= CODES then 0 else n - CODES
    decreases n
  {
    if n > 0 {
      SilenceOverwrites(n - 1);
      OverwrittenConcat(NEW_PINGER, Unanswered(n - 1), [SendPing(0)]);
      assert [SendPing(0)][1..] == [];
      var p := DoAll(NEW_PINGER, Unanswered(n - 1));
      assert DoAll(p, [SendPing(0)]) == Send(p, 0);
      NextCodeWraps(n - 1);
    }
  }

  /** The first echo after n unanswered pings takes every outstanding one out of the map. */
  lemma EchoClears(n: nat)
    requires n > 0
    ensures var last: Byte := (if n <= CODES then n else CODES) - 1;
            Receive(DoAll(NEW_PINGER, Unanswered(n)), last, 0).sendTimes == map[]
  {
    SilenceOverwrites(n);
    var last: Byte := (if n <= CODES then n else CODES) - 1;
    var q := DoAll(NEW_PINGER, Unanswered(n));
    assert last in q.sendTimes;
    assert Above(q.sendTimes, last).Keys == {};
  }

  lemma RecoversFrom(n: nat) returns (later: seq<Act>)
    requires n <= CODES + AVAIL_THRESHOLD
    ensures DoAll(NEW_PINGER, Unanswered(n) + later + [TestReachable]).reachable
  {
    SilenceOverwrites(n);
    later := [];
    if n > 0 {
      later := [ReceiveByte((if n <= CODES then n else CODES) - 1, 0)];
      EchoClears(n);
    } else {
      assert DoAll(NEW_PINGER, Unanswered(0)).sendTimes == map[];
    }
    OverwrittenConcat(NEW_PINGER, Unanswered(n), later);
    var q := DoAll(NEW_PINGER, Unanswered(n));
    if n > 0 {
      assert later[1..] == [];
      assert DoAll(q, later) == DoAll(Do(q, later[0]), []);
      assert Overwritten(Do(q, later[0]), []) == 0;
    }
    ReachableExactly(Unanswered(n) + later);
  }

  /** From an outage of n unanswered pings the remote can be reported reachable again exactly if n <= 243. */
  lemma RecoversExactly(n: nat)
    ensures (exists later: seq<Act> :: DoAll(NEW_PINGER, Unanswered(n) + later + [TestReachable]).reachable)
            <==> n <= CODES + AVAIL_THRESHOLD
  {
    if n <= CODES + AVAIL_THRESHOLD {
      var later := RecoversFrom(n);
    } else {
      SilenceOverwrites(n);
      forall later: seq<Act>
        ensures !DoAll(NEW_PINGER, Unanswered(n) + later + [TestReachable]).reachable
      {
        OutageIsRememberedForever(Unanswered(n), later);
      }
    }
  }

  // ----- The activity -----

  /** What handleReceive does with one chunk: up to the first command it dispatches, which ends the read loop. */
  function ReceiveChunk(p: Pinger, bytes: seq<Byte>, now: int): (Pinger, Option<Event>)
    decreases |bytes|
  {
    if bytes == [] then (p, None)
    else if bytes[0] <= END_STANDARD_CODES then ReceiveChunk(Receive(p, bytes[0], now), bytes[1..], now)
    else if bytes[0] == REMOTE_ACK then (p, Some(RemoteAck))
    else if bytes[0] == END_TEST then (p, Some(EndTest))
    else if bytes[0] == END_MODE_COMMAND then (p, Some(EndModeCommand))
    else ReceiveChunk(p, bytes[1..], now)
  }

  /** One turn of the send loop: the time of its ping, and the codes that arrive while its timer waits. */
  datatype Turn = Turn(sentAt: int, arrivals: seq<(Byte, int)>)

  function Receives(arrivals: seq<(Byte, int)>): seq<Act> {
    seq(|arrivals|, i requires 0 <= i < |arrivals| => ReceiveByte(arrivals[i].0, arrivals[i].1))
  }

  function TurnActs(t: Turn): seq<Act> {
    [SendPing(t.sentAt)] + Receives(t.arrivals) + [TestReachable]
  }

  function ActsOf(turns: seq<Turn>): seq<Act> {
    if turns == [] then [] else ActsOf(turns[..|turns| - 1]) + TurnActs(turns[|turns| - 1])
  }

  function Stamped(bytes: seq<Byte>, now: int): seq<(Byte, int)> {
    seq(|bytes|, i requires 0 <= i < |bytes| => (bytes[i], now))
  }

  lemma ReceiveFirst(p: Pinger, b: Byte, rest: seq<Byte>, now: int)
    ensures DoAll(p, Receives(Stamped([b] + rest, now))) == DoAll(Receive(p, b, now), Receives(Stamped(rest, now)))
  {
    var acts := Receives(Stamped([b] + rest, now));
    assert acts[0] == ReceiveByte(b, now) && acts[1..] == Receives(Stamped(rest, now));
  }

  /** A read of any length: all payload before the first dispatched event is received, nothing after it,
      and the event is the one of that byte. */
  lemma {:induction false} ChunkIsReceives(p: Pinger, bytes: seq<Byte>, now: int, k: nat)
    requires k <= |bytes|
    requires forall i :: 0 <= i < k ==> bytes[i] !in {REMOTE_ACK, END_TEST, END_MODE_COMMAND}
    requires k < |bytes| ==> bytes[k] in {REMOTE_ACK, END_TEST, END_MODE_COMMAND}
    ensures ReceiveChunk(p, bytes, now) ==
            (DoAll(p, Receives(Stamped(PayloadOf(bytes[..k]), now))), if k < |bytes| then Decode(bytes[k]) else None)
    decreases |bytes|
  {
    if k == 0 {
      assert Receives(Stamped(PayloadOf(bytes[..k]), now)) == [];
    } else {
      var b, rest := bytes[0], bytes[1..];
      assert bytes[..k][1..] == rest[..k - 1];
      if b <= END_STANDARD_CODES {
        ChunkIsReceives(Receive(p, b, now), rest, now, k - 1);
        ReceiveFirst(p, b, PayloadOf(rest[..k - 1]), now);
      } else {
        ChunkIsReceives(p, rest, now, k - 1);
        assert PayloadOf(bytes[..k]) == PayloadOf(rest[..k - 1]);
      }
    }
  }

  /** The one-byte reads the pinger posts: payload is received, and what the machine hears is as the
      handshake model says. */
  lemma OneByteReads(p: Pinger, b: Byte, now: int)
    ensures ReceiveChunk(p, [b], now) ==
            (if b <= END_STANDARD_CODES then Receive(p, b, now) else p,
             H.MasterHears(Running(MasterFsm.AvailabilityMode), H.One(b), H.ActivityReader))
  {
    assert [b][1..] == [];
  }

  /** A ping that is answered: one more received, its travel time added, and no longer outstanding. */
  lemma EchoMeasured(p: Pinger, sentAt: int, heardAt: int)
    ensures var q := Receive(Send(p, sentAt), p.code, heardAt);
            && q.sent == p.sent + 1 && q.received == p.received + 1 && q.rtt == p.rtt + heardAt - sentAt
            && p.code !in q.sendTimes
  {
  }

  /** A byte that is not outstanding, repeated or never sent, changes nothing. */
  lemma StrangerIgnored(p: Pinger, b: Byte, now: int)
    requires b !in p.sendTimes
    ensures Receive(p, b, now) == p
  {
  }

  class MasterPinger {
    var sent: nat
    var lost: nat
    var received: nat
    var rtt: int
    var reachable: bool
    var sendTimes: map<Byte, int>
    var code: Byte
    var written: seq<Byte>

    ghost function View(): Pinger
      reads this
    {
      Pinger(sent, lost, received, rtt, reachable, sendTimes, code)
    }

    constructor ()
      ensures View() == NEW_PINGER && written == []
    {
      sent, lost, received, rtt := 0, 0, 0, 0;
      reachable, sendTimes, code, written := false, map[], BEGIN_STANDARD_CODES, [];
    }

    method SendOne(now: int)
      modifies this
      ensures View() == Send(old(View()), now)
      ensures written == old(written) + [old(code)]
    {
      written := written + [code];
      sent := sent + 1;
      sendTimes := sendTimes[code := now];
      code := (code + 1 - BEGIN_STANDARD_CODES) % CODES + BEGIN_STANDARD_CODES;
    }

    method ReceiveOne(b: Byte, now: int)
      modifies this
      ensures View() == Receive(old(View()), b, now) && written == old(written)
    {
      if b in sendTimes {
        rtt := rtt + (now - sendTimes[b]);
        received := received + 1;
        var earlier := set k | k in sendTimes && k < b;
        lost := lost + |earlier|;
        sendTimes := map k | k in sendTimes && k > b :: sendTimes[k];
      }
    }

    method HandleReceive(buffer: array<Byte>, available: nat, now: int) returns (heard: Option<Event>)
      requires available <= buffer.Length
      modifies this
      ensures (View(), heard) == ReceiveChunk(old(View()), buffer[..available], now)
      ensures written == old(written)
    {
      var i := 0;
      while i < available
        invariant 0 <= i <= available && written == old(written)
        invariant ReceiveChunk(old(View()), buffer[..available], now) == ReceiveChunk(View(), buffer[i..available], now)
      {
        var b := buffer[i];
        assert buffer[i..available][0] == b && buffer[i..available][1..] == buffer[i + 1..available];
        if BEGIN_STANDARD_CODES <= b <= END_STANDARD_CODES {
          ReceiveOne(b, now);
        } else if b == REMOTE_ACK {
          return Some(RemoteAck);
        } else if b == END_TEST {
          return Some(EndTest);
        } else if b == END_MODE_COMMAND {
          return Some(EndModeCommand);
        }
        i := i + 1;
      }
      heard := None;
    }

    /** The send loop, until its stop is requested after the last of the turns. */
    method Run(turns: seq<Turn>)
      requires View() == NEW_PINGER && written == []
      modifies this
      ensures View() == DoAll(NEW_PINGER, ActsOf(turns))
      ensures |written| == |turns| == sent
      ensures forall i :: 0 <= i < |written| ==> written[i] == i % CODES
    {
      var n := 0;
      while n < |turns|
        invariant 0 <= n <= |turns|
        invariant View() == DoAll(NEW_PINGER, ActsOf(turns[..n]))
        invariant |written| == n == sent && code == n % CODES
        invariant forall i :: 0 <= i < n ==> written[i] == i % CODES
      {
        RunTurn(turns[n]);
        OneMoreTurn(turns, n);
        NextCodeWraps(n);
        n := n + 1;
      }
      assert turns[..n] == turns;
    }

    method RunTurn(t: Turn)
      modifies this
      ensures View() == DoAll(old(View()), TurnActs(t))
      ensures written == old(written) + [old(code)] && sent == old(sent) + 1 && code == NextCode(old(code))
    {
      SendOne(t.sentAt);
      ReceiveAll(t.arrivals);
      reachable := sent - (received + lost) <= AVAIL_THRESHOLD;
      TurnIsActs(old(View()), t);
    }

    method ReceiveAll(arrivals: seq<(Byte, int)>)
      modifies this
      ensures View() == DoAll(old(View()), Receives(arrivals))
      ensures written == old(written) && sent == old(sent) && code == old(code)
    {
      var i := 0;
      while i < |arrivals|
        invariant 0 <= i <= |arrivals|
        invariant DoAll(old(View()), Receives(arrivals)) == DoAll(View(), Receives(arrivals)[i..])
        invariant written == old(written) && sent == old(sent) && code == old(code)
      {
        assert Receives(arrivals)[i..][1..] == Receives(arrivals)[i + 1..];
        ReceiveOne(arrivals[i].0, arrivals[i].1);
        i := i + 1;
      }
    }
  }

  lemma OneMoreTurn(turns: seq<Turn>, n: nat)
    requires n < |turns|
    ensures DoAll(NEW_PINGER, ActsOf(turns[..n + 1])) ==
            DoAll(DoAll(NEW_PINGER, ActsOf(turns[..n])), TurnActs(turns[n]))
  {
    var upTo := turns[..n + 1];
    assert upTo[..n] == turns[..n] && upTo[n] == turns[n];
    assert ActsOf(upTo) == ActsOf(turns[..n]) + TurnActs(turns[n]);
    OverwrittenConcat(NEW_PINGER, ActsOf(turns[..n]), TurnActs(turns[n]));
  }

  lemma TurnIsActs(p: Pinger, t: Turn)
    ensures DoAll(p, TurnActs(t)) == Test(DoAll(Send(p, t.sentAt), Receives(t.arrivals)))
  {
    var first, rest := [SendPing(t.sentAt)], Receives(t.arrivals);
    OverwrittenConcat(p, first + rest, [TestReachable]);
    OverwrittenConcat(p, first, rest);
    assert first[1..] == [] && [TestReachable][1..] == [];
    var mid := DoAll(p, first + rest);
    assert DoAll(mid, [TestReachable]) == DoAll(Test(mid), []);
    assert DoAll(p, first) == DoAll(Send(p, t.sentAt), []);
  }
}
