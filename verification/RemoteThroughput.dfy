/**
 The receiving end of the throughput measurement (src/remote/RemoteThroughput.cpp):
 chunks of any size are stored by arrival time, and a request for results answers
 with their total, the latest one left out, and the time they span.
 */
module RemoteThroughput {
  import opened Events
  import opened ResultCodec

  const RECV_BUF: nat := 255

  /** The ordered map from arrival times, in microseconds, to chunk sizes, in key order. */
  datatype Entry = Entry(time: int, bytes: nat)

  /** A result before it is cut to 32 bits: bytes received, and the microseconds they span. */
  datatype Report = Report(received: int, usec: int)

  function Wire(host: Order, r: Report): seq<Byte> {
    EncodeResult(host, Wrap(r.received), Wrap(r.usec))
  }

  datatype Meter = Meter(
    stored: seq<Entry>,
    answers: seq<Report>,
    fault: bool)               // results were requested of an empty map

  const NEW_METER: Meter := Meter([], [], false)

  ghost predicate Ordered(es: seq<Entry>) {
    forall i, j :: 0 <= i < j < |es| ==> es[i].time < es[j].time
  }

  /** Assignment by key: an entry of the same time is replaced, otherwise the order is kept. */
  function Store(es: seq<Entry>, time: int, bytes: nat): seq<Entry> {
    if es == [] || es[|es| - 1].time < time then es + [Entry(time, bytes)]
    else if es[|es| - 1].time == time then es[..|es| - 1] + [Entry(time, bytes)]
    else Store(es[..|es| - 1], time, bytes) + [es[|es| - 1]]
  }

  lemma {:induction false} StoreKeepsOrder(es: seq<Entry>, time: int, bytes: nat)
    requires Ordered(es)
    ensures var r := Store(es, time, bytes);
            && Ordered(r) && r != []
            && r[|r| - 1].time == if es == [] || es[|es| - 1].time < time then time else es[|es| - 1].time
    decreases |es|
  {
    if es != [] && es[|es| - 1].time > time {
      StoreKeepsOrder(es[..|es| - 1], time, bytes);
    }
  }

  lemma StorePast(es: seq<Entry>, i: nat, time: int, bytes: nat)
    requires 0 < i <= |es| && es[i - 1].time > time
    ensures Store(es[..i], time, bytes) + es[i..] == Store(es[..i - 1], time, bytes) + es[i - 1..]
  {
    assert es[..i][..i - 1] == es[..i - 1];
    assert es[i - 1..] == [es[i - 1]] + es[i..];
  }

  lemma StoreHere(es: seq<Entry>, i: nat, time: int, bytes: nat)
    requires i <= |es| && (i > 0 ==> es[i - 1].time <= time)
    ensures Store(es[..i], time, bytes) ==
            (if i > 0 && es[i - 1].time == time then es[..i - 1] else es[..i]) + [Entry(time, bytes)]
  {
    if i > 0 {
      assert es[..i][..i - 1] == es[..i - 1];
    }
  }

  /** Only the entry of the given time is new or replaced. */
  lemma {:induction false} StoreSetsOne(es: seq<Entry>, time: int, bytes: nat, x: Entry)
    requires Ordered(es)
    ensures x in Store(es, time, bytes) <==> x == Entry(time, bytes) || (x in es && x.time != time)
    decreases |es|
  {
    if es != [] {
      var n := |es| - 1;
      assert es == es[..n] + [es[n]];
      if es[n].time > time {
        StoreSetsOne(es[..n], time, bytes, x);
      } else if x in es[..n] {
        var i :| 0 <= i < n && es[i] == x;
        assert es[i].time < es[n].time;
      }
    }
  }

  function SumBytes(es: seq<Entry>): nat {
    if es == [] then 0 else SumBytes(es[..|es| - 1]) + es[|es| - 1].bytes
  }

  // ----- Results -----

  /** All stored chunks but the latest, and the time they span. */
  function Total(stored: seq<Entry>): int
    requires stored != []
  {
    SumBytes(stored) - stored[|stored| - 1].bytes
  }

  function Span(stored: seq<Entry>): int
    requires stored != []
  {
    stored[|stored| - 1].time - stored[0].time
  }

  function AfterRequest(m: Meter): Meter {
    if m.stored == [] then m.(fault := true)
    else m.(answers := m.answers + [Report(Total(m.stored), Span(m.stored))])
  }

  /** Commands are looked for byte by byte; EndTest and EndModeCommand end the chunk at once. */
  function Scan(m: Meter, bytes: seq<Byte>): (Meter, Option<Event>)
    decreases |bytes|
  {
    if bytes == [] then (m, None)
    else if bytes[0] == END_STANDARD_CODES then Scan(AfterRequest(m), bytes[1..])
    else if bytes[0] == END_TEST then (m, Some(EndTest))
    else if bytes[0] == END_MODE_COMMAND then (m, Some(EndModeCommand))
    else Scan(m, bytes[1..])
  }

  /** The chunk is stored after it was scanned, unless it dispatched an event. */
  function AfterChunk(m: Meter, bytes: seq<Byte>, now: int): (Meter, Option<Event>) {
    var (scanned, heard) := Scan(m, bytes);
    (if heard.None? then scanned.(stored := Store(scanned.stored, now, |bytes|)) else scanned, heard)
  }

  /** A read of any length: one answer per request before the first dispatched event, every one about the
      chunks stored before; a chunk is stored exactly if it dispatched nothing. */
  lemma {:induction false} ScanMeans(m: Meter, bytes: seq<Byte>, k: nat)
    requires k <= |bytes|
    requires forall i :: 0 <= i < k ==> bytes[i] !in {END_TEST, END_MODE_COMMAND}
    requires k < |bytes| ==> bytes[k] in {END_TEST, END_MODE_COMMAND}
    ensures var (after, heard) := Scan(m, bytes);
            && heard == (if k < |bytes| then Decode(bytes[k]) else None)
            && after.stored == m.stored && m.answers <= after.answers
            && (m.stored == [] ==>
                  after.answers == m.answers && (after.fault <==> m.fault || END_STANDARD_CODES in bytes[..k]))
            && (m.stored != [] ==>
                  && after.fault == m.fault
                  && |after.answers| == |m.answers| + multiset(bytes[..k])[END_STANDARD_CODES]
                  && forall i :: |m.answers| <= i < |after.answers| ==>
                                   after.answers[i] == Report(Total(m.stored), Span(m.stored)))
    decreases |bytes|
  {
    if k > 0 {
      var upTo, next := bytes[..k], if bytes[0] == END_STANDARD_CODES then AfterRequest(m) else m;
      assert upTo == [bytes[0]] + bytes[1..][..k - 1];
      ScanMeans(next, bytes[1..], k - 1);
    }
  }

  lemma ChunkMeans(m: Meter, bytes: seq<Byte>, now: int)
    ensures var (after, heard) := AfterChunk(m, bytes, now);
            && after.answers == Scan(m, bytes).0.answers && heard == Scan(m, bytes).1
            && (heard.Some? ==> after.stored == m.stored)
            && (heard.None? ==> after.stored == Store(m.stored, now, |bytes|))
  {
    var k := FirstEnd(bytes);
    ScanMeans(m, bytes, k);
  }

  function FirstEnd(bytes: seq<Byte>): (k: nat)
    ensures k <= |bytes|
    ensures forall i :: 0 <= i < k ==> bytes[i] !in {END_TEST, END_MODE_COMMAND}
    ensures k < |bytes| ==> bytes[k] in {END_TEST, END_MODE_COMMAND}
    decreases |bytes|
  {
    if bytes == [] || bytes[0] in {END_TEST, END_MODE_COMMAND} then 0 else 1 + FirstEnd(bytes[1..])
  }

  /** Subtracting after wrapping is wrapping after subtracting. */
  lemma WrapLast(sum: nat, last: nat)
    ensures (sum % WORDS - last) % WORDS == (sum - last) % WORDS
  {
  }

  class RemoteThroughput {
    const host: Order
    var recvedBytes: seq<Entry>
    var written: seq<seq<Byte>>
    var fault: bool
    ghost var answers: seq<Report>

    /** What was written are the answers, encoded. */
    ghost predicate Valid()
      reads this
    {
      && |written| == |answers|
      && forall i :: 0 <= i < |answers| ==> written[i] == Wire(host, answers[i])
    }

    ghost function View(): Meter
      reads this
    {
      Meter(recvedBytes, answers, fault)
    }

    constructor (host: Order)
      ensures Valid() && View() == NEW_METER && this.host == host
    {
      this.host := host;
      recvedBytes, written, answers, fault := [], [], [], false;
    }

    method HandleReceive(buffer: array<Byte>, available: nat, now: int) returns (heard: Option<Event>)
      requires Valid() && available <= buffer.Length
      modifies this
      ensures Valid()
      ensures (View(), heard) == AfterChunk(old(View()), buffer[..available], now)
    {
      var i := 0;
      while i < available
        invariant 0 <= i <= available && Valid()
        invariant Scan(old(View()), buffer[..available]) == Scan(View(), buffer[i..available])
      {
        var b := buffer[i];
        assert buffer[i..available][0] == b && buffer[i..available][1..] == buffer[i + 1..available];
        if b >= END_STANDARD_CODES {
          if b == END_STANDARD_CODES {
            SendResults();
          } else if b == END_TEST {
            return Some(EndTest);
          } else if b == END_MODE_COMMAND {
            return Some(EndModeCommand);
          }
        }
        i := i + 1;
      }
      StoreChunk(now, available);
      heard := None;
    }

    /** The map finds its place from the end, where new arrivals belong. */
    method StoreChunk(now: int, bytes: nat)
      modifies this`recvedBytes
      ensures recvedBytes == Store(old(recvedBytes), now, bytes)
    {
      var i := |recvedBytes|;
      assert recvedBytes[..i] == recvedBytes;
      while i > 0 && recvedBytes[i - 1].time > now
        invariant 0 <= i <= |recvedBytes| && recvedBytes == old(recvedBytes)
        invariant Store(recvedBytes, now, bytes) == Store(recvedBytes[..i], now, bytes) + recvedBytes[i..]
      {
        StorePast(recvedBytes, i, now, bytes);
        i := i - 1;
      }
      StoreHere(recvedBytes, i, now, bytes);
      ghost var stored := Store(recvedBytes[..i], now, bytes) + recvedBytes[i..];
      if i > 0 && recvedBytes[i - 1].time == now {
        recvedBytes := recvedBytes[..i - 1] + [Entry(now, bytes)] + recvedBytes[i..];
      } else {
        recvedBytes := recvedBytes[..i] + [Entry(now, bytes)] + recvedBytes[i..];
      }
      assert recvedBytes == stored;
    }

    method SendResults()
      requires Valid()
      modifies this`written, this`answers, this`fault
      ensures Valid() && View() == AfterRequest(old(View()))
    {
      if recvedBytes == [] {
        fault := true;
        return;
      }
      var total := SumUp();
      var last := recvedBytes[|recvedBytes| - 1];
      WrapLast(SumBytes(recvedBytes), last.bytes);
      total := (total - last.bytes) % WORDS;
      var usec := (last.time - recvedBytes[0].time) % WORDS;
      var wire := Encode(total, usec);
      written := written + [wire];
      answers := answers + [Report(Total(recvedBytes), Span(recvedBytes))];
    }

    /** The accumulation loop, in 32-bit arithmetic. */
    method SumUp() returns (total: Word)
      ensures total == SumBytes(recvedBytes) % WORDS
    {
      total := 0;
      var i := 0;
      while i < |recvedBytes|
        invariant 0 <= i <= |recvedBytes|
        invariant total == SumBytes(recvedBytes[..i]) % WORDS
      {
        assert recvedBytes[..i + 1][..i] == recvedBytes[..i];
        total := (total + recvedBytes[i].bytes) % WORDS;
        i := i + 1;
      }
      assert recvedBytes[..i] == recvedBytes;
    }

    method Encode(total: Word, usec: Word) returns (wire: seq<Byte>)
      ensures wire == EncodeResult(host, total, usec)
    {
      var buffer := new Byte[8];
      FillWord(buffer, 0, total);
      FillWord(buffer, 4, usec);
      assert buffer[..] == buffer[..4] + buffer[4..8];
      wire := buffer[..];
    }

    method FillWord(buffer: array<Byte>, at: nat, w: Word)
      requires at + 4 <= buffer.Length
      modifies buffer
      ensures buffer[at..at + 4] == EncodeWord(host, w)
      ensures buffer[..at] == old(buffer[..at]) && buffer[at + 4..] == old(buffer[at + 4..])
    {
      var data := Memory(host, NetworkOrder(host, w));
      var i := 0;
      while i < 4
        invariant 0 <= i <= 4
        invariant forall j :: 0 <= j < i ==> buffer[at + j] == data[j]
        invariant buffer[..at] == old(buffer[..at]) && buffer[at + 4..] == old(buffer[at + 4..])
      {
        buffer[at + i] := data[i];
        i := i + 1;
      }
    }
  }

  // ----- The total, for every chunking -----

  function Sum(sizes: seq<nat>): nat {
    if sizes == [] then 0 else sizes[0] + Sum(sizes[1..])
  }

  /** A stream delivered in chunks of the given sizes at the given times; the event ends it. */
  function Play(m: Meter, stream: seq<Byte>, sizes: seq<nat>, times: seq<int>): (Meter, Option<Event>)
    requires |sizes| == |times| && Sum(sizes) == |stream|
    decreases |sizes|
  {
    if sizes == [] then (m, None)
    else
      var (next, heard) := AfterChunk(m, stream[..sizes[0]], times[0]);
      if heard.Some? then (next, heard)
      else Play(next, stream[sizes[0]..], sizes[1..], times[1..])
  }

  /** Only standard codes: no request, no command. */
  ghost predicate AllCodes(bytes: seq<Byte>) {
    forall i :: 0 <= i < |bytes| ==> bytes[i] < END_STANDARD_CODES
  }

  /** Payload never dispatches a command and never asks for results. */
  lemma {:induction false} PayloadIsSilent(m: Meter, bytes: seq<Byte>)
    requires AllCodes(bytes)
    ensures Scan(m, bytes) == (m, None)
    decreases |bytes|
  {
    if bytes != [] {
      PayloadIsSilent(m, bytes[1..]);
    }
  }

  lemma {:induction false} RequestEndsChunk(m: Meter, bytes: seq<Byte>)
    requires AllCodes(bytes)
    ensures Scan(m, bytes + [END_STANDARD_CODES]) == (AfterRequest(m), None)
    decreases |bytes|
  {
    var all := bytes + [END_STANDARD_CODES];
    if bytes == [] {
      assert all[1..] == [];
      assert Scan(AfterRequest(m), []) == (AfterRequest(m), None);
    } else {
      assert all[1..] == bytes[1..] + [END_STANDARD_CODES];
      RequestEndsChunk(m, bytes[1..]);
    }
  }

  ghost predicate Increasing(times: seq<int>) {
    forall i, j :: 0 <= i < j < |times| ==> times[i] < times[j]
  }

  ghost predicate ChunkSizes(sizes: seq<nat>) {
    forall i :: 0 <= i < |sizes| ==> 1 <= sizes[i] <= RECV_BUF
  }

  /** The size and the time of the chunk stored just before the one that holds the request. */
  function BeforeLast(m: Meter, sizes: seq<nat>, times: seq<int>): Entry
    requires sizes != [] && |sizes| == |times| && (|sizes| == 1 ==> m.stored != [])
  {
    if |sizes| == 1 then m.stored[|m.stored| - 1] else Entry(times[|sizes| - 2], sizes[|sizes| - 2])
  }

  function Earliest(m: Meter, times: seq<int>): int
    requires times != []
  {
    if m.stored == [] then times[0] else m.stored[0].time
  }

  /** The last chunk ends with the request: it answers for everything stored so far. */
  lemma LastChunkAnswers(m: Meter, payload: seq<Byte>, sizes: seq<nat>, times: seq<int>)
    requires AllCodes(payload) && sizes == [|payload| + 1] && |times| == 1 && m.stored != []
    ensures Sum(sizes) == |payload| + 1
    ensures var (end, heard) := Play(m, payload + [END_STANDARD_CODES], sizes, times);
            heard.None? && end.fault == m.fault && end.answers == m.answers + [Report(Total(m.stored), Span(m.stored))]
  {
    var stream := payload + [END_STANDARD_CODES];
    assert sizes[1..] == [] && stream[..|stream|] == stream;
    RequestEndsChunk(m, payload);
    var next := AfterRequest(m).(stored := Store(m.stored, times[0], |stream|));
    assert Play(next, stream[|stream|..], sizes[1..], times[1..]) == (next, None);
  }

  lemma StoredPayload(m: Meter, bytes: seq<Byte>, now: int)
    requires AllCodes(bytes) && (m.stored == [] || m.stored[|m.stored| - 1].time < now)
    ensures AfterChunk(m, bytes, now) == (m.(stored := m.stored + [Entry(now, |bytes|)]), None)
  {
    PayloadIsSilent(m, bytes);
  }

  lemma PlayOn(m: Meter, next: Meter, stream: seq<Byte>, sizes: seq<nat>, times: seq<int>)
    requires |sizes| >= 1 && |sizes| == |times| && Sum(sizes) == |stream|
    requires AfterChunk(m, stream[..sizes[0]], times[0]) == (next, None)
    ensures Play(m, stream, sizes, times) == Play(next, stream[sizes[0]..], sizes[1..], times[1..])
  {
  }

  /** A chunk of pure payload is stored, and the rest of the stream goes on. */
  lemma PayloadChunk(m: Meter, payload: seq<Byte>, sizes: seq<nat>, times: seq<int>)
    requires AllCodes(payload) && |sizes| >= 1 && |sizes| == |times|
    requires Sum(sizes) == |payload| + 1 && sizes[0] <= |payload|
    requires m.stored == [] || m.stored[|m.stored| - 1].time < times[0]
    ensures Play(m, payload + [END_STANDARD_CODES], sizes, times) ==
            Play(m.(stored := m.stored + [Entry(times[0], sizes[0])]),
                 payload[sizes[0]..] + [END_STANDARD_CODES], sizes[1..], times[1..])
  {
    var stream, n := payload + [END_STANDARD_CODES], sizes[0];
    assert stream[..n] == payload[..n] && stream[n..] == payload[n..] + [END_STANDARD_CODES];
    StoredPayload(m, payload[..n], times[0]);
    PlayOn(m, m.(stored := m.stored + [Entry(times[0], n)]), stream, sizes, times);
  }

  /** What a request answers after the rest of the payload: everything stored before the chunk of
      the request, except the chunk stored last. */
  function FinalReport(m: Meter, payload: seq<Byte>, sizes: seq<nat>, times: seq<int>): Report
    requires sizes != [] && |sizes| == |times| && (|sizes| == 1 ==> m.stored != [])
  {
    var before := BeforeLast(m, sizes, times);
    Report(SumBytes(m.stored) + |payload| + 1 - sizes[|sizes| - 1] - before.bytes, before.time - Earliest(m, times))
  }

  /** The rest of a payload and its request can still be delivered in these chunks. */
  ghost predicate Deliverable(m: Meter, payload: seq<Byte>, sizes: seq<nat>, times: seq<int>) {
    && AllCodes(payload) && ChunkSizes(sizes) && sizes != []
    && |sizes| == |times| && Increasing(times) && Sum(sizes) == |payload| + 1
    && (m.stored == [] || m.stored[|m.stored| - 1].time < times[0])
    && (m.stored == [] ==> |sizes| >= 2)
  }

  lemma RestDeliverable(m: Meter, next: Meter, payload: seq<Byte>, sizes: seq<nat>, times: seq<int>)
    requires Deliverable(m, payload, sizes, times) && |sizes| >= 2
    requires next == m.(stored := m.stored + [Entry(times[0], sizes[0])])
    ensures sizes[0] <= |payload|
    ensures Deliverable(next, payload[sizes[0]..], sizes[1..], times[1..])
  {
    assert Sum(sizes[1..]) == sizes[1] + Sum(sizes[1..][1..]);
  }

  lemma SameReport(m: Meter, next: Meter, payload: seq<Byte>, sizes: seq<nat>, times: seq<int>)
    requires |sizes| >= 2 && |sizes| == |times| && sizes[0] <= |payload|
    requires next == m.(stored := m.stored + [Entry(times[0], sizes[0])])
    ensures FinalReport(next, payload[sizes[0]..], sizes[1..], times[1..]) == FinalReport(m, payload, sizes, times)
  {
    assert next.stored[..|m.stored|] == m.stored;
  }

  lemma {:induction false} PlayAnswers(m: Meter, payload: seq<Byte>, sizes: seq<nat>, times: seq<int>)
    requires Deliverable(m, payload, sizes, times)
    ensures var (end, heard) := Play(m, payload + [END_STANDARD_CODES], sizes, times);
            && heard.None? && end.fault == m.fault
            && end.answers == m.answers + [FinalReport(m, payload, sizes, times)]
    decreases |sizes|
  {
    if |sizes| == 1 {
      assert sizes[1..] == [];
      LastChunkAnswers(m, payload, sizes, times);
    } else {
      var next := m.(stored := m.stored + [Entry(times[0], sizes[0])]);
      RestDeliverable(m, next, payload, sizes, times);
      PayloadChunk(m, payload, sizes, times);
      SameReport(m, next, payload, sizes, times);
      PlayAnswers(next, payload[sizes[0]..], sizes[1..], times[1..]);
    }
  }

  /** A legal chunking of a payload and its request: a one-byte first read, then reads of 1 to 255
      bytes, at strictly increasing times. */
  ghost predicate Chunking(payload: seq<Byte>, sizes: seq<nat>, times: seq<int>) {
    && ChunkSizes(sizes) && Sum(sizes) == |payload| + 1
    && sizes != [] && sizes[0] == 1
    && |sizes| == |times| && Increasing(times)
  }

  /** What a throughput test answers: everything but the chunk of the request and the one before it. */
  function Measured(payload: seq<Byte>, sizes: seq<nat>, times: seq<int>): Report
    requires |sizes| >= 2 && |sizes| == |times|
  {
    Report(|payload| + 1 - sizes[|sizes| - 1] - sizes[|sizes| - 2], times[|times| - 2] - times[0])
  }

  /** For every chunking: no fault, no command, one answer. */
  lemma AnswerForEveryChunking(payload: seq<Byte>, sizes: seq<nat>, times: seq<int>)
    requires AllCodes(payload) && 1 <= |payload| && Chunking(payload, sizes, times)
    ensures |sizes| >= 2
    ensures var (end, heard) := Play(NEW_METER, payload + [END_STANDARD_CODES], sizes, times);
            heard.None? && !end.fault && end.answers == [Measured(payload, sizes, times)]
  {
    AtLeastTwo(payload, sizes);
    PlayAnswers(NEW_METER, payload, sizes, times);
  }

  /** The total misses between 1 and 509 of the bytes sent. */
  lemma MeasuredBounds(payload: seq<Byte>, sizes: seq<nat>, times: seq<int>)
    requires 1 <= |payload| && Chunking(payload, sizes, times)
    ensures |sizes| >= 2
    ensures var total := Measured(payload, sizes, times).received;
            0 <= total && |payload| - 509 <= total <= |payload| - 1
  {
    AtLeastTwo(payload, sizes);
    LastTwo(sizes);
  }

  lemma AtLeastTwo(payload: seq<Byte>, sizes: seq<nat>)
    requires |payload| >= 1 && Sum(sizes) == |payload| + 1 && sizes != [] && sizes[0] == 1
    ensures |sizes| >= 2
  {
    assert Sum(sizes[1..]) == |payload|;
    assert Sum([]) == 0;
  }

  lemma {:induction false} LastTwo(sizes: seq<nat>)
    requires |sizes| >= 2
    ensures Sum(sizes) >= sizes[|sizes| - 1] + sizes[|sizes| - 2]
    decreases |sizes|
  {
    if |sizes| == 2 {
      assert sizes[1..][1..] == [];
      assert Sum(sizes[1..]) == sizes[1];
    } else {
      LastTwo(sizes[1..]);
    }
  }

  // ----- Which totals are possible -----

  function Singles(n: nat): seq<nat> {
    if n == 0 then [] else [1] + Singles(n - 1)
  }

  lemma {:induction false} SinglesThen(n: nat, a: nat, b: nat)
    ensures Sum(Singles(n) + [a, b]) == n + a + b
    ensures |Singles(n)| == n && forall i :: 0 <= i < n ==> Singles(n)[i] == 1
  {
    var sizes := Singles(n) + [a, b];
    if n == 0 {
      assert sizes == [a, b] && [a, b][1..] == [b] && [b][1..] == [];
      assert Sum([b]) == b;
    } else {
      assert sizes[1..] == Singles(n - 1) + [a, b];
      SinglesThen(n - 1, a, b);
    }
  }

  /** Read the counted bytes one by one, then the rest in two reads. */
  lemma TotalReached(payload: seq<Byte>, total: nat) returns (sizes: seq<nat>, times: seq<int>)
    requires 1 <= |payload| && |payload| - 509 <= total && 1 <= total <= |payload| - 1
    ensures Chunking(payload, sizes, times) && |sizes| >= 2 && Measured(payload, sizes, times).received == total
  {
    var rest := |payload| + 1 - total;
    var a: nat := if rest - 1 <= RECV_BUF then rest - 1 else RECV_BUF;
    var b: nat := rest - a;
    sizes := Singles(total) + [a, b];
    times := seq(|sizes|, i => i);
    SinglesThen(total, a, b);
    assert sizes[|sizes| - 1] == b && sizes[|sizes| - 2] == a;
  }

  /** Nothing is counted if the request comes with all but the first byte. */
  lemma NothingCounted(payload: seq<Byte>)
    requires 1 <= |payload| <= RECV_BUF
    ensures Chunking(payload, [1, |payload|], [0, 1]) && Measured(payload, [1, |payload|], [0, 1]).received == 0
  {
    SinglesThen(0, 1, |payload|);
    assert Singles(0) + [1, |payload|] == [1, |payload|];
  }

  /** With three reads or more, the first byte is counted. */
  lemma {:induction false} LastThree(sizes: seq<nat>)
    requires |sizes| >= 3
    ensures Sum(sizes) >= sizes[0] + sizes[|sizes| - 1] + sizes[|sizes| - 2]
  {
    LastTwo(sizes[1..]);
  }

  ghost predicate Possible(payload: seq<Byte>, total: int) {
    exists sizes: seq<nat>, times: seq<int> ::
      Chunking(payload, sizes, times) && |sizes| >= 2 && Measured(payload, sizes, times).received == total
  }

  lemma OnlyTheseTotals(payload: seq<Byte>, sizes: seq<nat>, times: seq<int>)
    requires 1 <= |payload| && Chunking(payload, sizes, times)
    ensures |sizes| >= 2
    ensures var total := Measured(payload, sizes, times).received;
            if |sizes| == 2 then total == 0 && |payload| <= RECV_BUF
            else 1 <= total && |payload| - 509 <= total <= |payload| - 1
  {
    MeasuredBounds(payload, sizes, times);
    if |sizes| == 2 {
      assert sizes == [sizes[0], sizes[1]];
      SinglesThen(0, sizes[0], sizes[1]);
      assert Singles(0) + [sizes[0], sizes[1]] == sizes;
    } else {
      LastThree(sizes);
    }
  }

  /** The totals that P payload bytes can give are exactly these. */
  lemma TotalsExactly(payload: seq<Byte>, total: int)
    requires 1 <= |payload|
    ensures Possible(payload, total) <==>
            || (1 <= total && |payload| - 509 <= total <= |payload| - 1)
            || (total == 0 && |payload| <= RECV_BUF)
  {
    if Possible(payload, total) {
      var sizes: seq<nat>, times: seq<int> :|
        Chunking(payload, sizes, times) && |sizes| >= 2 && Measured(payload, sizes, times).received == total;
      OnlyTheseTotals(payload, sizes, times);
    } else if 1 <= total && |payload| - 509 <= total <= |payload| - 1 {
      var sizes, times := TotalReached(payload, total);
    } else if total == 0 && |payload| <= RECV_BUF {
      NothingCounted(payload);
    }
  }

  lemma {:induction false} ScanKeepsFault(m: Meter, bytes: seq<Byte>)
    requires m.stored != []
    ensures var scanned := Scan(m, bytes).0; scanned.fault == m.fault && scanned.stored == m.stored
    decreases |bytes|
  {
    if bytes != [] {
      if bytes[0] == END_STANDARD_CODES {
        ScanKeepsFault(AfterRequest(m), bytes[1..]);
      } else if bytes[0] != END_TEST && bytes[0] != END_MODE_COMMAND {
        ScanKeepsFault(m, bytes[1..]);
      }
    }
  }

  lemma {:induction false} PlayKeepsFault(m: Meter, stream: seq<Byte>, sizes: seq<nat>, times: seq<int>)
    requires |sizes| == |times| && Sum(sizes) == |stream| && m.stored != []
    ensures Play(m, stream, sizes, times).0.fault == m.fault
    decreases |sizes|
  {
    if sizes != [] {
      var (next, heard) := AfterChunk(m, stream[..sizes[0]], times[0]);
      ScanKeepsFault(m, stream[..sizes[0]]);
      if heard.None? {
        PlayKeepsFault(next, stream[sizes[0]..], sizes[1..], times[1..]);
      }
    }
  }

  /** Over any stream in any chunks, the first of one byte: results are requested of an empty map
      exactly when the request is the very first byte. */
  lemma EmptyMapExactly(stream: seq<Byte>, sizes: seq<nat>, times: seq<int>)
    requires sizes != [] && sizes[0] == 1 && |sizes| == |times| && Sum(sizes) == |stream|
    ensures |stream| >= 1
    ensures Play(NEW_METER, stream, sizes, times).0.fault <==> stream[0] == END_STANDARD_CODES
  {
    FirstByte(stream[0], times[0]);
    assert stream[..1] == [stream[0]];
    var (next, heard) := AfterChunk(NEW_METER, [stream[0]], times[0]);
    if heard.None? {
      PlayKeepsFault(next, stream[1..], sizes[1..], times[1..]);
    }
  }

  lemma FirstByte(first: Byte, now: int)
    ensures var (next, heard) := AfterChunk(NEW_METER, [first], now);
            (next.fault <==> first == END_STANDARD_CODES) && (heard.None? ==> next.stored != [])
  {
    assert [first][1..] == [];
    assert Scan(AfterRequest(NEW_METER), []) == (AfterRequest(NEW_METER), None);
    assert Scan(NEW_METER, []) == (NEW_METER, None);
  }
}
