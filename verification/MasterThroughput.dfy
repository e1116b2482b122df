/**
 The sending end of the throughput measurement (src/master/MasterThroughput.cpp):
 ten bursts of the standard codes, a request for results, and the decoding of
 the eight bytes that answer it.
 */
module MasterThroughput {
  import opened Events
  import opened Machines
  import MasterFsm
  import H = Handshake
  import opened ResultCodec
  import RT = RemoteThroughput

  const NB_CODES: nat := END_STANDARD_CODES - BEGIN_STANDARD_CODES
  const BURSTS: nat := 10

  /** All standard codes in order. */
  function Codes(): seq<Byte> {
    seq(NB_CODES, i requires 0 <= i < NB_CODES => BEGIN_STANDARD_CODES + i)
  }

  /** What the stream accepts of each burst. */
  predicate Accepts(accepted: seq<nat>) {
    |accepted| <= BURSTS && forall i :: 0 <= i < |accepted| ==> accepted[i] <= NB_CODES
  }

  function Payload(accepted: seq<nat>): seq<Byte>
    requires forall i :: 0 <= i < |accepted| ==> accepted[i] <= NB_CODES
  {
    if accepted == [] then []
    else Payload(accepted[..|accepted| - 1]) + Codes()[..accepted[|accepted| - 1]]
  }

  lemma {:induction false} PayloadBelow240(accepted: seq<nat>)
    requires forall i :: 0 <= i < |accepted| ==> accepted[i] <= NB_CODES
    ensures RT.AllCodes(Payload(accepted))
    ensures |Payload(accepted)| <= NB_CODES * |accepted|
    decreases |accepted|
  {
    if accepted != [] {
      PayloadBelow240(accepted[..|accepted| - 1]);
    }
  }

  /** How many bytes the stream has taken. */
  function Taken(accepted: seq<nat>): nat {
    if accepted == [] then 0 else Taken(accepted[..|accepted| - 1]) + accepted[|accepted| - 1]
  }

  lemma {:induction false} PayloadLength(accepted: seq<nat>)
    requires forall i :: 0 <= i < |accepted| ==> accepted[i] <= NB_CODES
    ensures |Payload(accepted)| == Taken(accepted)
    decreases |accepted|
  {
    if accepted != [] {
      PayloadLength(accepted[..|accepted| - 1]);
    }
  }

  /** Byte j of burst k is the code j. */
  lemma {:induction false} PayloadByte(accepted: seq<nat>, k: nat, j: nat)
    requires forall i :: 0 <= i < |accepted| ==> accepted[i] <= NB_CODES
    requires k < |accepted| && j < accepted[k]
    ensures Taken(accepted[..k]) + j < |Payload(accepted)| && Payload(accepted)[Taken(accepted[..k]) + j] == j
    decreases |accepted|
  {
    var n := |accepted| - 1;
    var init := accepted[..n];
    PayloadLength(init);
    if k < n {
      PayloadByte(init, k, j);
      assert init[..k] == accepted[..k];
    } else {
      assert accepted[..k] == init;
    }
  }

  lemma {:induction false} WholeBurstsTaken(accepted: seq<nat>)
    requires forall i :: 0 <= i < |accepted| ==> accepted[i] == NB_CODES
    ensures Taken(accepted) == NB_CODES * |accepted|
    decreases |accepted|
  {
    if accepted != [] {
      WholeBurstsTaken(accepted[..|accepted| - 1]);
    }
  }

  /** Whole bursts carry all standard codes over and over. */
  lemma WholeBursts(accepted: seq<nat>, i: nat)
    requires forall k :: 0 <= k < |accepted| ==> accepted[k] == NB_CODES
    requires i < NB_CODES * |accepted|
    ensures |Payload(accepted)| == NB_CODES * |accepted| && Payload(accepted)[i] == i % NB_CODES
  {
    WholeBurstsTaken(accepted);
    PayloadLength(accepted);
    var k, j := i / NB_CODES, i % NB_CODES;
    WholeBurstsTaken(accepted[..k]);
    PayloadByte(accepted, k, j);
  }

  datatype Results = Results(ready: bool, gotResults: bool, totalReceived: Word, totalUsec: Word)

  /** A read of any size but eight bytes is discarded. */
  function AfterResults(r: Results, host: Order, bytes: seq<Byte>): Results {
    if |bytes| != 8 then r
    else
      var (received, usec) := DecodeResult(host, bytes);
      Results(true, true, received, usec)
  }

  class MasterThroughput {
    const host: Order
    var written: seq<Byte>
    var gotResults: bool
    var resultsReady: bool
    var totalReceived: Word
    var totalUsec: Word

    ghost function View(): Results
      reads this
    {
      Results(resultsReady, gotResults, totalReceived, totalUsec)
    }

    constructor (host: Order)
      ensures written == [] && View() == Results(false, false, 0, 0) && this.host == host
    {
      this.host := host;
      written, gotResults, resultsReady, totalReceived, totalUsec := [], false, false, 0, 0;
    }

    /** The fill loop and the send loop; stopAfter says when a stop is requested, accepted what write_some takes. */
    method SendPayload(stopAfter: nat, accepted: seq<nat>)
      requires |accepted| == BURSTS && Accepts(accepted)
      modifies this`written
      ensures var sent := accepted[..if stopAfter < BURSTS then stopAfter else BURSTS];
              written == old(written) + Payload(sent)
    {
      var buffer := new Byte[NB_CODES];
      var code: int := BEGIN_STANDARD_CODES;
      while code < END_STANDARD_CODES
        invariant BEGIN_STANDARD_CODES <= code <= END_STANDARD_CODES
        invariant written == old(written)
        invariant forall i :: 0 <= i < code - BEGIN_STANDARD_CODES ==> buffer[i] == Codes()[i]
      {
        buffer[code - BEGIN_STANDARD_CODES] := code;
        code := code + 1;
      }
      assert buffer[..] == Codes();
      var it := 0;
      assert accepted[..it] == [] && Payload(accepted[..it]) == [];
      while it < BURSTS && it < stopAfter
        invariant 0 <= it <= BURSTS && it <= stopAfter
        invariant buffer[..] == Codes()
        invariant written == old(written) + Payload(accepted[..it])
      {
        assert accepted[..it + 1][..it] == accepted[..it];
        assert buffer[..accepted[it]] == buffer[..][..accepted[it]];
        written := written + buffer[..accepted[it]];
        it := it + 1;
      }
    }

    method RequestResults()
      modifies this`written, this`resultsReady
      ensures written == old(written) + [END_STANDARD_CODES]
      ensures View() == old(View()).(ready := false)
    {
      resultsReady := false;
      written := written + [END_STANDARD_CODES];
    }

    method ReceiveResults(buffer: array<Byte>, available: nat)
      requires available <= buffer.Length
      modifies this`gotResults, this`resultsReady, this`totalReceived, this`totalUsec
      ensures View() == AfterResults(old(View()), host, buffer[..available])
    {
      if available != 8 {
        return;
      }
      var received := ReadWord(buffer, 0);
      var usec := ReadWord(buffer, 4);
      assert buffer[..8][..4] == buffer[0..4] && buffer[..8][4..] == buffer[4..8];
      totalUsec := usec;
      totalReceived := received;
      gotResults, resultsReady := true, true;
    }

    method ReadWord(buffer: array<Byte>, at: nat) returns (w: Word)
      requires at + 4 <= buffer.Length
      ensures w == DecodeWord(host, buffer[at..at + 4])
    {
      var data: seq<Byte> := [];
      var i := at;
      while i < at + 4
        invariant at <= i <= at + 4
        invariant data == buffer[at..i]
      {
        data := data + [buffer[i]];
        i := i + 1;
      }
      w := NetworkOrder(host, Load(host, data));
    }

    /** Only a late ack, the end of the test and the end of the mode are dispatched. */
    method HandleReceive(buffer: array<Byte>, available: nat) returns (heard: Option<Event>)
      requires available <= buffer.Length
      ensures heard == FirstHeard(buffer[..available])
    {
      var i := 0;
      while i < available
        invariant 0 <= i <= available
        invariant FirstHeard(buffer[..available]) == FirstHeard(buffer[i..available])
      {
        assert buffer[i..available][0] == buffer[i] && buffer[i..available][1..] == buffer[i + 1..available];
        if buffer[i] == REMOTE_ACK {
          return Some(RemoteAck);
        } else if buffer[i] == END_TEST {
          return Some(EndTest);
        } else if buffer[i] == END_MODE_COMMAND {
          return Some(EndModeCommand);
        }
        i := i + 1;
      }
      heard := None;
    }
  }

  function FirstHeard(bytes: seq<Byte>): Option<Event>
    decreases |bytes|
  {
    if bytes == [] then None
    else if bytes[0] == REMOTE_ACK then Some(RemoteAck)
    else if bytes[0] == END_TEST then Some(EndTest)
    else if bytes[0] == END_MODE_COMMAND then Some(EndModeCommand)
    else FirstHeard(bytes[1..])
  }

  /** The first RemoteAck, EndTest or EndModeCommand of a read is dispatched as what it is, and nothing else. */
  lemma {:induction false} FirstHeardMeans(bytes: seq<Byte>, k: nat)
    requires k <= |bytes|
    requires forall i :: 0 <= i < k ==> bytes[i] !in {REMOTE_ACK, END_TEST, END_MODE_COMMAND}
    requires k < |bytes| ==> bytes[k] in {REMOTE_ACK, END_TEST, END_MODE_COMMAND}
    ensures FirstHeard(bytes) == if k < |bytes| then Decode(bytes[k]) else None
    decreases |bytes|
  {
    if k > 0 {
      FirstHeardMeans(bytes[1..], k - 1);
    }
  }

  /** The one-byte reads the test posts: what the machine hears is as the handshake model says. */
  lemma OneByteReads(b: Byte)
    ensures FirstHeard([b]) == H.MasterHears(Running(MasterFsm.ThroughputMode), H.One(b), H.ActivityReader)
  {
    assert [b][1..] == [];
    assert FirstHeard([]) == None;
  }

  /** Only a read of eight bytes makes a result, of the numbers it spells out. */
  lemma ResultsMean(r: Results, host: Order, bytes: seq<Byte>)
    ensures |bytes| != 8 ==> AfterResults(r, host, bytes) == r
    ensures |bytes| == 8 ==>
              AfterResults(r, host, bytes) ==
              Results(true, true, BigEndianValue(bytes[..4]), BigEndianValue(bytes[4..]))
  {
    if |bytes| == 8 {
      var (received, usec) := DecodeResult(host, bytes);
      ResultRoundTrip(host, host, received, usec, bytes);
      WireIsBigEndian(host, received, usec);
    }
  }

  /** From the master's send loop to the master's figures: for every partial write, chunking and pair
      of hosts, the total reported is at most 509 bytes short of what was written, and never all of it. */
  lemma EndToEnd(accepted: seq<nat>, sizes: seq<nat>, times: seq<int>,
                 remoteHost: Order, masterHost: Order, before: Results)
    requires Accepts(accepted) && Payload(accepted) != []
    requires RT.Chunking(Payload(accepted), sizes, times)
    ensures var payload := Payload(accepted);
            var (end, heard) := RT.Play(RT.NEW_METER, payload + [END_STANDARD_CODES], sizes, times);
            && heard.None? && !end.fault && |end.answers| == 1
            && var after := AfterResults(before, masterHost, RT.Wire(remoteHost, end.answers[0]));
               && after.ready && after.gotResults
               && |payload| - 509 <= after.totalReceived <= |payload| - 1
               && after.totalUsec == Wrap(times[|times| - 2] - times[0])
  {
    var payload := Payload(accepted);
    PayloadBelow240(accepted);
    RT.AnswerForEveryChunking(payload, sizes, times);
    RT.MeasuredBounds(payload, sizes, times);
    var report := RT.Measured(payload, sizes, times);
    Delivered(remoteHost, masterHost, before, report);
  }

  lemma DecodesWhatWasSent(remoteHost: Order, masterHost: Order, before: Results, received: Word, usec: Word)
    ensures AfterResults(before, masterHost, EncodeResult(remoteHost, received, usec)) ==
            Results(true, true, received, usec)
  {
    ResultRoundTrip(remoteHost, masterHost, received, usec, EncodeResult(remoteHost, 0, 0));
  }

  /** A report small enough for 32 bits reaches the master's fields unchanged. */
  lemma Delivered(remoteHost: Order, masterHost: Order, before: Results, report: RT.Report)
    requires 0 <= report.received < WORDS
    ensures AfterResults(before, masterHost, RT.Wire(remoteHost, report)) ==
            Results(true, true, report.received, Wrap(report.usec))
  {
    SmallWire(remoteHost, report);
    DecodesWhatWasSent(remoteHost, masterHost, before, report.received, Wrap(report.usec));
  }

  lemma SmallWire(host: Order, report: RT.Report)
    requires 0 <= report.received < WORDS
    ensures RT.Wire(host, report) == EncodeResult(host, report.received, Wrap(report.usec))
  {
    SmallWrap(report.received);
  }
}
