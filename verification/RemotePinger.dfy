/** The echo of the availability test (src/remote/RemotePinger.cpp). */
module RemotePinger {
  import opened Events
  import opened Machines
  import opened RemoteFsm
  import opened Handshake

  /** Every payload byte of a read is answered with the first byte of the buffer; a command it
      dispatches ends the read. */
  function Echoes(first: Byte, bytes: seq<Byte>): (seq<Byte>, Option<Event>)
    decreases |bytes|
  {
    if bytes == [] then ([], None)
    else if bytes[0] <= END_STANDARD_CODES then
      var (rest, heard) := Echoes(first, bytes[1..]);
      ([first] + rest, heard)
    else if bytes[0] == END_TEST then ([], Some(EndTest))
    else if bytes[0] == END_MODE_COMMAND then ([], Some(EndModeCommand))
    else Echoes(first, bytes[1..])
  }

  /** A read of any length: one echo per payload byte before the first dispatched event, none after it. */
  lemma {:induction false} EchoesMean(first: Byte, bytes: seq<Byte>, k: nat)
    requires k <= |bytes|
    requires forall i :: 0 <= i < k ==> bytes[i] !in {END_TEST, END_MODE_COMMAND}
    requires k < |bytes| ==> bytes[k] in {END_TEST, END_MODE_COMMAND}
    ensures var (echoes, heard) := Echoes(first, bytes);
            && |echoes| == |PayloadOf(bytes[..k])|
            && (forall i :: 0 <= i < |echoes| ==> echoes[i] == first)
            && heard == if k < |bytes| then Decode(bytes[k]) else None
    decreases |bytes|
  {
    if k > 0 {
      assert bytes[..k][1..] == bytes[1..][..k - 1];
      EchoesMean(first, bytes[1..], k - 1);
    }
  }

  class RemotePinger {
    var written: seq<Byte>

    constructor ()
      ensures written == []
    {
      written := [];
    }

    method HandleReceive(buffer: array<Byte>, available: nat) returns (heard: Option<Event>)
      requires 1 <= available <= buffer.Length
      modifies this
      ensures written == old(written) + Echoes(buffer[0], buffer[..available]).0
      ensures heard == Echoes(buffer[0], buffer[..available]).1
    {
      var i := 0;
      while i < available
        invariant 0 <= i <= available
        invariant old(written) + Echoes(buffer[0], buffer[..available]).0 ==
                  written + Echoes(buffer[0], buffer[i..available]).0
        invariant Echoes(buffer[0], buffer[..available]).1 == Echoes(buffer[0], buffer[i..available]).1
      {
        assert buffer[i..available][0] == buffer[i] && buffer[i..available][1..] == buffer[i + 1..available];
        if BEGIN_STANDARD_CODES <= buffer[i] <= END_STANDARD_CODES {
          written := written + [buffer[0]];
        } else if buffer[i] == END_TEST {
          assert written + [] == written;
          return Some(EndTest);
        } else if buffer[i] == END_MODE_COMMAND {
          assert written + [] == written;
          return Some(EndModeCommand);
        }
        i := i + 1;
      }
      assert written + [] == written;
      heard := None;
    }
  }

  /** The one-byte reads the pinger posts behave as the handshake model says: payload is echoed
      as it is, and only EndTest and EndModeCommand reach the machine. */
  lemma OneByteReads(b: Byte)
    ensures var p := Running(RemoteAvailabilityMode);
            && Ones(Echoes(b, [b]).0) == Answers(p, b, ActivityReader)
            && Echoes(b, [b]).1 == RemoteHears(p, b, ActivityReader)
  {
    assert [b][1..] == [];
    assert Echoes(b, []) == ([], None);
  }
}
