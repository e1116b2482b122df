/**
 In an activity state the state machine and its activity both have a read
 outstanding. Which of the two gets each byte of a stream makes no difference to
 the states either machine goes through, nor to what the master writes.
 */
module ReaderIndependence {
  import opened Events
  import opened Machines
  import opened MasterFsm
  import opened RemoteFsm
  import opened Handshake

  /** The remote's states while it reads a stream, byte i by readers[i]. */
  function RemoteStates(p: Process<RemoteState>, bytes: seq<Byte>, readers: seq<Reader>): seq<Process<RemoteState>>
    requires |readers| == |bytes|
    decreases |bytes|
  {
    if bytes == [] || p.Exited? then [p]
    else [p] + RemoteStates(RemoteTurn(p, bytes[0], readers[0]).next, bytes[1..], readers[1..])
  }

  function MasterStates(p: Process<MasterState>, replies: seq<Reply>, readers: seq<Reader>): seq<Process<MasterState>>
    requires |readers| == |replies|
    decreases |replies|
  {
    if replies == [] || p.Exited? then [p]
    else [p] + MasterStates(MasterTurn(p, replies[0], readers[0]).next, replies[1..], readers[1..])
  }

  function MasterWrites(p: Process<MasterState>, replies: seq<Reply>, readers: seq<Reader>): seq<Cell>
    requires |readers| == |replies|
    decreases |replies|
  {
    if replies == [] || p.Exited? then []
    else
      var turn := MasterTurn(p, replies[0], readers[0]);
      turn.writes + MasterWrites(turn.next, replies[1..], readers[1..])
  }

  lemma {:induction false} RemoteStatesAgree(p: Process<RemoteState>, bytes: seq<Byte>,
                                             some: seq<Reader>, others: seq<Reader>)
    requires |some| == |others| == |bytes|
    ensures RemoteStates(p, bytes, some) == RemoteStates(p, bytes, others)
    decreases |bytes|
  {
    if bytes != [] && p.Running? {
      RemoteTurnsAgree(p, bytes[0], some[0], others[0]);
      RemoteStatesAgree(RemoteTurn(p, bytes[0], some[0]).next, bytes[1..], some[1..], others[1..]);
    }
  }

  lemma RemoteTurnsAgree(p: Process<RemoteState>, b: Byte, one: Reader, other: Reader)
    ensures RemoteTurn(p, b, one).next == RemoteTurn(p, b, other).next
  {
  }

  lemma {:induction false} MasterRunsAgree(p: Process<MasterState>, replies: seq<Reply>,
                                           some: seq<Reader>, others: seq<Reader>)
    requires |some| == |others| == |replies|
    ensures MasterStates(p, replies, some) == MasterStates(p, replies, others)
    ensures MasterWrites(p, replies, some) == MasterWrites(p, replies, others)
    decreases |replies|
  {
    if replies != [] && p.Running? {
      MasterTurnsAgree(p, replies[0], some[0], others[0]);
      MasterRunsAgree(MasterTurn(p, replies[0], some[0]).next, replies[1..], some[1..], others[1..]);
    }
  }

  lemma MasterTurnsAgree(p: Process<MasterState>, reply: Reply, one: Reader, other: Reader)
    ensures MasterTurn(p, reply, one).next == MasterTurn(p, reply, other).next
    ensures MasterTurn(p, reply, one).writes == MasterTurn(p, reply, other).writes
  {
  }
}
