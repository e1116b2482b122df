# ModemTester: a verified model

ModemTester measures a radio or modem link. A *master* and a *remote*, each a
six-state machine, agree over one serial line to enter availability mode (ping
and echo) or throughput mode (bulk data), run the measurement, and leave the
mode again. Acknowledgements carry no numbers, timers resend, and handshake
bytes share the line with the payload. This project models the two machines, the
runtime they stand on, the composed system with a byte queue each way, and the
four measuring activities, and proves what the design relies on.

## How the model is built

- `Events`, `Machines`: wire codes, and tinyfsm's step semantics for a machine
  given by a table (entry byte, reaction, base class of each state).
- `Runtime`, `BaseFsm`, `MasterFsm`, `RemoteFsm`: the static current state, the
  `_timer` and `_runnable` of every state object, and the callbacks still to
  run. `BaseFsm.Fsm` is the mutable machine; `MasterFsm` and `RemoteFsm` hold
  one method per `react`, each proved against the pure runtime. `Ownership`
  proves the runtime's invariants over every run and that the runtime refines
  the table; `ResendTimer` says exactly when a state keeps its resend timer;
  `TimeoutErasure` proves that timeouts only repeat bytes.
- `Handshake`: both machines and both queues. A step delivers one byte to one of
  the two outstanding reads, loses, repeats or invents a byte, dispatches an
  event, fires a timer or writes payload. `RuntimeRefinement` proves that its runs
  are exactly those of two runtime machines joined by the two lines, with all
  their timers, expiries and late callbacks. `Lockstep`, `LossTolerance`,
  `GateExactness`, `Quiescence`, `Confluence`, `ReaderIndependence`, `Traps`,
  `Hearing`, `Recovery` and `ResultGate` are about its runs; `ChunkedReads` and
  `ChunkedRuns` add the chunks of the throughput activity.
- `MasterPinger`, `PingReference`, `RemotePinger`: the availability measurement,
  and a reference that numbers pings without bound.
- `RemoteThroughput`, `ResultCodec`, `MasterThroughput`: the throughput
  measurement under arbitrary chunking, down to the master's decoded figures.
- `EventsScript`: the cyclic timed script.

Each dispatch, send and read is one atomic step. The process ends on `EndTest`
and is then `Exited`. `armed` records whether a read is outstanding. Safety holds
with or without it. The results on coming to rest suppose that a queued byte can
always be delivered; those on deafness are about runs in which a byte only
reaches a read that was posted. The eight bytes of a throughput result
travel as one framed reply in the handshake model, and as eight bytes in
`ResultCodec`. Times are integer microseconds. The 32-bit words of the result
wrap as in C++; the pinger's counters are unbounded naturals. The ordered
`std::map` of received chunks is a sequence ordered by time.

## What came out

- With a forward line that loses and repeats nothing, and bytes read one at a
  time, the machines are in lockstep whatever happens on the way back, and no
  payload byte is ever read in a handshake state (`Lockstep.ModesAgree`,
  `Lockstep.PayloadReadInMode`).
- RemoteThroughput reads up to 255 bytes at once and discards what follows an
  EndModeCommand in the same chunk (src/remote/RemoteThroughput.cpp:66-68).
  What it discards counts as lost: once the activity is past its one-byte first
  read (src/remote/RemoteThroughput.cpp:39), a read of two bytes breaks lockstep
  on lines that lose nothing (`ChunkedRuns.ChunkBreaksLockstep`). If mode commands
  wait as below, chunks are harmless as long as the master runs
  (`ChunkedRuns.ChunkedRunsKeep`). An EndTest issued behind an EndModeCommand that
  the remote still has to read in throughput mode can be discarded exactly if the
  activity has read its first byte, or another byte is there for that first read,
  and at most 254 EndModeCommands are queued
  (`ChunkedRuns.EndTestReachesExactly`); a gated run leads there
  (`ChunkedRuns.LosingIsReachable`).
- With both lines lossy and repeating, the remote is at most one phase behind if
  every mode command waits until the remote has caught up and no ack is in
  flight. The wait is not only sufficient: a mode command issued from any other
  state has a continuation that breaks the property
  (`LossTolerance.LossTolerant`, `GateExactness.GateIsExact`). MasterFSM.cpp
  itself does not wait, and a run without the wait ends in a pair of states that
  no later traffic repairs (`Traps.WedgeIsReachable`, `Traps.WedgedForever`).
- A lost byte is made good: from every state within the phase invariant timeouts
  and deliveries alone bring the remote level with the master
  (`Recovery.Recovers`). By reads that the code posts they do so exactly unless an
  idle machine is stuck, that is without a read or about to lose it to a byte that
  moves it nowhere (`Recovery.RecoversExactly`); a gated run on perfect lines
  leads to a stuck remote (`Recovery.StuckIsReachable`).
- MasterThroughput ends its own mode once it has read a result
  (src/master/MasterThroughput.cpp:62-68), and that is as good as waiting: if the
  other mode commands wait, this one does not have to
  (`ResultGate.ThroughputGatesItself`). A result settles the handshake exactly if
  no result stood behind an ack on its way back when the mode was commanded
  (`ResultGate.ResultOpensGateExactly`); one EndModeCommand issued too early
  leaves such a stale result (`ResultGate.StaleIsReachable`).
- On perfect lines a single resend timer firing early leaves the remote in
  RemoteIdle with no read outstanding, for good: a second MasterAck causes no
  transition there, and only a transition posts a new read
  (`Traps.DeafnessIsReachable`, `Traps.DeafForever`). The branch that answers a
  RemoteAck in Idle (src/master/MasterFSM.cpp:47-51) is to blame and nothing
  else: a run of one-byte reads on a forward line that loses and repeats nothing
  never deafens the remote if it never takes that branch (`Hearing.NeverDeaf`), and one step that takes it is enough
  (`Hearing.LateAckDeafensExactly`).
- Timers are never leaked or freed twice, but a timed state can lose its resend
  timer: a callback deletes whatever timer its object holds by then. A state
  entered by an event keeps its timer, whatever expires and whatever callback
  runs in whatever order, exactly if at the dispatch no callback of that state
  object and no unaborted callback was queued, and the event did not re-enter
  the state while its timer was waiting (`ResendTimer.TimerKeptExactly`). At the
  master only a Timeout that is not its own re-enters a waiting state, from an
  event script or another object's late callback; at the remote every repeated
  EndModeCommand does as well (`ResendTimer.MasterDisturbedExactly`,
  `ResendTimer.RemoteDisturbedExactly`,
  `ResendTimer.RepeatedEndModeLosesTimer`). A state without its timer never
  resends on its own (`ResendTimer.LostTimerIsSilent`).
- The byte-keyed pinger agrees with the reference if and only if every echo
  arrives while all outstanding pings belong to one pass over the 240 codes
  (`PingReference.RefinesExactly`). After more than three overwritten pings the
  remote is never reported reachable again
  (`MasterPinger.OutageIsRememberedForever`): an outage of n unanswered pings can
  be recovered from exactly if n is at most 243 (`MasterPinger.RecoversExactly`).
- The throughput total is between P - 509 and P - 1 for P payload bytes, for every
  chunking (`RemoteThroughput.MeasuredBounds`). The possible totals are exactly
  those in this range from 1 up, and 0 if P is at most 255
  (`RemoteThroughput.TotalsExactly`).

## Model

| member | source | states |
|---|---|---|
| Lockstep.LockstepAlways | src/remote/RemoteFSM.cpp:60-185 | Over every run of one-byte reads whose forward line neither loses nor repeats, whatever the reverse line loses, repeats or invents: folding the remote over all bytes queued to it yields the twin of the master's state, and every queued payload byte will be read in its own mode |
| Lockstep.ModesAgree | src/remote/RemoteFSM.cpp:60-185 | From start-up, with one-byte reads and a faithful forward line, whenever the forward queue is empty the two machines are in exactly twin states |
| Lockstep.PayloadReadInMode | src/master/MasterFSM.cpp:122-158 | From start-up, with one-byte reads and a faithful forward line, a ping at the head of the queue finds the remote in RemoteAvailabilityMode, a load byte or result request finds it in RemoteThroughputMode |
| Lockstep.StepKeeps | src/BaseFSM.h:84-103 | Every kind of step, any event, timer, reader or reverse-line fault included, keeps lockstep and payload placement |
| Lockstep.TwinFollows | src/master/MasterFSM.cpp:37-183 | What the master writes on any event moves the remote from the old state's twin to the new state's twin |
| Lockstep.ReadIsConsume | src/BaseFSM.h:189-234 | Whichever outstanding read takes a byte, the remote's next state, the master's next state and what the master writes are the same |
| LossTolerance.LossTolerant | src/master/MasterFSM.cpp:37-183 | Both lines lossy and repeating, timers at will, mode commands gated: in every reachable state the remote is in the master's phase or one behind |
| LossTolerance.GatedRunsKeep | src/master/MasterFSM.cpp:37-183 | The phase invariant (languages of old and new bytes for the forward queue, no ack in flight while the remote lags) holds over every gated run from any state where it holds |
| LossTolerance.MasterKeeps | src/master/MasterFSM.cpp:37-183 | An ack, a timeout or a gated event, at the master, keeps the phase invariant |
| LossTolerance.RemoteReads | src/remote/RemoteFSM.cpp:60-185 | Old bytes leave a lagging remote where it is, only a new one brings it level, and it writes no ack before it is level while the master awaits one |
| LossTolerance.StepKeeps | src/master/MasterFSM.cpp:37-183 | Every admitted step keeps the phase invariant |
| GateExactness.GateIsExact | src/master/MasterFSM.cpp:37-147 | From any state within the phase invariant, a mode command that moves the master is safe for every gated continuation if and only if the remote is in the twin state and no RemoteAck is in flight |
| GateExactness.UnsettledIsUnsafe | src/master/MasterFSM.cpp:37-147 | A mode command issued from any other state has a continuation that leaves the remote more than one phase away |
| GateExactness.SettledIsSafe | src/master/MasterFSM.cpp:37-147 | From a settled state every gated continuation stays within one phase |
| GateExactness.AckArrives | src/master/MasterFSM.cpp:65-67 | A stale ack anywhere in the reverse queue can be the next reply the master reads, and moves it on with the remote unchanged |
| LossTolerance.GateIsForCommands | src/master/MasterFSM.cpp:37-147 | The gate holds back nothing but local commands that come too early and forged replies: every loss, repeat, delivery, timer and payload byte is admitted |
| Recovery.RecoversExactly | src/master/MasterFSM.cpp:37-183 | From any state within the phase invariant with the master running, timeouts and deliveries alone, by reads that were posted, bring the remote to the master's twin if and only if neither idle machine is stuck |
| Recovery.Recovers | src/master/MasterFSM.cpp:106-158 | Without regard to posted reads they always can, and unless a machine is stuck by posted ones |
| Recovery.EveryAckIsAnswered | src/master/MasterFSM.cpp:47-51 | In every state the master answers a RemoteAck with exactly one MasterAck, so a lost one is sent again |
| Recovery.EveryTimeoutAcks | src/remote/RemoteFSM.cpp:83-97 | A remote that waits for its MasterAck repeats its ack at every timeout and stays |
| Recovery.CatchUp | src/remote/RemoteFSM.cpp:60-185 | Reading on to the byte the phase needs brings the remote level |
| Recovery.AckBringsKey | src/master/MasterFSM.cpp:113-131 | A master that awaits no ack answers the next one with the MasterAck the remote needs, and stays in its state |
| Recovery.StuckForever | src/BaseFSM.h:189-234 | A stuck machine never gets level by timeouts and deliveries of posted reads |
| Recovery.StuckIsReachable | src/remote/RemoteFSM.cpp:60-74 | A gated run on perfect lines and one more mode command, which the gate admits, leave the remote stuck |
| Traps.WedgedForever | src/master/MasterFSM.cpp:37-56 | Once the master is before any mode while the remote is in one, and no EndModeCommand, EndTest or ack is in flight, no run without EndTest or forged acks changes that |
| Traps.WedgeIsReachable | src/master/MasterFSM.cpp:106-176 | A nine-step run with one lost MasterAck and an early EndModeCommand ends in (Idle, RemoteAvailabilityMode), which is wedged and not within one phase |
| Traps.DeafenedExactlyBy | src/remote/RemoteFSM.cpp:60-74 | Of all steps, one deafens a remote that is not deaf if and only if it reads, in RemoteIdle, a byte that is none of the two mode commands and EndTest |
| Traps.DeafForever | src/BaseFSM.h:189-234 | A remote without an outstanding read in RemoteIdle stays so over every run in which each byte reaches a read that was posted; if also no ack is in flight and none is forged, a master before any mode never reaches one again |
| Traps.DeafnessIsReachable | src/remote/RemoteFSM.cpp:170-185 | A gated run in which every read was posted, and one timer fires before its ack is answered, ends with the remote deaf |
| Traps.DeafeningIsFaithful | src/master/MasterFSM.cpp:47-51 | That run loses, repeats and forges nothing on either line |
| Quiescence.NoAckStorm | src/master/MasterFSM.cpp:47-51 | Deliveries alone, by any readers, are at most as many as the energy of the queues, which counts 3 per queued mode command, 2 per RemoteAck and 1 per MasterAck |
| Quiescence.DeliveriesCommute | src/BaseFSM.h:189-234 | A delivery forward and one back enable each other and commute |
| Quiescence.DrainAbsorbsReverse | src/BaseFSM.h:189-234 | Delivering a reply first leads to the same state at rest as draining forward first |
| Quiescence.OrderDoesNotMatter | src/BaseFSM.h:189-234 | With one reader fixed per direction, every order of deliveries that runs to rest ends in one and the same state, echoes and outstanding reads included |
| Confluence.RestIsDetermined | src/BaseFSM.h:189-234 | From any state, any two ways to deliver what is in flight, each byte to either reader, that run to rest leave the same master state, remote state and forward line |
| Confluence.ReadersDoNotMatter | src/remote/RemotePinger.cpp:42-75 | Every such way ends with the core (both machines, forward line, events on the way back) that the start alone determines |
| Confluence.CoreForward | src/remote/RemoteThroughput.cpp:48-75 | Which reader takes a forward byte does not change the core after it |
| Confluence.CoreReverse | src/master/MasterPinger.cpp:98-134 | Which reader takes a reply does not change the core after it, and a reply that is no event changes no core at all |
| Quiescence.StepKeepsAck | src/remote/RemoteFSM.cpp:170-192 | On lossless lines every step keeps: while the master awaits an ack, one is in flight or the pending bytes will produce it |
| Quiescence.RestIsMatched | src/remote/RemoteFSM.cpp:60-185 | In lockstep with nothing deliverable, the machines are both idle, in the same mode, or both exited |
| Quiescence.ComesToRest | src/master/MasterFSM.cpp:37-183 | After any lossless run from start-up, deliveries in any order and to any readers are at most as many as the energy of the queues, and leave a resting pair once nothing can be delivered |
| Quiescence.EmptyQueuesAreSettled | src/master/MasterFSM.cpp:37-183 | On lossless lines from start-up, empty queues imply a resting pair |
| ReaderIndependence.RemoteStatesAgree | src/remote/RemotePinger.cpp:42-75 | For every byte stream, any two assignments of bytes to the state's read and the activity's read give the same sequence of remote states |
| ReaderIndependence.MasterRunsAgree | src/master/MasterPinger.cpp:98-134 | For every stream of replies, any two such assignments give the same master states and the same bytes written |
| ChunkedReads.ChunkIsSteps | src/remote/RemoteThroughput.cpp:42-81 | Handling n bytes as one chunk equals n one-byte deliveries up to an EndModeCommand or EndTest, the rest being lost; the meter writes one result per request, or none if nothing was stored before |
| ChunkedReads.OnlyRepeatsAreDiscarded | src/remote/RemoteThroughput.cpp:66-68 | Within the phase invariant, everything queued behind an EndModeCommand the throughput activity can read is another EndModeCommand |
| ChunkedReads.ChunksKeepLockstep | src/remote/RemoteThroughput.cpp:66-68 | So, within the phase invariant, a chunked read keeps lockstep and payload placement although it discards bytes |
| ChunkedRuns.ChunkedRunsKeep | src/remote/RemoteThroughput.cpp:42-82 | Over every gated run on a faithful forward line that mixes one-byte reads with chunks of any size: as long as the master runs, phase invariant, lockstep and payload placement hold |
| ChunkedRuns.ChunkedModesAgree | src/remote/RemoteThroughput.cpp:42-82 | The same from start-up: at most one phase behind, and exact twins whenever the forward queue is empty |
| ChunkedRuns.ChunkBreaksLockstep | src/remote/RemoteThroughput.cpp:66-68 | Without the gate, from start-up: nine steps that lose nothing, every read posted and the activity past its one-byte first read, then a read of two bytes leave the master idle, the remote in EndModeReceived and nothing queued |
| ChunkedRuns.EndTestReachesExactly | src/remote/RemoteThroughput.cpp:33-92 | For any state in step and any meter: an EndTest is followed by lockstep in every run of the code (reads posted, first read of an activity one byte, later ones up to 255) if and only if not all of this holds: the remote has still to read in throughput mode that the mode is over, the activity has stored something or has another byte to store first, and at most 254 EndModeCommands are queued |
| ChunkedRuns.EndTestCloses | src/BaseFSM.h:247-253 | Outside that case no EndModeCommand queued before the EndTest will be read in throughput mode |
| ChunkedRuns.LosesEndTest | src/remote/RemoteThroughput.cpp:66-81 | With something stored and at most 254 EndModeCommands queued, the activity reads up to the first EndModeCommand byte by byte and discards the EndTest in one read |
| ChunkedRuns.FreshLosesEndTest | src/remote/RemoteThroughput.cpp:39-81 | The same for a fresh activity that has another byte for its first read |
| ChunkedRuns.SafeAlways | src/remote/RemoteThroughput.cpp:39-81 | If a fresh activity has no other byte, or more EndModeCommands are queued, every run of the code stays in lockstep |
| ChunkedRuns.LosingIsReachable | src/master/MasterFSM.cpp:82-147 | A gated run of the code from start-up leads to a state in which an EndTest can be lost |
| ResultGate.ThroughputGatesItself | src/master/MasterThroughput.cpp:62-68 | From start-up, both lines lossy: if in throughput mode EndModeCommand is issued only after the activity has read a result during that stay, and every other mode command is gated, the whole run is gated and the remote at most one phase behind |
| ResultGate.ResultOpensGateExactly | src/master/MasterThroughput.cpp:74-94 | For any idle state within the phase invariant: after the throughput command every result the test can read settles the handshake if and only if no result stood behind an ack in the reverse queue at the command |
| ResultGate.ResultSettles | src/master/MasterThroughput.cpp:108-137 | A result read during a test leaves the remote in RemoteThroughputMode and no ack in flight |
| ResultGate.SettledLasts | src/master/MasterFSM.cpp:133-147 | And so it stays as long as the mode lasts |
| ResultGate.TestStep | src/remote/RemoteFSM.cpp:60-168 | Every step of a test, losses and repeats on both lines included, keeps the languages of its two lines |
| ResultGate.SelfStep | src/master/MasterThroughput.cpp:62-68 | Every step of such a run keeps phase invariant, test invariant and the settled handshake after a result |
| ResultGate.StaleIsReachable | src/master/MasterFSM.cpp:133-176 | Without the gate, from start-up on lines that lose nothing, thirteen steps lead to an idle master with a result behind an ack |
| Hearing.NoLateAckKeepsHearing | src/master/MasterFSM.cpp:47-51 | Over every run on a faithful forward line in which the master never answers an ack while idle, no byte queued will be read in RemoteIdle without a transition, and the remote is not deaf |
| Hearing.NeverDeaf | src/BaseFSM.h:189-234 | From start-up, such a run never deafens the remote |
| Hearing.LateAckDeafensExactly | src/master/MasterFSM.cpp:47-51 | From a state in which the remote hears well, a step is the answer to a late ack if and only if after it the remote has a run of its own, every read posted, that ends deaf |
| Hearing.IdleHearsExactly | src/remote/RemoteFSM.cpp:60-74 | For any state: the remote can go deaf by itself if and only if a byte is queued that RemoteIdle will read without a transition |
| RuntimeRefinement.SameReach | src/BaseFSM.h:189-303 | From start-up, a state (both machines, both lines, both reads) is reached by two runtime machines with their expiries and callbacks if and only if the handshake reaches it by a run in which reads were posted |
| RuntimeRefinement.RuntimeProjects | src/BaseFSM.h:189-303 | Every run of the two runtime machines, late and aborted callbacks included, is a run of the handshake: same states, same bytes on both lines, same reads outstanding |
| RuntimeRefinement.HandshakeIsReal | src/BaseFSM.h:256-303 | Every such run of the handshake is one of the two runtime machines: the timer it fires is live, expires and has its callback run |
| RuntimeRefinement.RuntimeInLockstep | src/BaseFSM.h:189-303 | Lockstep and payload placement over every run of the runtime with one-byte reads and a faithful forward line |
| RuntimeRefinement.RuntimeLossTolerant | src/BaseFSM.h:189-303 | At most one phase behind over every run of the runtime whose dispatches from elsewhere are gated |
| RuntimeRefinement.TrapsAreReal | src/BaseFSM.h:256-303 | The runs that deafen and wedge the remote are runs of the runtime |
| RuntimeRefinement.RemoteReadRefines | src/BaseFSM.h:189-234 | One byte read by a state of the remote: the runtime and the system agree on state, bytes written and outstanding read |
| RuntimeRefinement.MasterReadRefines | src/BaseFSM.h:189-234 | The same for the master |
| RuntimeRefinement.RemoteDispatchRefines | src/tinyfsm.hpp:124-139 | One event dispatched at the remote: the same agreement |
| RuntimeRefinement.MasterDispatchRefines | src/tinyfsm.hpp:124-139 | The same for the master |
| Events.DecodeInvertsId | src/BaseFSM.h:205-231 | A byte read dispatches event e if and only if e is not a timeout and the byte is e's id |
| TimeoutErasure.TimeoutsOnlyRepeat | src/master/MasterFSM.cpp:62-64 | For any machine whose timeouts only resend: erasing all timeouts of a run leaves the final state, and the output is the erased run's with as many bytes repeated in place as timeouts hit a timed state |
| TimeoutErasure.ErasingTimeouts | src/remote/RemoteFSM.cpp:83-85 | The same with the repeat count of every output byte, and the invariant that in a timed state the last byte sent is that state's entry byte |
| MasterFsm.MasterTimeoutErasure | src/master/MasterFSM.cpp:169-171 | Timeout erasure for the master over every event sequence |
| RemoteFsm.RemoteTimeoutErasure | src/remote/RemoteFSM.cpp:174-176 | Timeout erasure for the remote over every event sequence |
| Ownership.EveryRunOwns | src/BaseFSM.h:256-303 | Over every order of events, expiries and late callbacks: at most one live timer and one live activity, none freed twice, leaked or dereferenced through null, an activity alive exactly in an activity state, and a timed state without a timer exactly when an aborted callback of its own object ran since its last entry |
| Ownership.StepOwns | src/BaseFSM.h:256-303 | Every stimulus keeps that ownership |
| Ownership.CallbackOwns | src/BaseFSM.h:256-266 | Any queued callback, aborted or not, of any state object, run in any order, keeps it |
| Ownership.LeavingFreesAll | src/BaseFSM.h:95-103 | Leaving a state leaves no timer and no activity, held or live, even right after a callback deleted the timer |
| Ownership.EnteringOwns | src/BaseFSM.h:84-93 | Entering any state with nothing owned establishes ownership |
| Ownership.StartOwns | src/tinyfsm.hpp:115-122 | Starting a machine establishes ownership |
| Ownership.HeldIsKept | src/BaseFSM.h:84-92 | Starting a timer or an activity that the object already holds creates no second one |
| Ownership.DispatchIsNext | src/tinyfsm.hpp:124-139 | A dispatch moves and writes exactly as one step of the table, whatever timers and activities exist |
| Ownership.EveryRunFollowsTable | src/tinyfsm.hpp:124-139 | Over every run, state and output are the table run over the events dispatched: timers and late callbacks never steer by themselves |
| ResendTimer.TimerKeptExactly | src/BaseFSM.h:256-303 | For every machine, runtime state and event that causes a transition: the state entered keeps its timer through every order of expiries and callbacks if and only if the dispatch was undisturbed (nothing queued threatens the state, and it is not re-entered while its timer waits) |
| ResendTimer.UndisturbedRunsKeepTimer | src/BaseFSM.h:256-303 | Over every run whose dispatches from outside the timers are undisturbed, a timed state has its timer and nothing queued can take it |
| ResendTimer.MasterKeepsTimer | src/master/MasterFSM.cpp:37-183 | The same for the master from start-up |
| ResendTimer.RemoteKeepsTimer | src/remote/RemoteFSM.cpp:60-192 | The same for the remote from start-up |
| ResendTimer.CallbackKeeps | src/BaseFSM.h:256-266 | A calm timed state survives any queued callback, its own expiry included |
| ResendTimer.SelfTransitionQueuesAbort | src/BaseFSM.h:279-303 | With its timer waiting and nothing queued, a dispatch leaves an abort of the current object queued if and only if it is a self-transition |
| ResendTimer.MasterDisturbedExactly | src/master/MasterFSM.cpp:58-176 | At the master, with the timer waiting and nothing queued, the event that disturbs is exactly Timeout, which an event script can hold (src/EventsScript.h:67-69) |
| ResendTimer.RemoteDisturbedExactly | src/remote/RemoteFSM.cpp:172-177 | At the remote it is exactly Timeout, and EndModeCommand in EndModeReceived |
| ResendTimer.SelfTransitionLosesTimer | src/BaseFSM.h:256-303 | Any self-transition while the timer waits, followed by the two aborted callbacks, leaves the state without a timer |
| ResendTimer.RepeatedEndModeLosesTimer | src/remote/RemoteFSM.cpp:172-177 | A repeated EndModeCommand read in EndModeReceived and two callbacks leave it without a timer and with nothing queued |
| ResendTimer.EndModeIsReachable | src/remote/RemoteFSM.cpp:60-136 | Four stimuli lead from start-up to a remote to which that applies |
| ResendTimer.LostTimerIsSilent | src/BaseFSM.h:256-266 | A timed state without a timer, with no callback queued, is unchanged by any amount of timer work |
| MasterFsm.MasterOwnership | src/master/MasterFSM.cpp:37-183 | Ownership and agreement with the table over every run of the master |
| RemoteFsm.RemoteOwnership | src/remote/RemoteFSM.cpp:60-192 | Ownership and agreement with the table over every run of the remote |
| MasterFsm.MasterResends | src/master/MasterFSM.cpp:58-104 | Every timed state of the master answers a timeout by re-entering itself, which writes one byte; no other state reacts to a timeout |
| MasterFsm.MasterMoves | src/master/MasterFSM.cpp:37-183 | Which events move the master from which states, and what it writes on the way, as one rule over all states: RemoteAck everywhere, timeouts and EndModeCommand by what the state wrote on entry, mode commands in Idle only |
| RemoteFsm.RemoteMoves | src/remote/RemoteFSM.cpp:60-192 | The same for the remote: MasterAck everywhere but in RemoteIdle and without an answer, every other move answered by one ack |
| RemoteFsm.RemoteResends | src/remote/RemoteFSM.cpp:76-192 | The same for the remote |
| BaseFsm.Fsm.constructor | src/tinyfsm.hpp:115-122 | A machine before its first entry owns nothing |
| BaseFsm.Fsm.SendByte | src/BaseFSM.h:182-187 | Appends one byte to the output |
| BaseFsm.Fsm.PostRead | src/BaseFSM.h:135-142 | Entering any state posts a read |
| BaseFsm.Fsm.StartTimer | src/BaseFSM.h:268-277 | A timer is created and waits for this state object only if the object holds none |
| BaseFsm.Fsm.CancelTimer | src/BaseFSM.h:279-289 | The held timer is deleted once, its waiting callback is queued as aborted, and the object holds none; nothing happens without one |
| BaseFsm.Fsm.TimedEntry | src/BaseFSM.h:291-296 | Entry of a timed state posts a read and starts the timer |
| BaseFsm.Fsm.TimedExit | src/BaseFSM.h:298-303 | Exit of a timed state drops its timer |
| BaseFsm.Fsm.TakeCallback | src/BaseFSM.h:256-266 | A callback deletes whatever timer its object holds by now, and asks for a Timeout if and only if it was not aborted |
| BaseFsm.Fsm.ActivityEntry | src/BaseFSM.h:84-93 | Starts an activity only if none is held, and posts a read |
| BaseFsm.Fsm.ActivityExit | src/BaseFSM.h:95-103 | Stops and deletes the held activity; a null or dead one is a fault |
| MasterFsm.EnterState | src/master/MasterFSM.cpp:74-183 | The entry action of every state writes its byte and starts its timer or activity |
| MasterFsm.TransitTo | src/tinyfsm.hpp:133-139 | Exit of the old state, switch, entry of the new one, also for a self-transition |
| MasterFsm.IdleReact | src/master/MasterFSM.cpp:37-56 | Whole new runtime state per event; a late RemoteAck is answered with MasterAck and re-enters Idle |
| MasterFsm.SentAvailableModeCommandReact | src/master/MasterFSM.cpp:58-72 | Timeout resends the command, RemoteAck starts the availability mode, all else is ignored |
| MasterFsm.SentThroughputModeCommandReact | src/master/MasterFSM.cpp:82-96 | Timeout resends the command, RemoteAck starts the throughput mode, all else is ignored |
| MasterFsm.AvailabilityModeReact | src/master/MasterFSM.cpp:106-120 | EndModeCommand stops the pinger and waits for an ack, RemoteAck restarts the mode |
| MasterFsm.ThroughputModeReact | src/master/MasterFSM.cpp:133-147 | The same for the throughput mode |
| MasterFsm.WaitAckAfterEndModeReact | src/master/MasterFSM.cpp:160-176 | RemoteAck is answered with MasterAck and leads to Idle, Timeout resends EndModeCommand |
| MasterFsm.DispatchEvent | src/tinyfsm.hpp:124-127 | Dispatch reacts in the current state; EndTest writes its code and ends the process from any state |
| MasterFsm.HandleReadEvt | src/BaseFSM.h:189-234 | One byte read: its event is dispatched, a payload byte none, and only a transition posts a new read |
| MasterFsm.HandleTimerCallback | src/BaseFSM.h:256-266 | One callback run: timer deleted, Timeout dispatched unless aborted |
| RemoteFsm.EnterState | src/remote/RemoteFSM.cpp:92-192 | The entry action of every state writes its ack where it has one and starts its timer or activity |
| RemoteFsm.RemoteIdleReact | src/remote/RemoteFSM.cpp:60-74 | The two mode commands are acknowledged, all else is ignored |
| RemoteFsm.AvailabilityCommandReceivedReact | src/remote/RemoteFSM.cpp:76-90 | MasterAck enters the mode, Timeout repeats the ack |
| RemoteFsm.ThroughputCommandReceivedReact | src/remote/RemoteFSM.cpp:99-113 | MasterAck enters the mode, Timeout repeats the ack |
| RemoteFsm.RemoteAvailabilityModeReact | src/remote/RemoteFSM.cpp:122-136 | EndModeCommand stops the echo and is acknowledged, MasterAck restarts the mode |
| RemoteFsm.RemoteThroughputModeReact | src/remote/RemoteFSM.cpp:146-160 | The same for the throughput mode |
| RemoteFsm.EndModeReceivedReact | src/remote/RemoteFSM.cpp:170-185 | EndModeCommand and Timeout repeat the ack, MasterAck leads to RemoteIdle |
| RemoteFsm.DispatchEvent | src/tinyfsm.hpp:124-127 | As for the master |
| RemoteFsm.HandleReadEvt | src/BaseFSM.h:189-234 | As for the master |
| RemoteFsm.HandleTimerCallback | src/BaseFSM.h:256-266 | As for the master |
| MasterPinger.Conservation | src/master/MasterPinger.cpp:98-116 | Under any interleaving of sends, received bytes (stale, repeated or never sent) and reachability checks: sent - received - lost - outstanding grows by exactly the number of overwritten pings |
| MasterPinger.NeverUnderflows | src/master/MasterPinger.cpp:66-73 | From start: sent = received + lost + outstanding + overwritten, so received + lost never exceeds sent, and at most 240 pings are outstanding |
| MasterPinger.OnlyCodesMatch | src/master/MasterPinger.cpp:98-116 | A received 240 or control byte never matches a ping, in any reachable state |
| MasterPinger.DoKeepsDiscipline | src/master/MasterPinger.cpp:53-62 | Every act keeps: the next code is sent mod 240 and only codes below 240 are outstanding |
| MasterPinger.ReachableExactly | src/master/MasterPinger.cpp:66-73 | The remote is reported reachable if and only if at most three pings are outstanding or overwritten |
| MasterPinger.OutageIsRememberedForever | src/master/MasterPinger.cpp:66-73 | After more than three overwritten pings it is never reported reachable again, whatever follows |
| MasterPinger.SilenceOverwrites | src/master/MasterPinger.cpp:56-62 | n unanswered pings overwrite exactly those past the 240th |
| MasterPinger.RecoversExactly | src/master/MasterPinger.cpp:56-73 | After n unanswered pings some continuation is reported reachable if and only if n <= 243 |
| MasterPinger.ChunkIsReceives | src/master/MasterPinger.cpp:92-133 | A read of any length receives exactly the payload bytes before the first RemoteAck, EndTest or EndModeCommand, in order, and dispatches the event of that byte |
| MasterPinger.OneByteReads | src/master/MasterPinger.cpp:92-134 | For the one-byte reads it posts, this is one receive and what the handshake model says the machine hears |
| MasterPinger.EchoMeasured | src/master/MasterPinger.cpp:60-105 | A ping and its echo add one to sent and received and the time between them to the RTT sum, and leave the ping no longer outstanding |
| MasterPinger.StrangerIgnored | src/master/MasterPinger.cpp:101-117 | A byte that is not outstanding changes nothing |
| MasterPinger.MasterPinger.constructor | src/master/MasterPinger.cpp:84-86 | All counters zero, unreachable, nothing outstanding |
| MasterPinger.MasterPinger.SendOne | src/master/MasterPinger.cpp:58-62 | One iteration's send: counter, stamp of the code, wrapped next code |
| MasterPinger.MasterPinger.ReceiveOne | src/master/MasterPinger.cpp:101-112 | A known code is received, everything the map orders before it is lost, and all of those leave the map |
| MasterPinger.MasterPinger.HandleReceive | src/master/MasterPinger.cpp:88-134 | The loop over a read buffer equals its fold, and ends at the first event it dispatches |
| MasterPinger.MasterPinger.Run | src/master/MasterPinger.cpp:37-82 | The whole send loop, with arrivals between sends, equals its run of acts; byte i written is i mod 240 |
| MasterPinger.MasterPinger.RunTurn | src/master/MasterPinger.cpp:56-75 | One turn: one send, the arrivals of the wait, one reachability check |
| MasterPinger.MasterPinger.ReceiveAll | src/master/MasterPinger.cpp:98-116 | The arrivals of one wait equal their acts, and write nothing |
| PingReference.RefinesExactly | src/master/MasterPinger.cpp:56-116 | Over every run on a FIFO lossy echo path: the byte-keyed pinger agrees with the unbounded reference on sent, received, lost, RTT sum and outstanding pings at every step if and only if every echo arrives while the outstanding pings lie in one pass over the codes |
| PingReference.ReceiveAgreesExactly | src/master/MasterPinger.cpp:101-111 | One echo keeps the agreement if and only if the outstanding pings lie in one pass |
| PingReference.ReceiveInLapAgrees | src/master/MasterPinger.cpp:101-111 | Within one pass, code order is send order: losses, RTT and remaining window are the reference's |
| PingReference.ReceiveAcrossWrapDisagrees | src/master/MasterPinger.cpp:101-111 | Across a wrap every echo is miscounted |
| PingReference.SendAgrees | src/master/MasterPinger.cpp:58-62 | A send keeps the agreement always, also when it overwrites |
| PingReference.LostIsDropped | src/master/MasterPinger.cpp:106-109 | The reference's loss count is the number of pings dropped before the latest echo |
| PingReference.PingerCountsTruth | src/master/MasterPinger.cpp:98-116 | On those runs received counts exactly the echoes, lost exactly the pings dropped before the latest echo |
| PingReference.EmptyAtWrapSuffices | src/master/MasterPinger.cpp:56-62 | It is enough that nothing is outstanding whenever code 0 is sent |
| PingReference.StraddlingMiscounts | src/master/MasterPinger.cpp:107-109 | With pings 239 and 240 outstanding and nothing dropped, one echo counts a loss and forgets the later ping |
| RemotePinger.RemotePinger.HandleReceive | src/remote/RemotePinger.cpp:42-75 | Every payload byte is answered with the first byte of the buffer, a dispatched command ends the read |
| RemotePinger.OneByteReads | src/remote/RemotePinger.cpp:39-54 | For the one-byte reads it posts, this is the echo and the dispatch of the handshake model |
| RemotePinger.EchoesMean | src/remote/RemotePinger.cpp:46-73 | A read of any length: one echo per payload byte before the first EndTest or EndModeCommand, none after it, and that event dispatched |
| ResultCodec.ResultRoundTrip | src/master/MasterThroughput.cpp:117-136 | For all pairs of words and both host byte orders, decoding the eight bytes returns the pair, and encoding what was decoded returns the bytes |
| ResultCodec.WordRoundTrip | src/remote/RemoteThroughput.cpp:115-120 | The same for one word |
| ResultCodec.WireIsBigEndian | src/remote/RemoteThroughput.cpp:113-126 | On either host bytes 0 to 3 of a result spell the bytes received and bytes 4 to 7 the microseconds, as numbers with the most significant byte first (RFC 791, Appendix B) |
| ResultCodec.WordIsBigEndian | src/remote/RemoteThroughput.cpp:115-120 | The same of one word |
| ResultCodec.WrapMeans | src/remote/RemoteThroughput.cpp:100-107 | Cutting to 32 bits changes a number by a multiple of 2^32 |
| RemoteThroughput.StoreKeepsOrder | src/remote/RemoteThroughput.cpp:77-78 | Storing a chunk keeps the map ordered and nonempty, its last key the later of the two |
| RemoteThroughput.StoreSetsOne | src/remote/RemoteThroughput.cpp:77-78 | Afterwards the map holds the new entry and every old one with another key, nothing else |
| RemoteThroughput.PayloadIsSilent | src/remote/RemoteThroughput.cpp:48-75 | Bytes below 240 dispatch nothing and compute no result |
| RemoteThroughput.ScanMeans | src/remote/RemoteThroughput.cpp:48-75 | A read of any length: as many equal reports about the chunks stored before as it holds requests before the first EndTest or EndModeCommand, that event dispatched, and a fault exactly for a request of an empty map |
| RemoteThroughput.ChunkMeans | src/remote/RemoteThroughput.cpp:63-78 | The chunk is stored exactly if it dispatched nothing |
| RemoteThroughput.PlayAnswers | src/remote/RemoteThroughput.cpp:42-109 | For every remaining chunking and any chunks already stored, payload then a request gives one answer: all stored chunks but the last, between first and last stored time |
| RemoteThroughput.AnswerForEveryChunking | src/remote/RemoteThroughput.cpp:33-92 | From a fresh meter, first read one byte, others 1 to 255: the map is never empty at the request, and the one answer sums all stored chunks but the last |
| RemoteThroughput.MeasuredBounds | src/remote/RemoteThroughput.cpp:103-107 | For P >= 1 payload bytes, P - 509 <= total <= P - 1 |
| RemoteThroughput.TotalsExactly | src/remote/RemoteThroughput.cpp:103-107 | For P >= 1 payload bytes a total t is possible if and only if max(1, P - 509) <= t <= P - 1, or t = 0 and P <= 255 |
| RemoteThroughput.TotalReached | src/remote/RemoteThroughput.cpp:39-81 | A chunking for every such t above 0 |
| RemoteThroughput.EmptyMapExactly | src/remote/RemoteThroughput.cpp:107-109 | Over any stream in any chunks, the first of one byte: sendResults meets an empty map if and only if the very first byte is the request |
| RemoteThroughput.RemoteThroughput.constructor | src/remote/RemoteThroughput.cpp:94 | A fresh meter |
| RemoteThroughput.RemoteThroughput.HandleReceive | src/remote/RemoteThroughput.cpp:42-82 | The loop over a chunk of any size equals its fold: answers, the event dispatched, and the chunk stored only if none was |
| RemoteThroughput.RemoteThroughput.StoreChunk | src/remote/RemoteThroughput.cpp:77-78 | The ordered insertion, an equal key overwritten |
| RemoteThroughput.RemoteThroughput.SendResults | src/remote/RemoteThroughput.cpp:96-127 | Writes the report of the stored chunks; a fault if there are none |
| RemoteThroughput.RemoteThroughput.SumUp | src/remote/RemoteThroughput.cpp:100-106 | The loop computes the sum of all chunks modulo 2^32 |
| RemoteThroughput.RemoteThroughput.Encode | src/remote/RemoteThroughput.cpp:113-126 | The eight bytes of the result |
| RemoteThroughput.RemoteThroughput.FillWord | src/remote/RemoteThroughput.cpp:115-126 | Fills four bytes of the buffer and leaves the others |
| MasterThroughput.PayloadBelow240 | src/master/MasterThroughput.cpp:45-57 | Every payload byte is below 240, whatever the stream accepts of each burst |
| MasterThroughput.PayloadByte | src/master/MasterThroughput.cpp:45-57 | Byte j of what the stream took of burst k is j |
| MasterThroughput.PayloadLength | src/master/MasterThroughput.cpp:53-57 | The payload is as long as all bursts the stream took together |
| MasterThroughput.WholeBursts | src/master/MasterThroughput.cpp:45-57 | If every burst is taken whole, byte i is i mod 240 |
| MasterThroughput.FirstHeardMeans | src/master/MasterThroughput.cpp:153-169 | The first RemoteAck, EndTest or EndModeCommand of a read is dispatched as the event of that byte, and nothing else |
| MasterThroughput.OneByteReads | src/master/MasterThroughput.cpp:149-171 | For the one-byte reads it posts, this is what the handshake model says the machine hears |
| MasterThroughput.ResultsMean | src/master/MasterThroughput.cpp:108-137 | Eight bytes set the figures to the numbers they spell most significant byte first, on either host; any other number changes nothing |
| MasterThroughput.EndToEnd | src/master/MasterThroughput.cpp:108-137 | For every partial write, chunking and pair of hosts: the master's decoded total is between P - 509 and P - 1, and its time is the span of the stored chunks |
| MasterThroughput.Delivered | src/master/MasterThroughput.cpp:117-136 | A report that fits 32 bits reaches the master's fields unchanged |
| MasterThroughput.MasterThroughput.constructor | src/master/MasterThroughput.cpp:71-72 | Nothing written, no results |
| MasterThroughput.MasterThroughput.SendPayload | src/master/MasterThroughput.cpp:45-57 | Fill and send loops: a prefix of the codes 0 to 239 per burst, ten bursts or until a stop |
| MasterThroughput.MasterThroughput.RequestResults | src/master/MasterThroughput.cpp:74-81 | Writes one request byte and marks the results not ready |
| MasterThroughput.MasterThroughput.ReceiveResults | src/master/MasterThroughput.cpp:108-137 | Eight bytes set the decoded figures and both flags; any other number changes nothing |
| MasterThroughput.MasterThroughput.ReadWord | src/master/MasterThroughput.cpp:120-126 | Four bytes copied in memory order, then ntohl |
| MasterThroughput.MasterThroughput.HandleReceive | src/master/MasterThroughput.cpp:149-171 | Dispatches the first RemoteAck, EndTest or EndModeCommand of the buffer and nothing else |
| EventsScript.CyclicScript | src/EventsScript.h:102-137 | After any number of firings of a cyclic script of n >= 2 entries, the k-th event dispatched is entry k mod (n - 1), and each pass starts one last-duration after the one before |
| EventsScript.PlainScript | src/EventsScript.h:112-136 | A script that is not cyclic dispatches every entry at its date, each once and in order, and then nothing |
| EventsScript.FireStaysInPass | src/EventsScript.h:160-168 | Every firing stays in its pass, and the last one starts the next pass |
| EventsScript.DispatchedExactly | src/EventsScript.h:119-126 | An event is dispatched by some firing if and only if an entry before the last carries it; the last entry itself is dispatched by none |
| EventsScript.EventsScript.constructor | src/EventsScript.h:94-98 | A script without entries or timers |
| EventsScript.EventsScript.Assign | src/EventsScript.h:32 | Assignment through operator[] of the map: the new entry replaces the one with its key and leaves all others, in order |
| EventsScript.PutSetsOne | src/EventsScript.h:32 | The same of the ordered insertion it uses |
| EventsScript.EventsScript.StartScript | src/EventsScript.h:102-137 | One new timer object per entry at its date, the last one restarting if cyclic; none of the old pass is left alive |
| EventsScript.EventsScript.StopScript | src/EventsScript.h:139-148 | Every timer object of the pass is deleted, none of them twice, and none is left alive |
| EventsScript.EventsScript.FireNext | src/EventsScript.h:150-168 | A timer dispatches its event or restarts the script |

## Left out

- Real thread races: dispatch from pool threads, counters shared between threads and joins that wait for each other; each dispatch, send and read is one atomic step.
- boost.asio streams, sockets and serial ports, and `cancel` on the stream: which of the outstanding reads a cancel aborts is not modelled, both readers are possible at every byte.
- Read errors: a stream error that dispatches EndTest from an activity or ends the process from a state.
- Result bytes misread as commands after a repeated request, and the three-second timer that repeats the request: a result is one framed reply in the handshake model.
- Floating point: the average round trip, throughput in bits per second and the printed reports; times are integer microseconds, and the rounding of the time span through `double` is not modelled, nor that a span of more than 2^32 microseconds is undefined there (the model cuts it to 32 bits).
- An empty chunk map in sendResults is undefined behaviour in C++; the model sets `fault` and answers nothing, and a run in which it happens is no run of the code for `ChunkedRuns.Real`.
- The EndModeCommand of a throughput test that reaches the machine only after its mode was left by another command: dispatch through the pool takes no time in `ResultGate.SelfGated`.
- A restart of an activity by a repeated ack loses what the old activity had measured; reader independence is about states and the master's writes, not about the figures.
- The 64-bit counters of the pinger are unbounded.
- Sleeps, the rate of pings, the Ivy bus, option parsing, logging and `main.cpp`.
- RunnablePool, MasterController, CommunicatingRunnableFactory, ReportingActivity and the activity factories: object lifecycles whose claims would be easy; the factories allocated by each entry are not counted.
- Event scripts: real clocks and late callbacks; starting an empty script, for which `std::prev(end())` is undefined, is excluded by a precondition.
