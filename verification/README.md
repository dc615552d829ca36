# LadoFlow: a verified model of the transport, pacing and session core

LadoFlow turns an Android device into a second display. A desktop host encodes
video, multiplexes it with control messages into one LDFL byte stream, and sends
that stream over TCP or USB; the display decodes it and answers on the same link.
This project models that core in Dafny 4.11 and proves what it promises.
`dafny verify dfyconfig.toml` checks everything.

What is proved, hardest first:

- **The stream behaves like two FIFO channels.** `Pipeline` is a transition
  system of one direction of a link: the application's bounded queues, the
  multiplexer's two slots, the partly written packet, the bytes in flight, the
  decoder's buffer, the backlog of decoded packets and the far queues. Every
  locked operation is one atomic step, the socket takes or returns any number of
  bytes up to a chunk, and either worker may stop or either link be cut at any
  step, under a running worker too. One inductive invariant gives end-to-end
  fidelity over every run (`Fidelity`, `FidelityOverRuns`), reliable control
  (`ControlIsReliable`) and acceptance of every stream a worker writes
  (`NeverRejectedOverRuns`). If every packet still to send carries one whole frame
  on its lane and no number is on both lanes, the useful steps alone deliver
  everything accepted (`EverythingArrives`), and no schedule stops the sender
  (`NeverStoppedOverRuns`). Where lanes are numbered in
  increasing order that condition is also necessary: otherwise the multiplexer
  stops and something is missing for ever, and no schedule of the worker does
  better (`NoScheduleDelivers`).
- **Both pumps refine it.** The TCP and the USB worker are classes with the
  source's fields and loops, driven by an arbitrary socket or device and
  interleaved, at every release of the link's lock, with an arbitrary application
  (`Applications`). Every effect they have is a run of the pipe
  (`TcpWorker.RunTcpStream`, `UsbWorker.RunBulkSession`, `SenderIsAPipeRun`,
  `ReceiverIsAPipeRun`), their status counts exactly what those steps did, and two
  workers joined by a stream deliver faithfully (`JoinedStreamIsFaithful`). Turns
  are exact: a worker that was not stopped took all of them, each reading what the
  socket or device gave, or having a packet refused, and each writing until nothing
  is left (`PumpTcpStream`, `EnoughTurns`, `PumpBulkStream`).
- **Global order at the multiplexer** over whole runs in which anything is sent
  between its two receives: the stream is in order exactly when no call met the
  condition under which it overtakes (`GlobalOrder`, `WhenSplitNextOvertakes`). The
  host's numbers meet the hypothesis, so its stream is gapless exactly then
  (`HostStreamIsGapless`). Every such run is a run of the pipe
  (`MuxRunIsPipeRun`): all the host had accepted is delivered (`HostTrafficArrives`),
  and the peer that decodes it accepts every number with nothing skipped exactly
  when no call overtook (`PeerDecodesHost`).
- **Exact frame timelines**: the split division is exact, no `u128` overflows,
  timestamp and index are adjoint, durations telescope; the pacer accounts for
  every slot under any clock and misses none when polled at the times it announces;
  the latest-frame scheduler conserves frames, always holds the newest, and drops,
  keeps or dispatches it by time and size alone.
- **Sessions**: reconnecting is bounded and closes, every success restores the whole
  budget, the receive cursor survives any number of resumes, negotiation is
  symmetric and best, the handshake does not depend on the order of its two
  messages and succeeds exactly when both sides fit, its numbers continue into the
  session, the display mode chosen is optimal.
- **Codecs**: frames and all nine typed payloads round-trip both ways; decoding
  does not depend on chunking; latency percentiles are true percentiles; the
  pairing token's text is accepted exactly when its canonical form is a rendering.

## Modules

| module | models |
|---|---|
| `Wrappers`, `Words`, `Arithmetic` | options and results, machine integers in network order, products and floors |
| `Utf8`, `Frames`, `Payloads` | `crates/ladoflow-protocol/src/` |
| `Packets`, `Loopback`, `Applications` | `packet.rs`, `transport.rs`, `loopback.rs` of `crates/ladoflow-transport/src/`, and the threads that share a link |
| `LdflStream`, `MuxOrder`, `MuxRuns` | `ldfl_stream.rs`: the stream's decoder and the multiplexer, one call and whole runs |
| `HostSequences`, `PeerVerdicts`, `HostDelivery` | the host's numbering in `runtime.rs`, what a peer's session makes of it, and its delivery |
| `Delivery`, `Pipeline` | the histories and the transition system |
| `Withheld`, `Progress`, `HeadOfLine` | what is never delivered, what always is, and how the lanes depend on each other |
| `MuxPipes` | the multiplexer's runs inside the pipe |
| `Endpoints`, `StreamWorkers`, `TurnProgress`, `EndToEnd` | one endpoint's steps, what the two workers share, what turns achieve, and two workers joined |
| `TcpPump`, `UsbPump`, `UsbFlood` | `tcp.rs`, the Windows `usb_accessory.rs`, and a run on which they differ |
| `FrameRates`, `Pacing`, `Scheduler` | `crates/ladoflow-media/src/` and the loop of `run_loopback` |
| `Sessions`, `Negotiation`, `DisplayModes`, `Handshake`, `Opening` | `session.rs`, `negotiation.rs`, `host_protocol.rs` |
| `LatencyStats`, `Token` | `crates/ladoflow-core/src/telemetry.rs`, the token codec of `pairing.rs` |

Where the source updates fields in place the model is a class whose methods
equate the new state with a function of the old one; the theorems are lemmas
about those functions, over every state or every run.

## Where code and promise differ

- `LdflPacketMux::next` is documented to return the globally earliest frame, but
  its two receives are two critical sections. `WhenSplitNextOvertakes` says
  exactly when a call made while packets are sent returns a later one,
  `GlobalOrder` that the stream is out of order from then on and in order
  otherwise, and `SplitNextReorders` gives a pair of packets for which it happens.
  A peer calls the overtaken packet stale (`PeerDecodesHost`). Order within a lane
  never depends on it (`Fidelity`).
- A link accepts packets its stream cannot carry. Nothing ever passes one that is
  not one whole frame of its lane (`NothingPassesAnInvalidPacket`,
  `StrayPacketIsNeverDelivered`), and at it, or at a number that is on both lanes,
  the multiplexer stops its worker with something missing for good
  (`EverythingArrives`, `StoppedWithholds`).
- The two lanes are called independent, but a worker offers decoded packets in the
  order of the stream: a control packet whose queue has room waits exactly when a
  packet ahead of it finds its own queue full (`WhenPacketWaits`). Four media frames
  that the application does not take hold back all control traffic
  (`MediaHoldsBackControl`).
- `frame_at_or_before` is the adjoint of `timestamp` for every elapsed time below
  `Duration::MAX`; at `Duration::MAX` itself it is so exactly for rates of at
  least one frame per second (`WhenAdjointEverywhere`).
- After a due slot the next deadline lies in the future unless the clock stands
  at `Duration::MAX` (`DueIsNewest`).
- Reconnect delays double up to attempt 32 only; from attempt 33 on the
  multiplier stays at 2^32 - 1 (`Backoff`).
- The mode ladder holds landscape modes only, so a portrait request that does not
  fit the display is always refused (`WhenNothingFits`).
- The TCP worker keeps a decoded packet until its queue has room; the USB worker
  ends the session instead, exactly when the queue is full (`WhenUsbGivesUp`).
  It takes 65 small control frames, pings for example, or 4 small media frames, and
  an application that is not taking any to reach that state from two new endpoints
  (`FloodEndsUsbSession`).

## Model

| member | source | states |
|---|---|---|
| `Pipeline.StepKeepsInv` | crates/ladoflow-transport/src/tcp.rs:236-339 | every atomic step of sender, wire and receiver, including stops and cuts, keeps the invariant over queues, slots, partial packet, bytes in flight, decoder buffer and backlog |
| `Pipeline.FreshInv` | crates/ladoflow-transport/src/loopback.rs:164-177 | two freshly connected endpoints with any valid limits satisfy the invariant, so every theorem that assumes it holds of every run |
| `Pipeline.Fidelity` | crates/ladoflow-transport/src/tcp.rs:236-339 | in every reachable state what a lane has delivered is byte for byte a prefix of what was accepted on it minus the packets reported superseded, and the reports are exact |
| `Pipeline.FidelityOverRuns` | crates/ladoflow-transport/src/tcp.rs:216-339 | the same from freshly connected endpoints with any queue limits, for every list of actions |
| `Pipeline.ControlIsReliable` | crates/ladoflow-transport/src/packet.rs:1-8 | no control packet is ever superseded; what arrives is a prefix of everything accepted, packet by packet |
| `Pipeline.IdleMeansDelivered` | crates/ladoflow-transport/src/tcp.rs:236-314 | when every stage of a live pipe is empty, everything that survived has been delivered and the decoder holds no bytes |
| `Pipeline.NeverRejected` | crates/ladoflow-transport/src/tcp.rs:20-29 | with the built-in limits no step but an outside stop ends the receiving worker while its link is up, and a read stays below the decoder's limit |
| `Pipeline.NeverRejectedOverRuns` | crates/ladoflow-transport/src/tcp.rs:267-314 | over any run without an outside stop or a cut the receiving worker keeps running: a stream written by one pump is never rejected by the other |
| `Pipeline.ReadDecodes` | crates/ladoflow-protocol/src/frame.rs:426-455 | a read of any size decodes to exactly the next frames emitted and leaves the rest of the stream in buffer and wire |
| `Progress.NoDeadlock` | crates/ladoflow-transport/src/tcp.rs:248-314 | a live pipe that is not idle has a step that brings it closer to delivery; the one exception is a choice that fails, and it stops the worker |
| `Progress.SendableNeverStuck` | crates/ladoflow-transport/src/tcp.rs:248-314 | the exception does not occur while every packet to send is one whole frame on its lane and no number is on both lanes |
| `Progress.ScheduledStepKeepsSendable` | crates/ladoflow-transport/src/tcp.rs:248-314 | a step during which nothing is sent keeps that condition and the worker running; where lanes increase it does not repair it either |
| `Progress.NeverStoppedOverRuns` | crates/ladoflow-transport/src/tcp.rs:248-314 | over any interleaving in which every packet accepted keeps the traffic sendable, the sending worker runs until an outside stop or a cut |
| `Progress.EverythingArrives` | crates/ladoflow-transport/src/tcp.rs:248-314 | from any reachable state with both workers running, a list of useful steps delivers everything accepted and not superseded and leaves every stage empty, if the traffic is sendable; on lanes of increasing numbers, otherwise, the worker stops and on some lane fewer packets than were owed arrive whatever is done after |
| `Progress.NoScheduleDelivers` | crates/ladoflow-transport/src/tcp.rs:248-314 | on lanes of increasing numbers and without that condition, no sequence of steps of the worker delivers everything, as long as nothing more is sent and the link is up |
| `Withheld.NothingPassesAnInvalidPacket` | crates/ladoflow-transport/src/ldfl_stream.rs:155-179 | in every reachable state, nothing accepted behind a packet that is no whole frame of its lane has been delivered, nor that packet |
| `Withheld.InvalidControlBlocksItsLane` | crates/ladoflow-transport/src/ldfl_stream.rs:155-179 | for a control packet that holds for ever, whatever is done |
| `Withheld.StrayPacketIsNeverDelivered` | crates/ladoflow-transport/src/ldfl_stream.rs:155-179 | an input: over any fresh link a control packet of one byte is accepted, and no control packet is ever delivered |
| `Withheld.StoppedWithholds` | crates/ladoflow-transport/src/ldfl_stream.rs:129-151 | after the multiplexer stopped, a lane that owed a packet never delivers all that was owed, whatever is done, sends included |
| `HostDelivery.ConsistentIsSendable` | apps/desktop/src-tauri/src/runtime.rs:893-938 | at every moment of every run of the multiplexer under increasing numbers the traffic is sendable and each lane increasing |
| `MuxPipes.MuxRunIsPipeRun` | crates/ladoflow-transport/src/ldfl_stream.rs:100-152 | every run of the multiplexer under increasing numbers is a run of the pipe with the same queues and slots, the same packets accepted lane by lane and the same packets on the wire, and what left is delivered |
| `MuxPipes.AllocatedNeverStops` | crates/ladoflow-transport/src/ldfl_stream.rs:100-152 | under any interleaving of polls, choices, writes, reads and sends of increasing numbers the multiplexer never stops its worker |
| `HostDelivery.HostSessionIsPipeRun` | apps/desktop/src-tauri/src/runtime.rs:893-938 | every session of a host over a fresh stream link is such a run from fresh endpoints |
| `HostDelivery.HostTrafficArrives` | apps/desktop/src-tauri/src/runtime.rs:893-938 | after any session, a list of steps delivers exactly everything the host has had accepted, in order and lane by lane, and the multiplexer does not stop |
| `HostDelivery.PeerDecodesHost` | crates/ladoflow-core/src/session.rs:306-327 | of the frames decoded at the far end of a session's stream, a peer accepts all with nothing skipped exactly when no call overtook, and calls one stale exactly when it was overtaken |
| `Delivery.MarkSurvivors` | crates/ladoflow-transport/src/loopback.rs:298-304 | marking entries of the history superseded keeps exactly what the queue keeps |
| `Delivery.AdvanceTakesFirst` | crates/ladoflow-transport/src/loopback.rs:307-311 | a pop takes the first survivor of the history and leaves the others |
| `Applications.Application.Act` | crates/ladoflow-transport/src/loopback.rs:99-162 | what the application does while the lock is free is some list of sends, receives and disconnects on its side of the link |
| `Endpoints.NextIsSteps` | crates/ladoflow-transport/src/ldfl_stream.rs:114-152 | one call of the multiplexer is a poll, what the application does meanwhile, another poll and a choice |
| `Endpoints.SenderIsAPipeRun` | crates/ladoflow-transport/src/tcp.rs:236-265 | whatever worker and application do to the sending half is a run of the pipe, with exactly those bytes on the wire |
| `Endpoints.ReceiverIsAPipeRun` | crates/ladoflow-transport/src/tcp.rs:267-314 | whatever they do to the receiving half, reading off the front of the wire, is a run of the pipe that consumes exactly those bytes |
| `StreamWorkers.Join` | crates/ladoflow-transport/src/tcp.rs:216-234 | histories of one endpoint compose: end state, bytes written and read, counters, and whether every offer was taken |
| `StreamWorkers.StreamEndpoint.Interfere` | crates/ladoflow-transport/src/loopback.rs:136-162 | what the application does between two of the worker's turns at the lock is a list of steps of the endpoint that writes, reads and counts nothing |
| `StreamWorkers.StreamEndpoint.PullNext` | crates/ladoflow-transport/src/tcp.rs:251-257 | one call of the multiplexer as steps of the endpoint; the packet pulled is written from its start, and an invalid queue ends the worker |
| `StreamWorkers.StreamEndpoint.OfferFirst` | crates/ladoflow-transport/src/tcp.rs:303-311 | one packet is offered: taken, kept at the front when the queue is full, or the worker ends |
| `StreamWorkers.StreamEndpoint.Advance` | crates/ladoflow-transport/src/tcp.rs:258-265 | the offset advances by what was taken, those bytes are on the wire, and the packet is finished exactly at its end |
| `StreamWorkers.StreamEndpoint.Decode` | crates/ladoflow-transport/src/tcp.rs:270-284 | one read is decoded into the backlog, or ends the worker exactly when the decoder fails |
| `StreamWorkers.StreamEndpoint.Shut` | crates/ladoflow-transport/src/tcp.rs:216-224 | the worker ends, and the link is cut with both directions discarded |
| `TcpPump.TcpWorker.DrainInbound` | crates/ladoflow-transport/src/tcp.rs:298-314 | drains until the backlog is empty or its first packet is refused; progress is reported exactly when one was accepted; all effects are steps of the endpoint |
| `TcpPump.TcpWorker.TakeNext` | crates/ladoflow-transport/src/tcp.rs:251-257 | pulls from the multiplexer exactly when nothing is being written |
| `TcpPump.TcpWorker.WritePending` | crates/ladoflow-transport/src/tcp.rs:316-339 | writes what the socket's answer to one chunk dictates; bytes sent and counted, the packet finished and the end reported are those of that step |
| `TcpPump.TcpWorker.ReadInbound` | crates/ladoflow-transport/src/tcp.rs:267-289 | reads what the socket's answer dictates, only with an empty backlog; bytes and frames are counted exactly when the read decodes, and the end reported is the one the answer means |
| `TcpPump.TcpWorker.Turn` | crates/ladoflow-transport/src/tcp.rs:248-294 | a turn drains, pulls if idle, then writes and reads as the socket answers; the first of these to fail is the end reported, and it makes no progress only when no byte and no packet moved |
| `TcpPump.TcpWorker.PumpTcpStream` | crates/ladoflow-transport/src/tcp.rs:236-296 | over any number of turns every effect is a step of the endpoint, every byte sent or received belongs to one, and the status is their account; without an end of its own the worker took all the turns, each reading once, exactly what the socket gave, or having one packet refused, and with nothing new sent each writing until nothing is left; an end is what the last turn's queue or socket answered |
| `TcpPump.OneAnswer` | crates/ladoflow-transport/src/tcp.rs:258-339 | a write moves as much as the answer, the chunk and the packet allow, a read as much as the answer and the chunk do; an answer that would block or was interrupted moves and ends nothing; each failure ends the worker as what it is |
| `TcpPump.EnoughTurns` | crates/ladoflow-transport/src/tcp.rs:236-296 | so once the socket has taken something more often than there are bytes to write, with nothing new sent, queues, slots and the packet being written are empty, and exactly those bytes were written |
| `TurnProgress.RunConserves` | crates/ladoflow-transport/src/tcp.rs:248-265 | while nothing is sent or cut, the bytes still to write and the bytes written add up over any steps |
| `TurnProgress.EndsWithAPull` | crates/ladoflow-transport/src/tcp.rs:251-257 | a pull with nothing sent meanwhile finds a packet to write unless there is none |
| `TcpPump.TcpWorker.RunTcpStream` | crates/ladoflow-transport/src/tcp.rs:216-234 | the same up to shutdown, which cuts the link and discards both directions only after the turns are over; the last error is the end of the turn that failed |
| `UsbPump.WriteChunked` | apps/desktop/src-tauri/src/platform/windows/usb_accessory.rs:688-712 | success means the device received exactly the payload, any failure exactly a front part of it, and the outcome is the one its answers dictate |
| `UsbPump.WhenWritten` | apps/desktop/src-tauri/src/platform/windows/usb_accessory.rs:688-712 | a write succeeds exactly when the answers cover it, each taking at least a byte and at most the chunk offered |
| `UsbPump.PiecesArePipeWrites` | apps/desktop/src-tauri/src/platform/windows/usb_accessory.rs:652-660 | however a packet is cut into pieces, writing them puts exactly those bytes on the wire and finishes it at its end |
| `UsbPump.UsbWorker.WriteWhole` | apps/desktop/src-tauri/src/platform/windows/usb_accessory.rs:648-660 | a pulled packet is written whole and counted, or the worker ends with the device's failure and the part written on the wire |
| `UsbPump.UsbWorker.SendOne` | apps/desktop/src-tauri/src/platform/windows/usb_accessory.rs:648-660 | pulls once and writes with one device answer per piece |
| `UsbPump.UsbWorker.OfferAll` | apps/desktop/src-tauri/src/platform/windows/usb_accessory.rs:669-673 | every decoded packet is offered in order; the worker ends exactly when one is not taken |
| `UsbPump.UsbWorker.ReceiveOnce` | apps/desktop/src-tauri/src/platform/windows/usb_accessory.rs:662-683 | one read, decoded and offered; a timeout changes nothing; bytes and frames are counted exactly when the turn succeeds |
| `UsbPump.UsbWorker.Turn` | apps/desktop/src-tauri/src/platform/windows/usb_accessory.rs:647-684 | one packet out, then one read |
| `UsbPump.UsbWorker.PumpBulkStream` | apps/desktop/src-tauri/src/platform/windows/usb_accessory.rs:636-686 | over any number of turns every effect is a step of the endpoint and the status is the account of all but the turn that failed; without an end of its own the worker took all the turns, each reading exactly what the device gave and, with nothing new sent, writing a whole packet until none is left; an end is a queue's, a refused packet, or what the device answered, and a rejection is reported exactly when an offered packet was not taken |
| `UsbPump.UsbWorker.RunBulkSession` | apps/desktop/src-tauri/src/platform/windows/usb_accessory.rs:599-607 | the same up to the end of the session, which cuts the link and discards both directions; the last error is the end of the turn that failed |
| `UsbPump.WhenUsbGivesUp` | apps/desktop/src-tauri/src/platform/windows/usb_accessory.rs:669-673 | a decoded packet is refused exactly when its queue holds its maximum of packets or lacks the bytes, where the TCP worker would wait unchanged |
| `UsbFlood.FloodEndsUsbSession` | apps/desktop/src-tauri/src/platform/windows/usb_accessory.rs:664-673 | from two new endpoints, 65 small control frames or 4 small media frames sent, written, read and offered while the application takes nothing: the queue is full and refuses the last, so the session is rejected whatever follows, while the same step leaves a TCP worker waiting until the application takes one |
| `HeadOfLine.WhenPacketWaits` | crates/ladoflow-transport/src/tcp.rs:298-314 | a decoded packet waits exactly when it or a packet ahead of it, on either lane, finds its queue full |
| `HeadOfLine.BlockedUntilTaken` | crates/ladoflow-transport/src/tcp.rs:267-314 | while the application does not take from the full lane the worker reads and decodes nothing more, and nothing more arrives on the other lane |
| `HeadOfLine.MediaHoldsBackControl` | crates/ladoflow-transport/src/packet.rs:1-8 | an input: after four unread media frames no control packet is delivered until one is taken, whatever is sent, with the control queue empty |
| `UsbFlood.PingsAreSmall` | crates/ladoflow-protocol/src/control.rs:43-57 | a ping under any number is such a frame |
| `EndToEnd.JoinedPipeIsBoth` | crates/ladoflow-transport/src/tcp.rs:216-339 | two workers' histories, the second reading what the first wrote, make one run of the pipe whose log is the record of both |
| `EndToEnd.RecordIsExact` | crates/ladoflow-transport/src/loopback.rs:274-305 | the record of a sending history holds what was accepted and reported, marks only packets a later one with their key replaced, and of those still queued every one |
| `EndToEnd.JoinedStreamIsFaithful` | crates/ladoflow-transport/src/tcp.rs:216-339 | for any histories of two workers joined by a stream, what the second application took from a lane is a prefix of what the first had accepted minus exactly the keyed media replaced while queued, whose number and bytes are those reported |
| `EndToEnd.JoinedControlIsReliable` | crates/ladoflow-transport/src/packet.rs:1-8 | on the control lane it is a prefix of everything accepted, and nothing is reported superseded |
| `EndToEnd.NothingIsMissing` | crates/ladoflow-transport/src/tcp.rs:236-314 | once every byte was read and neither end holds anything more, nothing accepted and not superseded is missing |
| `MuxOrder.EnqueueKeepsOrder` | crates/ladoflow-transport/src/ldfl_stream.rs:100-152 | a send with a fresh higher number keeps the order invariant, superseding or not |
| `MuxOrder.EnqueueKeepsConsistency` | crates/ladoflow-transport/src/ldfl_stream.rs:100-152 | in any order of the lanes, such a send keeps the accounting of what was accepted, left, waits and was replaced |
| `MuxOrder.EmitKeepsConsistency` | crates/ladoflow-transport/src/ldfl_stream.rs:129-151 | and so does a choice, which never fails |
| `MuxOrder.EmitTakesTheFirst` | crates/ladoflow-transport/src/ldfl_stream.rs:129-151 | with both lanes polled the earliest waiting packet is emitted, and nothing only when nothing waits |
| `MuxRuns.EmptyIsOrdered` | crates/ladoflow-transport/src/ldfl_stream.rs:101-105 | empty lanes and slots satisfy the order invariant |
| `MuxRuns.AtomicCallTakesTheFirst` | crates/ladoflow-transport/src/ldfl_stream.rs:108-152 | a call during which nothing is sent emits the earliest packet waiting on either lane, never fails and never reports a duplicate |
| `MuxRuns.RunKeepsOrder` | crates/ladoflow-transport/src/ldfl_stream.rs:100-152 | a run from any ordered state stays ordered if no call overtakes, and is out of order ever after if one does |
| `MuxRuns.GlobalOrder` | crates/ladoflow-transport/src/ldfl_stream.rs:100-152 | over whole runs, with anything sent between the receives of any call, what left and what waits is strictly increasing exactly when no call overtook; no call fails, nothing is lost but replaced media, and without keys what left is then a prefix of the order of enqueuing |
| `MuxRuns.AtomicRunsKeepOrder` | crates/ladoflow-transport/src/ldfl_stream.rs:108-152 | runs whose calls are not interrupted by a send do not overtake |
| `MuxRuns.SplitNextIsMuxNext` | crates/ladoflow-transport/src/ldfl_stream.rs:118-127 | every call on a link that stays up is a call split by what the application sent meanwhile |
| `MuxRuns.WhenSplitNextOvertakes` | crates/ladoflow-transport/src/ldfl_stream.rs:118-127 | from an ordered state a split call leaves an ordered state and returns the earliest packet unless control was empty at its first receive and at its second the earliest packet is control while media waits; then it returns another and the order is lost |
| `MuxRuns.SplitNextReorders` | crates/ladoflow-transport/src/ldfl_stream.rs:118-127 | on idle queues, control n then media with a higher number, sent between the receives, leave in the reverse order |
| `HostSequences.HostSender.SendPayload` | apps/desktop/src-tauri/src/runtime.rs:893-928 | the counter advances by one exactly after an accepted packet, short of its maximum; any failure keeps it, and exhaustion is reported after the send |
| `HostSequences.HostSendIsExact` | apps/desktop/src-tauri/src/runtime.rs:893-928 | every payload is offered under the next number, which advances exactly after an accepted packet short of the largest; exhaustion is reported after that one was accepted |
| `HostSequences.HostStepIsHostSend` | apps/desktop/src-tauri/src/host_protocol.rs:284-301 | a step of a session is such a send, refused on a link that is down; only a full control queue is tried again, anything else ends the session |
| `HostSequences.PayloadPacketIsSound` | apps/desktop/src-tauri/src/runtime.rs:920-923 | every valid payload frames to a packet without a key that the multiplexer accepts under its number |
| `HostSequences.HostRunIsMuxRun` | apps/desktop/src-tauri/src/runtime.rs:893-938 | every host session is a run of the multiplexer under increasing numbers without a gap |
| `HostSequences.HostStreamIsGapless` | apps/desktop/src-tauri/src/runtime.rs:893-927 | over any session, with anything sent between the receives of any call, the numbers that leave the host are first, first + 1, and so on, in the order offered and whichever lane each took, exactly when no call overtook |
| `PeerVerdicts.CursorIsMaximum` | crates/ladoflow-core/src/session.rs:306-327 | the cursor is the maximum of all numbers observed |
| `PeerVerdicts.AcceptedWithoutSkips` | crates/ladoflow-core/src/session.rs:306-327 | every number is accepted with nothing skipped exactly when they follow the cursor one by one |
| `PeerVerdicts.StaleWhenOvertaken` | crates/ladoflow-core/src/session.rs:306-327 | a number above the starting cursor and seen once is stale exactly when a higher one came before it, and accepted otherwise |
| `PeerVerdicts.PeerFollowsHost` | crates/ladoflow-core/src/session.rs:306-327 | over any host session, a peer whose cursor stands before the first number accepts everything with nothing skipped exactly when no call overtook, calls a number stale exactly when it was overtaken, and meets no duplicate |
| `LdflStream.ValidatedPackets` | crates/ladoflow-transport/src/ldfl_stream.rs:161-179 | a packet validates exactly when it carries one whole valid frame on the lane of its kind, and the number returned is that frame's |
| `LdflStream.DecodedPacketsAreSound` | crates/ladoflow-transport/src/ldfl_stream.rs:181-195 | a decoded frame becomes a keyless packet on its lane within that lane's packet limit |
| `LdflStream.CarriedFrameRebuildsPacket` | crates/ladoflow-transport/src/ldfl_stream.rs:189-195 | classification restores lane and bytes of the packet that carried the frame |
| `LdflStream.LdflPacketDecoder.Push` | crates/ladoflow-transport/src/ldfl_stream.rs:86-91 | the classified frames of the incremental decoder, or its error |
| `LdflStream.LdflPacketMux.Fill` | crates/ladoflow-transport/src/ldfl_stream.rs:118-127 | fills an empty slot from its queue; fails exactly when the slot is empty and the link is down |
| `LdflStream.LdflPacketMux.Emit` | crates/ladoflow-transport/src/ldfl_stream.rs:129-151 | emits the smaller of the held numbers; errors keep both slots |
| `LdflStream.LdflPacketMux.Next` | crates/ladoflow-transport/src/ldfl_stream.rs:114-152 | two receives with the application's steps between them, and a choice |
| `Loopback.PushKeepsInv` | crates/ladoflow-transport/src/loopback.rs:274-305 | limits, per-packet limit and uniqueness of keys hold after every push |
| `Loopback.PushOutcome` | crates/ladoflow-transport/src/loopback.rs:274-305 | when a push is refused and how, that a refusal changes nothing and returns the packet, and what an accepted push appends, removes and reports |
| `Loopback.NothingUnaccountedFor` | crates/ladoflow-transport/src/loopback.rs:274-338 | over any run accepted = popped + superseded + cleared + queued, in packets and bytes |
| `Loopback.BoundedQueue.SupersededBy` | crates/ladoflow-transport/src/loopback.rs:313-327 | counts exactly the packets a push would replace; the saturating sums never saturate |
| `Loopback.BoundedQueue.TryPush` | crates/ladoflow-transport/src/loopback.rs:274-305 | the byte counter stays the exact sum and no subtraction underflows |
| `Loopback.BoundedQueue.Pop` | crates/ladoflow-transport/src/loopback.rs:307-311 | takes the front packet and its bytes |
| `Loopback.BoundedQueue.Clear` | crates/ladoflow-transport/src/loopback.rs:333-338 | empties the queue and reports its depth |
| `Loopback.Link.TrySend` | crates/ladoflow-transport/src/loopback.rs:145-152 | refuses when disconnected, else pushes on the lane of the packet |
| `Loopback.Link.TryReceive` | crates/ladoflow-transport/src/loopback.rs:154-161 | refuses when disconnected, else pops the other side's lane |
| `Loopback.Link.Disconnect` | crates/ladoflow-transport/src/loopback.rs:99-111 | clears both directions and reports what each lane lost |
| `Loopback.Link.Reconnect` | crates/ladoflow-transport/src/loopback.rs:113-127 | true exactly when the link was down, and then with empty queues |
| `Packets.NewLimits` | crates/ladoflow-transport/src/transport.rs:32-58 | accepts exactly non-zero limits whose packet limit fits the byte capacity |
| `Packets.KeptAndDropped` | crates/ladoflow-transport/src/loopback.rs:298-302 | keeping and dropping split a queue in packets and in bytes |
| `Frames.HeaderRoundTrip` | crates/ladoflow-protocol/src/frame.rs:205-250 | decoding an encoded header gives it back |
| `Frames.HeaderCanonical` | crates/ladoflow-protocol/src/frame.rs:205-250 | a header that decodes is valid and the only spelling of itself |
| `Frames.NewFrame` | crates/ladoflow-protocol/src/frame.rs:267-276 | succeeds exactly within the payload limit of the kind, with the length derived |
| `Frames.FrameRoundTrip` | crates/ladoflow-protocol/src/frame.rs:329-367 | an encoded frame followed by any bytes decodes to itself and its exact length |
| `Frames.FrameCanonical` | crates/ladoflow-protocol/src/frame.rs:329-367 | a decoded frame is valid and re-encodes to exactly the bytes consumed |
| `Frames.AppendKeepsVerdict` | crates/ladoflow-protocol/src/frame.rs:346-367 | bytes after a complete frame or a bad header change nothing |
| `Frames.MinimumIsTight` | crates/ladoflow-protocol/src/frame.rs:370-385 | the minimum reported is a header's length until a header is there; no extension below it completes, and past the header every one that reaches it does |
| `Frames.ScanPartitions` | crates/ladoflow-protocol/src/frame.rs:440-454 | decoding splits a stream into valid frames and an undecodable rest without losing a byte |
| `Frames.RemainderIsBounded` | crates/ladoflow-protocol/src/frame.rs:13-20 | what a successful push retains is shorter than one largest frame |
| `Frames.ScanAppend` | crates/ladoflow-protocol/src/frame.rs:426-455 | decoding more of a stream continues from what was left over |
| `Frames.ScanOfEncoded` | crates/ladoflow-protocol/src/frame.rs:426-455 | any prefix of encoded valid frames decodes to exactly its whole frames, with no error |
| `Frames.FrameDecoder.Push` | crates/ladoflow-protocol/src/frame.rs:426-455 | result and buffer of one push, including both limit errors and the kept buffer after a bad header |
| `Frames.PushIsExact` | crates/ladoflow-protocol/src/frame.rs:426-455 | a push is refused and keeps the buffer exactly beyond the limit, and otherwise returns every whole frame and keeps the rest, or fails at the first bad header and keeps all |
| `Frames.FrameDecoder.Clear` | crates/ladoflow-protocol/src/frame.rs:463-466 | empties the buffer |
| `Frames.ChunkingDoesNotMatter` | crates/ladoflow-protocol/src/frame.rs:387-455 | over any split whose pushes succeed, frames and leftover equal the one-shot decoding |
| `Frames.GoodStreamsAreAccepted` | crates/ladoflow-protocol/src/frame.rs:13-20 | a stream with no bad header is accepted over any split into chunks that fit beside one unfinished frame |
| `Frames.FailureIsSticky` | crates/ladoflow-protocol/src/frame.rs:440-466 | after a bad header every later push fails |
| `Frames.RefusedPushLeavesNoTrace` | crates/ladoflow-protocol/src/frame.rs:419-438 | a push refused for the limit changes no other push, before or after |
| `Words.FromToBe` | crates/ladoflow-protocol/src/frame.rs:205-215 | big-endian encoding of any width inverts |
| `Words.FieldAtOffset` | crates/ladoflow-protocol/src/frame.rs:217-240 | the fields of a layout are the big-endian values at the offsets the decoders read |
| `Utf8.TextRoundTrip` | crates/ladoflow-protocol/src/message.rs:125-163 | every text decodes from its UTF-8 form (section 3 of RFC 3629) |
| `Utf8.TextCanonical` | crates/ladoflow-protocol/src/message.rs:125-163 | bytes that decode as UTF-8 are the only spelling of their text: no over-long forms, no surrogates |
| `Payloads.HelloRoundTrip` | crates/ladoflow-protocol/src/message.rs:125-163 | Hello inverts, name included |
| `Payloads.HelloCanonical` | crates/ladoflow-protocol/src/message.rs:125-163 | a decodable Hello is valid and its only spelling |
| `Payloads.CapabilitiesRoundTrip` | crates/ladoflow-protocol/src/message.rs:422-475 | Capabilities inverts |
| `Payloads.CapabilitiesCanonical` | crates/ladoflow-protocol/src/message.rs:422-475 | a decodable Capabilities is valid and its only spelling; unknown mask bits are refused |
| `Payloads.DisplayConfigRoundTrip` | crates/ladoflow-protocol/src/display.rs:191-226 | DisplayConfig inverts |
| `Payloads.DisplayConfigCanonical` | crates/ladoflow-protocol/src/display.rs:191-226 | a decodable DisplayConfig is valid, its profile matching its codec |
| `Payloads.VideoFrameRoundTrip` | crates/ladoflow-protocol/src/display.rs:355-381 | VideoFrame inverts |
| `Payloads.VideoFrameCanonical` | crates/ladoflow-protocol/src/display.rs:355-381 | a decodable VideoFrame is valid and its only spelling |
| `Payloads.InputRoundTrip` | crates/ladoflow-protocol/src/input.rs:283-386 | all six kinds of input event invert, signed wheel deltas included |
| `Payloads.InputCanonical` | crates/ladoflow-protocol/src/input.rs:283-386 | a decodable event is valid and its only spelling |
| `Payloads.TelemetryRoundTrip` | crates/ladoflow-protocol/src/telemetry.rs:252-299 | Telemetry inverts |
| `Payloads.TelemetryCanonical` | crates/ladoflow-protocol/src/telemetry.rs:252-299 | a decodable Telemetry is within its bounds and its only spelling |
| `Payloads.PingRoundTrip` | crates/ladoflow-protocol/src/control.rs:43-57 | Ping inverts |
| `Payloads.PongRoundTrip` | crates/ladoflow-protocol/src/control.rs:124-152 | Pong inverts |
| `Payloads.PongCanonical` | crates/ladoflow-protocol/src/control.rs:124-152 | a decodable Pong is ordered and its only spelling |
| `Payloads.ErrorRoundTrip` | crates/ladoflow-protocol/src/control.rs:255-291 | Error inverts, diagnostic included |
| `Payloads.ErrorCanonical` | crates/ladoflow-protocol/src/control.rs:255-291 | a decodable Error is valid and its only spelling |
| `Payloads.PayloadRoundTrip` | crates/ladoflow-protocol/src/frame.rs:285-307 | every valid payload of the nine families encodes within its frame limit and decodes to itself |
| `Payloads.PayloadCanonical` | crates/ladoflow-protocol/src/frame.rs:299-307 | bytes that decode as a kind are the only spelling of their payload |
| `Payloads.WireRoundTrip` | crates/ladoflow-protocol/src/frame.rs:285-367 | from payload to wire bytes with anything after them and back |
| `FrameRates.NewRate` | crates/ladoflow-media/src/metadata.rs:22-29 | refuses exactly a zero numerator or denominator |
| `FrameRates.TimestampIsExact` | crates/ladoflow-media/src/metadata.rs:58-72 | the split division is floor(index * denominator * 10^9 / numerator), saturating only above the largest duration |
| `FrameRates.NoOverflow` | crates/ladoflow-media/src/metadata.rs:58-98 | no intermediate of either function overflows |
| `FrameRates.FrameAtOrBeforeIsAdjoint` | crates/ladoflow-media/src/metadata.rs:89-98 | timestamp(i) <= e exactly when i <= frame_at_or_before(e), for every frame and every e below the largest duration |
| `FrameRates.WhenAdjointEverywhere` | crates/ladoflow-media/src/metadata.rs:89-98 | it holds at the largest duration too exactly for rates of at least one frame per second |
| `FrameRates.TimestampMonotone` | crates/ladoflow-media/src/metadata.rs:58-72 | later frames never have earlier timestamps |
| `FrameRates.DurationsDoNotDrift` | crates/ladoflow-media/src/metadata.rs:80-84 | durations of frames 0 to n sum to timestamp(n) |
| `FrameRates.DurationsWithinOneNano` | crates/ladoflow-media/src/metadata.rs:80-84 | away from saturation two durations differ by at most a nanosecond |
| `Pacing.FramePacer.Poll` | crates/ladoflow-media/src/scheduler.rs:85-103 | the decision and the next slot are those of the function the laws below speak about |
| `Pacing.PollIsExact` | crates/ladoflow-media/src/scheduler.rs:85-107 | a poll is due exactly from the target of the next slot on, waits for exactly that target before, is exhausted exactly when no slot is left, and counts the slots it skips |
| `Pacing.PollAtDeadline` | crates/ladoflow-media/src/scheduler.rs:85-107 | polled at its deadline a slot is due with nothing skipped exactly when the next deadline is later |
| `Pacing.WhenSeparated` | crates/ladoflow-media/src/metadata.rs:58-72 | it is for rates up to one frame per nanosecond while representable |
| `Pacing.AttendedSlots` | crates/ladoflow-media/src/scheduler.rs:85-107 | a caller that polls again at each announced time, and is not late, gets the slots one by one at their own deadlines, none skipped |
| `Pacing.DueIsNewest` | crates/ladoflow-media/src/scheduler.rs:85-107 | a due deadline has passed, and the next slot's lies ahead exactly when the clock is below the largest duration |
| `Pacing.WaitIsTight` | crates/ladoflow-media/src/scheduler.rs:85-93 | polling before the announced time waits again for it, polling at or after it yields a slot |
| `Pacing.EverySlotAccountedFor` | crates/ladoflow-media/src/scheduler.rs:85-107 | under any clock indices strictly increase and 1 + skipped sums to last index + 1 |
| `Pacing.SyntheticFrameProducer.AdvanceToSequence` | crates/ladoflow-media/src/synthetic.rs:158-168 | moves to the larger of the two sequences and returns the distance; never rewinds |
| `Pacing.SyntheticFrameProducer.Next` | crates/ladoflow-media/src/synthetic.rs:179-201 | the frame of the current sequence, keyframes at multiples of the interval, ending after the last index |
| `Pacing.SyntheticFrameIsRight` | crates/ladoflow-media/src/synthetic.rs:179-201 | a frame is captured when presented, lasts until the next, and is a keyframe exactly at the multiples of the interval |
| `Pacing.RunLoopback` | apps/desktop/src-tauri/src/runtime.rs:1174-1193 | producer and pacer stay in lockstep: the asserted skip counts agree, every due slot gets its own frame, drops counted are the slots skipped |
| `Pacing.FrameMeetsItsDeadline` | apps/desktop/src-tauri/src/runtime.rs:1174-1193 | the frame made for a slot is presented at that slot's deadline |
| `Scheduler.LatestFrameScheduler.SubmitFrame` | crates/ladoflow-media/src/scheduler.rs:516-561 | the five outcomes of a submit and the whole new state |
| `Scheduler.LatestFrameScheduler.PollFrame` | crates/ladoflow-media/src/scheduler.rs:564-614 | the five outcomes of a poll and the whole new state |
| `Scheduler.SubmitIsExact` | crates/ladoflow-media/src/scheduler.rs:516-561 | the outcome of a submit from size, time and order alone: oversized, past presentation time and age limit, first, newer or not newer than the held frame; what is held and that nothing else changes |
| `Scheduler.DispatchIsExact` | crates/ladoflow-media/src/scheduler.rs:571-614 | at a due slot the held frame is dropped exactly when past its age limit, kept exactly when early, and dispatched in between |
| `Scheduler.PollIsExactForFrame` | crates/ladoflow-media/src/scheduler.rs:564-569 | before a due slot nothing happens to frame or metrics |
| `Scheduler.LatestFrameScheduler.TakeMetrics` | crates/ladoflow-media/src/scheduler.rs:507-509 | returns the counters and resets them, leaving frame and pacer alone |
| `Scheduler.RunIsSound` | crates/ladoflow-media/src/scheduler.rs:407-429 | over any run: conservation of frames and slots, every published counter is the true one saturated, every published delay the saturated sum and the maximum of the true ones, and the slot holds the greatest contender |
| `Scheduler.MetricsBalance` | crates/ladoflow-media/src/scheduler.rs:407-429 | the published counters alone balance until the submit or tick counter saturates |
| `Scheduler.DispatchedFrameIsRight` | crates/ladoflow-media/src/scheduler.rs:564-614 | a dispatched frame is the newest contender, neither early, stale nor oversized, with exact delays |
| `Scheduler.NewestIsUnique` | crates/ladoflow-media/src/scheduler.rs:628-630 | the frame order is a total preorder |
| `Sessions.Session.EstablishWith` | crates/ladoflow-core/src/session.rs:270-297 | the four errors and the effect of restart and resume |
| `Sessions.Session.ObserveSequence` | crates/ladoflow-core/src/session.rs:306-327 | classification and cursor of one sequence |
| `Sessions.Session.Schedule` | crates/ladoflow-core/src/session.rs:352-374 | a retry with its delay and resume cursor, or closing when the budget is spent |
| `Sessions.Session.LoseTransport` | crates/ladoflow-core/src/session.rs:338-344 | only an active or negotiating session waits to reconnect |
| `Sessions.Session.Reconnect` | crates/ladoflow-core/src/session.rs:382-386 | a scheduled reconnect negotiates again |
| `Sessions.Backoff` | crates/ladoflow-core/src/session.rs:100-112 | a delay exists exactly for the allowed attempts, is capped and non-decreasing, and is initial * 2^(k-1) capped up to attempt 32 |
| `Sessions.FailureChangesNothing` | crates/ladoflow-core/src/session.rs:253-406 | every failing operation leaves the session unchanged |
| `Sessions.ReconnectingIsBounded` | crates/ladoflow-core/src/session.rs:338-386 | a run with no successful establish is granted at most the attempts left and changes phase only finitely often |
| `Sessions.FailingUsesEveryAttemptThenCloses` | crates/ladoflow-core/src/session.rs:338-386 | when every connection keeps failing, every attempt left is used and then the session closes |
| `Sessions.AttemptsAreRetriesSinceSuccess` | crates/ladoflow-core/src/session.rs:237-240 | over any run the attempts are the retries granted since the last successful establish, and the generation counts the establishes |
| `Sessions.SuccessRestoresTheBudget` | crates/ladoflow-core/src/session.rs:270-297 | after any successful establish a connection that keeps failing is granted exactly the policy's attempts and then closed |
| `Sessions.WhenPolicyCloses` | crates/ladoflow-core/src/session.rs:352-374 | an open session is closed by the policy exactly when a retry is asked for with the budget since the last success spent |
| `Sessions.WithinBudgetStaysOpen` | crates/ladoflow-core/src/session.rs:352-374 | so a session whose retries are each within that budget is never closed by it |
| `Sessions.AnyNumberOfReconnections` | crates/ladoflow-core/src/session.rs:338-386 | with at least one attempt a session may lose and resume its transport any number of times and keeps cursor, agreement and budget |
| `Sessions.RetryIsRight` | crates/ladoflow-core/src/session.rs:352-374 | a granted retry is the next attempt, after the backoff delay in closed form, resuming after the cursor |
| `Sessions.WhenEstablished` | crates/ladoflow-core/src/session.rs:270-297 | an establish succeeds exactly while negotiating, with a generation left, and to resume only under the agreement of an earlier connection; each refusal says which failed |
| `Sessions.Transitions` | crates/ladoflow-core/src/session.rs:253-406 | which operations succeed in which phase, and where they lead |
| `Sessions.CursorOverRuns` | crates/ladoflow-core/src/session.rs:270-327 | between restarts, across losses and resumes: accepted sequences increase, the cursor is the maximum observed, skips plus accepted cover first to last, the agreement stays |
| `Sessions.ReplayIsRefused` | crates/ladoflow-core/src/session.rs:306-327 | the cursor's own sequence is a duplicate and a lower one stale under the cursor, and neither changes anything |
| `Negotiation.NegotiationIsSymmetric` | crates/ladoflow-core/src/negotiation.rs:117-159 | both endpoints reach the same verdict |
| `Negotiation.NegotiationIsBest` | crates/ladoflow-core/src/negotiation.rs:117-159 | it succeeds exactly when roles differ and a version and a codec are shared, and picks the greatest version and the greatest limits within both |
| `DisplayModes.ComparisonFitsU64` | apps/desktop/src-tauri/src/host_protocol.rs:389-410 | no product of the comparison overflows u64 |
| `DisplayModes.FitIsTotalPreorder` | apps/desktop/src-tauri/src/host_protocol.rs:389-410 | over modes of positive height the cross-multiplied comparison is a total preorder |
| `DisplayModes.ComparisonIsExact` | apps/desktop/src-tauri/src/host_protocol.rs:389-410 | and it is the comparison of the exact aspect-ratio errors as real numbers, then of areas, the larger first |
| `DisplayModes.BestFitIsFirst` | apps/desktop/src-tauri/src/host_protocol.rs:371-381 | among equally good modes the first of the table is taken |
| `DisplayModes.SelectionIsOptimal` | apps/desktop/src-tauri/src/host_protocol.rs:360-387 | for any table of positive heights: the request if it fits; else a fitting mode of its orientation with the least aspect error and then the largest area; failure exactly when no mode fits |
| `DisplayModes.WhenNothingFits` | apps/desktop/src-tauri/src/host_protocol.rs:30-49 | with the built-in ladder, exactly when a clamped request fails |
| `DisplayModes.BitrateIsExact` | apps/desktop/src-tauri/src/host_protocol.rs:412-421 | the saturating products never saturate; the target is the estimate clamped to 4 000 to 40 000 |
| `DisplayModes.ConfigIsWithinLimits` | apps/desktop/src-tauri/src/host_protocol.rs:322-358 | a selected configuration is valid and within the agreement and the request |
| `DisplayModes.ConfigIsExact` | apps/desktop/src-tauri/src/host_protocol.rs:322-358 | it has the selected size, the requested rate when the agreement reaches it and 30 Hz otherwise, and the estimated bitrate up to the agreed one |
| `DisplayModes.ConfigErrors` | apps/desktop/src-tauri/src/host_protocol.rs:322-387 | each refusal says which requirement fails first |
| `DisplayModes.WhenConfigExists` | apps/desktop/src-tauri/src/host_protocol.rs:322-358 | exactly when a configuration is found |
| `Handshake.HostHandshake.AcceptPacket` | apps/desktop/src-tauri/src/host_protocol.rs:138-196 | every error and the whole new state of one accept, including the fields kept after an error |
| `Handshake.WhatIsJudged` | apps/desktop/src-tauri/src/host_protocol.rs:138-160 | a whole control frame under a newer number is remembered by it and judged by its kind; anything else is refused and changes nothing |
| `Handshake.WhatIsKept` | apps/desktop/src-tauri/src/host_protocol.rs:161-196 | a first Hello or Capabilities that decodes is kept and nothing else changes; anything else is refused |
| `Handshake.WhenSettled` | apps/desktop/src-tauri/src/host_protocol.rs:198-231 | both parts settle exactly when the peers agree and a configuration is found, to a new active session whose cursor is the display's last number, under the name the display sent, with 3 as next number |
| `Handshake.EstablishedIsExact` | apps/desktop/src-tauri/src/host_protocol.rs:198-231 | an accepted packet that establishes gives what the parts kept settle to |
| `Handshake.WhenHandshakeSucceeds` | apps/desktop/src-tauri/src/host_protocol.rs:94-231 | exactly which displays a host can settle with: role, version, H.264, a size, 30 Hz and some bitrate |
| `Handshake.WhatIsAgreed` | apps/desktop/src-tauri/src/host_protocol.rs:94-231 | and with what: version, input, cursor, size, rate and bitrate |
| `Opening.OpeningIsSent` | apps/desktop/src-tauri/src/host_protocol.rs:131-136 | the host's Hello, Capabilities and configuration are control packets numbered 0, 1 and 2 |
| `Opening.NextNumberFollowsOpening` | apps/desktop/src-tauri/src/host_protocol.rs:22-25 | a peer that observed them accepts the session's first number with nothing skipped |
| `Opening.SessionFollowsOpening` | apps/desktop/src-tauri/src/runtime.rs:728-745 | and everything of the session after it exactly when no call of the multiplexer overtook |
| `Handshake.InitialPacketsExist` | apps/desktop/src-tauri/src/host_protocol.rs:100-136 | both opening packets encode for every configuration |
| `Handshake.OrderDoesNotMatter` | apps/desktop/src-tauri/src/host_protocol.rs:138-196 | Hello then Capabilities or the reverse, under any flags and from any exchange that has seen neither, lead to the same state, agreement, configuration and session |
| `Handshake.EstablishedSessionsAreSound` | apps/desktop/src-tauri/src/host_protocol.rs:198-231 | the configuration is within both peers' limits with a codec both have, and the session's cursor refuses any replayed handshake sequence |
| `LatencyStats.LatencyAggregator.Record` | crates/ladoflow-core/src/telemetry.rs:133-143 | a representable latency enters the window, evicting the oldest when full; another changes nothing |
| `LatencyStats.LatencyAggregator.TakeSnapshot` | crates/ladoflow-core/src/telemetry.rs:147-176 | nothing for an empty window, else the summary of exactly the retained samples |
| `LatencyStats.MeanAdjacentDifference` | crates/ladoflow-core/src/telemetry.rs:189-208 | the accumulator loop is the sum of neighbour differences over their number, without overflow |
| `LatencyStats.WindowIsTheLatest` | crates/ladoflow-core/src/telemetry.rs:133-143 | after any run the window is the last min(capacity, n) representable samples |
| `LatencyStats.SortedIsUnique` | crates/ladoflow-core/src/telemetry.rs:152-153 | sorted lists of the same samples are equal, so the sort used does not matter |
| `LatencyStats.RankIsCeiling` | crates/ladoflow-core/src/telemetry.rs:179-187 | the split rank is ceil(n * p / 100) for every n |
| `LatencyStats.NearestRankIsPercentile` | crates/ladoflow-core/src/telemetry.rs:179-187 | the percentile is the least sample with at least p percent of the window at or below it |
| `LatencyStats.SnapshotIsOrdered` | crates/ladoflow-core/src/telemetry.rs:147-176 | min <= p50 <= p95 <= max, min <= mean <= max, jitter <= max - min |
| `LatencyStats.SnapshotIsExact` | crates/ladoflow-core/src/telemetry.rs:147-176 | the snapshot's own fields: the number of samples, the floor of their mean, and the least samples with at least 50 and 95 percent of the window at or below them |
| `LatencyStats.DifferencesSplit` | crates/ladoflow-core/src/telemetry.rs:189-208 | the differences add up along the window, which with two samples determines them |
| `LatencyStats.MicrosRoundDown` | crates/ladoflow-core/src/telemetry.rs:133-135 | samples are whole microseconds rounded down, refused exactly beyond 64 bits |
| `Token.ExposeGrouped` | crates/ladoflow-transport/src/pairing.rs:46-69 | the bit accumulator renders the token's base-32 digits in groups; no 32-bit shift loses a bit and no bits are left over |
| `Token.FromText` | crates/ladoflow-transport/src/pairing.rs:85-115 | the accumulator parses exactly sixteen symbols into ten bytes; wrong counts and the first invalid symbol are reported |
| `Token.ParseIsExact` | crates/ladoflow-transport/src/pairing.rs:85-115 | a text is accepted as a token exactly when its canonical form is that token's rendering |
| `Token.TokenRoundTrip` | crates/ladoflow-transport/src/pairing.rs:46-115 | parsing the rendering of any token gives it back |
| `Token.SeparatorsDoNotMatter` | crates/ladoflow-transport/src/pairing.rs:86-89 | a dash or space may be inserted anywhere, whatever the outcome |
| `Token.SpellingDoesNotMatter` | crates/ladoflow-transport/src/pairing.rs:522-532 | lower case and the O, I, L aliases change neither acceptance nor the token |
| `Token.DecodeIsCanonical` | crates/ladoflow-transport/src/pairing.rs:522-532 | a character has a value exactly when its canonical spelling is that letter of the alphabet |
| `Token.RenderIsInjective` | crates/ladoflow-transport/src/pairing.rs:46-69 | different tokens have different texts |
| `Token.FourGroups` | crates/ladoflow-transport/src/pairing.rs:43-66 | the rendering is nineteen characters with dashes after every fourth symbol |

## Left out

- Full duplex: a link is two one-directional pipes; `EndToEnd` joins two whole workers in either direction, and how reads in one direction wait for writes in the other is not modelled.
- The applications act between the operations that take the link's lock; system calls and counters in between commute with them and are not split further.
- Sleeps, timeouts, retry deadlines and cancellation flags: a worker is cancelled after an arbitrary number of turns, a clock is an arbitrary list of readings.
- `negotiate_host_transport`: the handshake it drives and the numbers it sends are modelled, not its deadline loop.
- Error texts: errors are variants with the data that decides behaviour; `InvalidPayload` carries no reason.
- `usize` has 64 bits; other widths are not modelled.
- The library's `sort_unstable` is replaced by an insertion sort that gives the same list.
- Payload bytes of synthetic frames, and the getters for average durations.
- `ladoflow-media`'s video format and pixel counts, `QualityPolicy`, AOA identity negotiation and tether address filtering.
- Nonces, HMAC and the pairing handshake on sockets; only the token codec of `pairing.rs` is modelled.
- The user interface, `present_latest`, `align_media_clock` and the display counters of `runtime.rs`, which are approximations.
- Platform code: capture, encoders, input injection, USB enumeration and everything behind foreign calls.
- Pacing.SyntheticFrameProducer.Next: models sequence, times and keyframe flag of a frame, not its payload bytes or its video format.
- Pacing.RunLoopback: models the producer and the pacer; the sends, and the drops counted for frames refused or not encodable, are outside it.
- UsbPump.UsbWorker.RunBulkSession: the release of the interface, which decides the final status text, is not modelled.
- Reconnecting a link whose worker still runs: a cut link stays down in the model of the workers.
- Scheduler.MetricsBalance: stated for runs without `take_metrics` and below saturation; `Scheduler.RunIsSound` covers both.
