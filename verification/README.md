# Magnum-TCP: a verified model of its TCP core

A Dafny model of the TCP core of Magnum-TCP (`magnum-tcp/src`): one `Connection` with its send ring,
receive ring, out-of-order map and retransmission queue, the wire formats below it, the event loop
around it, and two such connections joined by a network that loses, duplicates and reorders.
`dafny verify dfyconfig.toml` checks everything.

## How it is built

| layer | files | what is there |
|---|---|---|
| sequence numbers | `SeqArith` | the wrapping comparisons, related to unbounded stream positions |
| buffers and queue | `Ring`, `SendBuffer`, `RecvBuffer`, `RetransmitQueue` | classes over arrays with the source's modular-index loops, each proved equal to operations on plain sequences and maps |
| connection | `Tcb`, `ConnectionSpec`, `Connection` | the `Connection` class with one method per source method, each proved to leave the state and return the segment of the function of the same name in `ConnectionSpec` |
| event loop | `Task` | `flush_send_buf`, `forward_received_data` and a turn of the connection task's loop, proved to be runs of the events below, outputs included |
| the connection in tables | `Transitions` | for every state variable and for the outgoing segment one table over all states, segments and calls, in words and numbers; the handlers are proved equal to it |
| one endpoint over runs | `Endpoint`, `SendSide`, `Agreement`, `Tiling`, `Lifecycle`, `Congestion`, `Timer`, `Overdue` | a connection plus its history (bytes written, read and sent, unwrapped positions); invariants over all event sequences |
| receiver | `Reassembly`, `Completeness`, `ReceiveSide` | what the receive buffer delivers: safety for any overlap, completeness for a fixed cut |
| two endpoints | `Network`, `FlowControl`, `Overrun`, `Discards`, `EndToEnd` | every segment ever sent stays deliverable, any number of times, in any order |
| failing runs | `Scenarios`, `Failures`, `FullRing` | reachable states in which a promise fails, one per condition below |
| wire formats | `Wire`, `Checksum`, `Ipv4`, `TcpHeader`, `Ethernet`, `Layout` | builders as methods over buffers, parsers as functions, round trips, corruption, and the byte layouts with options that the parsers accept exactly |

An `Event` is one thing that can happen to a connection: an arriving segment, a write, a send, a
timer examination, a probe, a close, a connect, a read, a `TIME_WAIT` tick. Theorems about runs
quantify over all event sequences from a fresh connection (either constructor of the control block,
any initial sequence number), with one rule on all of them: `connect` is used only before the peer
was heard (`Proper`). `Tasks.TaskIsRun` shows that whatever the event loop does is such a run, with
the same segments transmitted and the same bytes handed to the application; `Tasks.TurnIsReachable`
carries it to the two-party system under any rule on its moves, and `Tasks.ReachedSafely` applies
the two-party theorems there. Some promises the code meets only under a further condition. Such a
condition speaks about the state and event before the step; the third column names the lemmas that
say exactly when a step breaks the promise, and then runs from fresh connections (for reassembly, a
cut) that do:

| promise | condition on the run | exactness; a run that fails |
|---|---|---|
| control block and send ring agree from ESTABLISHED through CLOSE_WAIT | the handshake is completed in step: both `nxt` equal before, and a SYN-ACK acknowledges the SYN alone (`EntersInStep`) | `SendSideAgreementIff` over runs, `EntryAgreesIff` for one step, `EntryHistory` in terms of what was sent when; `EarlyDataLosesTiling`, `EarlyAckSplits` |
| the queue tiles the bytes in flight | the handshake leaves it tiled (`CompletesTiled`), no probe goes out (probes are not queued), and no send meets a full queue (a 129th entry is silently dropped) | `QueueTilesFlightIff` over runs, `EntryTiledIff` and `TilingLostIff` for one step; `EarlyDataLosesTiling`, `ProbeLosesTiling`, `FullQueueReached` |
| nothing is discarded early | the sender closes only when all it wrote was transmitted, and writes nothing afterwards | `FinWait1DiscardsIff`, `CloseDiscardsIff`; `UnsentByteDiscarded`, `LateWriteDiscarded` |
| | the peer sends no data before it saw a SYN (it would acknowledge number 0) | `AckDiscardsIff`, `EarlySegmentDiscardsIff`; `EarlySegmentDiscards` |
| `snd.una` is never more than the FIN ahead of the peer | also: the peer processes FINs in order | `FinAcknowledgedIff`; `OvertakingFinAcknowledged` |
| the receive ring is never overrun | the conditions of the no-discard theorem, and no probe goes into a closed window; when and in which state data is sent does not matter | `InsertIsWholeIff`, `ProbeOverrunsIff`; `ProbeOverrunsRing` |
| reassembly is complete in every order | segments that can be staged together do not straddle the 2^32 wrap | `CompleteIffOrdered`; `OrderedUnlessWrapping` |
| the comparison orders positions | distances below 2^31, hence fewer than 2^31 bytes written in the two-party theorems | `SeqLtHorizon`, `SeqLeTransitive` |

## Where the code and its documentation differ

The model follows the code. Line numbers are those of the repository's own README.md.

- README.md:53 says that retransmitted segments are not sampled (Karn's algorithm). That holds for
  timer retransmissions only: fast retransmit reads the head of the queue without marking it
  (retransmit.rs:109-111), so its round-trip time is sampled. `SampledIffNeverExpired` is exact.
- README.md:50 says that partial overlaps are handled correctly. What is delivered is always right
  (`InsertSafe`), but a segment committed past the start of a staged one leaves that entry behind as
  the map's smallest key (`OverlapStrands`), where it stays and stops every later drain
  (`StaleEntryBlocks`, `DrainDeliversIff`). `OverlapLosesProgress` is a run of four pieces of one
  stream after which the last byte has arrived but its staged copy is stuck; a resent copy is
  delivered (`ResendDelivers`). Two connections of this code never get there: what one of them
  transmits is cut once (`TransmissionsFormACut`), and without probes and wrap-around the peer
  reassembles exactly what it was given (`EndToEndComplete`).
- README.md:55 calls the queue bounded to 128 segments in flight. The bound does not limit sending:
  a 129th segment goes out (`FullQueueReached`), and no later retransmission, by timer or fast,
  covers its bytes (`NeverRetransmitted`); the same holds of a probe byte.
- README.md:62 says that a new acknowledgement ends recovery in congestion avoidance. Without an
  expiry in between it does, but with the inflated window, at least `ssthresh` + 3 MSS, where
  section 3.2 of RFC 5681 deflates it to `ssthresh` (`RecoveryNotDeflated`; `RecoveryEndsInflated`
  is a run that ends at 7592 over a threshold of 2920). After an expiry the duplicate counter stays,
  and the next acknowledgement grows the window in slow start (`ExpiryReturnsToSlowStart`).
- A FIN is taken in whatever order it arrives (`DataAndFin`), and the payload and FIN of a third
  duplicate acknowledgement are not looked at when a segment is resent for it.
- `CLOSING` and `LAST_ACK` end on any acceptable acknowledgement, not only on one that covers the
  FIN (`ClosingEndsOnAnyAck`; `LastAckEndsEarly` is a run that closes with the FIN outstanding).

## What the model idealises

- `f64`, `Duration` and `Instant` are reals in seconds; clock readings are parameters, one per call
  (one per flush), and `duration_since` saturates at zero as in the standard library.
- 8-, 16- and 32-bit words are bounded integers with wrapping and saturation written out; `usize`
  is unbounded. Flag bits are read by division and remainder.
- The congestion window is a word that is never 0 (`Tcbs.Window`): the source divides by it. Both
  constructors set it to one segment, and every assignment is proved to stay in the type.
- Segments that a connection emits are filled `SegmentBuilder` values; `TcpHeaders.Build` and
  `Ethernet.FrameRoundTrip` say which bytes those are and that they parse back to the same segment.
- Handlers never return an error in the source (`Ok` throughout), so they return an optional
  segment. Logging is omitted.
- `checksum`, `tcp_checksum` and `build` carry a length bound of about 131000 bytes, below which
  their 32-bit accumulator cannot overflow; every IPv4 packet is far below it.

## Model

| member | source | states |
|---|---|---|
| SeqArith.PositionsInjective | magnum-tcp/src/tcp/tcb.rs:113-125 | positions less than 2^32 apart have equal sequence numbers iff they are equal |
| SeqArith.SeqLtOrdersPositions | magnum-tcp/src/tcp/tcb.rs:113-120 | `seq_lt` and `seq_le` order wrapped numbers exactly as their unbounded positions, less than 2^31 apart |
| SeqArith.SeqLtHorizon | magnum-tcp/src/tcp/tcb.rs:113-116 | the 2^31 limit is sharp: a later position within one turn looks later iff it is less than 2^31 ahead |
| SeqArith.SeqLeAntisymmetric | magnum-tcp/src/tcp/tcb.rs:118-120 | `seq_le` both ways forces equality, for all words |
| SeqArith.SeqLeTotal | magnum-tcp/src/tcp/tcb.rs:118-120 | two words are comparable iff they are not exactly 2^31 apart |
| SeqArith.SeqLeTransitive | magnum-tcp/src/tcp/tcb.rs:118-120 | a chain of two comparisons composes iff the distances add up to less than 2^31 |
| SeqArith.AckAcceptableInRange | magnum-tcp/src/tcp/tcb.rs:122-125 | an accepted acknowledgement is never outside (una, nxt], however much is in flight |
| SeqArith.AckAcceptableFaithful | magnum-tcp/src/tcp/tcb.rs:122-125 | with less than 2^31 in flight it is accepted iff it lies in (una, nxt] |
| SeqArith.AckPosition | magnum-tcp/src/tcp/tcb.rs:122-125 | the accepted numbers are exactly those of the unbounded positions in (u, t] |
| Ring.SliceAppend | magnum-tcp/src/tcp/send_buffer.rs:27-30 | storing behind the last byte, modulo the capacity, appends to the ring's contents and disturbs nothing |
| Ring.SliceDrop | magnum-tcp/src/tcp/send_buffer.rs:62-63 | moving the head modulo the capacity drops exactly that many bytes from the front |
| SendBuffers.SendBuffer.constructor | magnum-tcp/src/tcp/send_buffer.rs:14-22 | an empty ring whose two numbers are the initial one plus one |
| SendBuffers.SendBuffer.Write | magnum-tcp/src/tcp/send_buffer.rs:24-33 | the copying loop appends exactly the prefix that fits and reports its length |
| SendBuffers.SendBuffer.NextSegment | magnum-tcp/src/tcp/send_buffer.rs:35-51 | returns the next unsent slice of the buffered stream with its number, nothing if none is unsent or the limit is 0 |
| SendBuffers.SendBuffer.AdvanceNxt | magnum-tcp/src/tcp/send_buffer.rs:53-55 | only the first unsent number moves, with wrap-around |
| SendBuffers.SendBuffer.Acknowledge | magnum-tcp/src/tcp/send_buffer.rs:57-65 | drops the acknowledged front of the stream; ignores an acknowledgement of nothing or of more than is buffered |
| RecvBuffers.RecvBuffer.constructor | magnum-tcp/src/tcp/recv_buffer.rs:18-26 | empty, expecting the byte after the peer's SYN |
| RecvBuffers.RecvBuffer.Insert | magnum-tcp/src/tcp/recv_buffer.rs:28-54 | trims what was committed before, then commits and drains, or stages unless the key is taken; whole new state |
| RecvBuffers.RecvBuffer.Commit | magnum-tcp/src/tcp/recv_buffer.rs:56-65 | appends what fits, drops the rest, and advances the expected number by what was kept |
| RecvBuffers.RecvBuffer.DrainOoo | magnum-tcp/src/tcp/recv_buffer.rs:67-75 | the loop commits staged segments as long as the numerically smallest key is the expected one, and no longer |
| RecvBuffers.RecvBuffer.Read | magnum-tcp/src/tcp/recv_buffer.rs:77-85 | hands out the oldest bytes, removes exactly those, and leaves the rest of the caller's slice alone |
| RecvBuffers.RecvBuffer.Window | magnum-tcp/src/tcp/recv_buffer.rs:91-93 | the advertised window is the free space, capped at 65535 |
| RetransmitQueues.RetransmitQueue.constructor | magnum-tcp/src/tcp/retransmit.rs:31-38 | empty queue, one second timeout, no estimate |
| RetransmitQueues.RetransmitQueue.Push | magnum-tcp/src/tcp/retransmit.rs:40-49 | appends an unmarked entry, or nothing when 128 are queued |
| RetransmitQueues.RetransmitQueue.AcknowledgeAndSampleRtt | magnum-tcp/src/tcp/retransmit.rs:51-69 | the retained entries and the folded-in samples are those of the recursive specification, in queue order |
| RetransmitQueues.RetransmitQueue.Retain | magnum-tcp/src/tcp/retransmit.rs:51-66 | the `retain` pass keeps exactly what is not fully acknowledged and samples exactly the unmarked rest, in order |
| RetransmitQueues.RetransmitQueue.UpdateRto | magnum-tcp/src/tcp/retransmit.rs:72-89 | first sample and smoothed update of section 2 of RFC 6298, clamped |
| RetransmitQueues.RetransmitQueue.ExpiredSegments | magnum-tcp/src/tcp/retransmit.rs:91-107 | the loop computes the due entries in order, re-stamps and marks those, and doubles the timeout once if there were any; `Overdue.TimerFires` says in numbers which entries these are |
| RetransmitQueues.RetransmitQueue.RefreshDue | magnum-tcp/src/tcp/retransmit.rs:91-102 | the marking pass returns and re-stamps the entries of the recursive specification, in order; `Overdue.DuePicks` and `Overdue.RefreshAt` say which these are |
| RetransmitQueues.RetransmitQueue.FirstUnacked | magnum-tcp/src/tcp/retransmit.rs:109-111 | the head of the queue, without a mark |
| Checksums.FoldStep | magnum-tcp/src/ipv4.rs:122-124 | one carry fold keeps the value modulo 65535, shrinks the sum, and never turns a positive sum into 0 |
| Checksums.Fold | magnum-tcp/src/ipv4.rs:122-124 | the folding loop ends in the one's-complement representative: 65535, not 0, for positive multiples |
| Checksums.Checksum | magnum-tcp/src/ipv4.rs:109-127 | both loops together compute the complement of the folded sum of big-endian words, odd lengths padded, without overflow |
| Checksums.WordSumUpdate | magnum-tcp/src/ipv4.rs:109-127 | changing one byte moves the sum by its difference times 256 or 1 |
| Checksums.WordSumAppend | magnum-tcp/src/ipv4.rs:109-127 | the sum splits at every even offset |
| Checksums.WordSumByBytes | magnum-tcp/src/ipv4.rs:109-127 | from the empty sum 0, a byte at an even place adds 256 times itself, at an odd place itself |
| Checksums.ChecksumZeroIff | magnum-tcp/src/ipv4.rs:55-63 | data verify iff their sum is a positive multiple of 65535 |
| Checksums.ChecksumCompletes | magnum-tcp/src/ipv4.rs:154-156 | adding the checksum of a nonzero sum makes it verify |
| Checksums.ChecksumUnique | magnum-tcp/src/ipv4.rs:109-127 | no other field value verifies, except 0xFFFF in place of 0 |
| Checksums.ChecksumDetects | magnum-tcp/src/ipv4.rs:55-63 | after any single-byte change a verifying sum no longer verifies |
| Ipv4.BuildPacket | magnum-tcp/src/ipv4.rs:129-161 | the patched buffer is the 20-byte header with its own checksum, then the payload |
| Ipv4.ParseEncode | magnum-tcp/src/ipv4.rs:32-161 | `Ipv4Packet::parse` undoes `build_packet` for every payload that fits, whatever padding follows |
| Ipv4.TruncationRejected | magnum-tcp/src/ipv4.rs:33-79 | a built packet cut short anywhere is rejected with the matching error |
| Ipv4.HeaderCorruptionRejected | magnum-tcp/src/ipv4.rs:55-63 | changing any header byte, header length apart, makes `parse` reject |
| TcpHeaders.TcpChecksum | magnum-tcp/src/tcp/header.rs:135-161 | the streaming loop computes the checksum over pseudo-header and segment, odd lengths included, without overflow |
| TcpHeaders.StreamedChecksumIsPlain | magnum-tcp/src/tcp/header.rs:135-161 | equals the plain `checksum` of the 12-byte pseudo-header, protocol number 6, followed by the segment |
| TcpHeaders.Build | magnum-tcp/src/tcp/header.rs:215-232 | filling the zeroed buffer and patching the checksum gives header, checksum over the field-zero bytes, and payload |
| TcpHeaders.FlagsRoundTrip | magnum-tcp/src/tcp/header.rs:18-38 | decoding an encoded flag set gives it back |
| TcpHeaders.FlagsByteRoundTrip | magnum-tcp/src/tcp/header.rs:18-38 | encoding a decoded byte loses exactly its two reserved high bits |
| TcpHeaders.ParseEncode | magnum-tcp/src/tcp/header.rs:83-232 | every built segment has checksum 0 and parses back field by field, for any payload length |
| TcpHeaders.EncodeParse | magnum-tcp/src/tcp/header.rs:83-232 | every accepted option-free segment is rebuilt byte for byte, unless it carries 0xFFFF where the builder writes 0; segments with options are the subject of `Layouts.TcpParsedIsLaidOut` |
| TcpHeaders.CorruptionRejected | magnum-tcp/src/tcp/header.rs:106-114 | changing any one byte of an accepted segment makes `parse` reject |
| Ethernet.Build | magnum-tcp/src/ethernet.rs:17-24 | the growing vector ends as addresses, IPv4 type and payload |
| Ethernet.ParseEncode | magnum-tcp/src/ethernet.rs:17-51 | parsing undoes building; trailing bytes stay in the payload |
| Ethernet.FrameRoundTrip | magnum-tcp/src/main.rs:356-362 | the three parsers undo the three builders for all fields and payloads that fit, with arbitrary padding |
| Layouts.TcpParseAccepts | magnum-tcp/src/tcp/header.rs:83-114 | a segment is accepted iff it has 20 bytes, an offset of at least 5 that it reaches, and a sum over pseudo-header and segment that is a multiple of 65535; each rejection has its error |
| Layouts.TcpParseReads | magnum-tcp/src/tcp/header.rs:83-132 | for any fields, reserved bits, 4k <= 40 option bytes and payload, the explicit byte layout parses to exactly those fields and the payload behind the options if it verifies, and is rejected otherwise |
| Layouts.TcpCompletes | magnum-tcp/src/tcp/header.rs:83-132 | with the completing checksum every such layout is accepted; with another only if that is 0xFFFF in place of 0 |
| Layouts.TcpParsedIsLaidOut | magnum-tcp/src/tcp/header.rs:83-132 | an accepted segment of any offset is its fields, reserved bits, options and payload laid out again |
| Layouts.BuiltIsLaidOut | magnum-tcp/src/tcp/header.rs:215-232 | what `build` produces is the layout with offset 5, no options, no reserved bits and no urgent pointer |
| Layouts.Ipv4ParseAccepts | magnum-tcp/src/ipv4.rs:32-79 | a packet is accepted iff it has 20 bytes, a header length of at least 20 and a total length between that and its own length, and its header verifies; each rejection has its error |
| Layouts.Ipv4ParseReads | magnum-tcp/src/ipv4.rs:32-106 | any header fields, options and payload laid out with a verifying header are read back, the payload from behind the options to the total length, whatever follows |
| Layouts.Ipv4Completes | magnum-tcp/src/ipv4.rs:109-127 | for any fields and options there is a verifying checksum, and no other but 0xFFFF in place of 0 |
| Layouts.Ipv4ParsedIsLaidOut | magnum-tcp/src/ipv4.rs:32-106 | an accepted packet is its fields, options, payload and padding laid out again |
| Layouts.BuiltPacketIsLaidOut | magnum-tcp/src/ipv4.rs:129-161 | what `build_packet` produces is version 4, header length 5, "do not fragment", 64 hops |
| Layouts.FrameParses | magnum-tcp/src/ethernet.rs:26-51 | a frame is accepted iff it has 14 bytes and type 0x0800, and is then its addresses, type and payload put together again |
| Connections.Connection.constructor | magnum-tcp/src/tcp/connection.rs:24-33 | fresh buffers and queue around the given control block |
| Connections.Connection.ProcessSegment | magnum-tcp/src/tcp/connection.rs:35-52 | dispatch by state; new state and reply are those of the specification the run theorems are about |
| Connections.Connection.WriteData | magnum-tcp/src/tcp/connection.rs:54-56 | accepts the prefix that fits and changes nothing else |
| Connections.Connection.NextSegmentToSend | magnum-tcp/src/tcp/connection.rs:58-91 | sends inside min(cwnd, snd.wnd), queues, and moves both copies of `nxt` together |
| Connections.Connection.ReadReceived | magnum-tcp/src/tcp/connection.rs:93-95 | delivers the oldest bytes, 0 before the SYN was heard |
| Connections.Connection.ReceivedAvailable | magnum-tcp/src/tcp/connection.rs:97-99 | the number of bytes a read would deliver |
| Connections.Connection.TakeRetransmits | magnum-tcp/src/tcp/connection.rs:101-134 | one segment per due entry, after the return to slow start |
| Connections.Connection.InitiateClose | magnum-tcp/src/tcp/connection.rs:136-157 | FIN from ESTABLISHED or CLOSE_WAIT only, taking one number in the control block only |
| Connections.Connection.TickTimeWait | magnum-tcp/src/tcp/connection.rs:159-171 | closes iff in TIME_WAIT for 60 s |
| Connections.Connection.Connect | magnum-tcp/src/tcp/connection.rs:173-186 | SYN from CLOSED only |
| Connections.Connection.ZeroWindowProbe | magnum-tcp/src/tcp/connection.rs:188-212 | one byte into a zero window, not queued |
| Connections.Connection.CurrentWindow | magnum-tcp/src/tcp/connection.rs:214-219 | the receive buffer's window, 65535 without one |
| Connections.Connection.HandleListen | magnum-tcp/src/tcp/connection.rs:221-249 | every branch: RST ignored, ACK refused, SYN accepted |
| Connections.Connection.HandleSynSent | magnum-tcp/src/tcp/connection.rs:251-284 | every branch: reset, SYN-ACK, refused ACK, simultaneous open |
| Connections.Connection.HandleSynReceived | magnum-tcp/src/tcp/connection.rs:286-318 | every branch, with the handshake acknowledgement also given to the ring |
| Connections.Connection.HandleEstablished | magnum-tcp/src/tcp/connection.rs:320-383 | acknowledgement, payload and FIN part as in the specification; `Transitions.DataAndFin` and `Congestion.WindowFrame` say what that comes to |
| Connections.Connection.AckEstablished | magnum-tcp/src/tcp/connection.rs:327-362 | Reno growth, duplicate counting, fast retransmit and recovery with all saturations |
| Connections.Connection.GrowOnAck | magnum-tcp/src/tcp/connection.rs:329-341 | a new acknowledgement moves both copies of `una`, the queue, the windows and the counter together; the growth is `Congestion.WindowFrame` |
| Connections.Connection.CountDuplicate | magnum-tcp/src/tcp/connection.rs:342-361 | saturating count; the third duplicate halves and resends, later ones inflate |
| Connections.Connection.DataEstablished | magnum-tcp/src/tcp/connection.rs:364-382 | payload inserted, FIN taken; `Transitions.DataAndFin` states the outcome for every segment |
| Connections.Connection.HandleCloseWait | magnum-tcp/src/tcp/connection.rs:385-392 | only a reset has an effect |
| Connections.Connection.HandleFinWait1 | magnum-tcp/src/tcp/connection.rs:394-439 | the four ways out of FIN_WAIT_1 |
| Connections.Connection.HandleFinWait2 | magnum-tcp/src/tcp/connection.rs:441-456 | a FIN starts TIME_WAIT and its clock |
| Connections.Connection.HandleClosing | magnum-tcp/src/tcp/connection.rs:458-473 | any acceptable acknowledgement starts TIME_WAIT |
| Connections.Connection.HandleLastAck | magnum-tcp/src/tcp/connection.rs:475-489 | any acceptable acknowledgement closes |
| Connections.Connection.HandleTimeWait | magnum-tcp/src/tcp/connection.rs:491-496 | a FIN is acknowledged again, and nothing changes |
| Connections.Connection.FastRetransmitSegment | magnum-tcp/src/tcp/connection.rs:498-518 | the head of the queue as a segment |
| Transitions.AcksIff | magnum-tcp/src/tcp/tcb.rs:113-125 | an acknowledgement is new iff its distance behind `snd.una` is positive and below 2^31 and that to `snd.nxt` below 2^31, modulo 2^32 |
| Transitions.SegmentDoes | magnum-tcp/src/tcp/connection.rs:35-496 | for every state and segment: next state, `una`, `nxt`, windows, `rcv.nxt`, both buffers, queue, TIME_WAIT clock and the whole reply are those of the tables, both directions of every transition included |
| Transitions.DataAndFin | magnum-tcp/src/tcp/connection.rs:364-382 | on an established connection a FIN leads to CLOSE_WAIT, and nothing else does, with data or without, in order or not; `rcv.nxt` is then seq + length + 1; one ACK of the expected number answers each FIN and each nonempty payload, and nothing else is answered; the third duplicate is answered by the head of the queue |
| Transitions.HeardFinLeadsOn | magnum-tcp/src/tcp/connection.rs:364-456 | in any run every FIN that is heard leads to CLOSE_WAIT, CLOSING or TIME_WAIT and is answered by one ACK of the number behind it |
| Transitions.CloseTable | magnum-tcp/src/tcp/connection.rs:136-157 | whole effect of `initiate_close` in every state |
| Transitions.OpenTable | magnum-tcp/src/tcp/connection.rs:173-186 | whole effect of `connect` in every state |
| Transitions.TickTable | magnum-tcp/src/tcp/connection.rs:159-171 | a tick closes iff in TIME_WAIT for at least 60 s, and changes nothing else |
| Transitions.WriteTable | magnum-tcp/src/tcp/send_buffer.rs:24-33 | a write accepts the first min(length, 65536 - buffered) bytes and changes nothing else |
| Transitions.ReadTable | magnum-tcp/src/tcp/recv_buffer.rs:77-85 | a read hands out and removes the oldest bytes and changes nothing else |
| Transitions.SendTable | magnum-tcp/src/tcp/connection.rs:58-91 | a segment goes out iff less is in flight than both windows allow, something is unsent and the limit is positive; it carries min(limit, room, unsent) bytes of the ring, is queued iff fewer than 128 are, and both copies of `nxt` move behind it |
| Transitions.ProbeTable | magnum-tcp/src/tcp/connection.rs:188-212 | a probe goes out iff ESTABLISHED, the window is 0 and something is unsent; it is the next byte, with ACK alone, not queued |
| Transitions.OutputKinds | magnum-tcp/src/tcp/connection.rs:498-601 | every outgoing segment is one of seven kinds, with flags, both numbers and window spelled out |
| Transitions.StepAddressed | magnum-tcp/src/tcp/connection.rs:535-601 | every outgoing segment goes from the local to the remote end, no event changes the ends, and an empty segment with ACK alone carries `snd.nxt` |
| Transitions.RunAddressed | magnum-tcp/src/tcp/connection.rs:535-601 | the same over any run |
| Transitions.FreshIsNew | magnum-tcp/src/tcp/tcb.rs:51-111 | the initial value of every variable |
| Reassembly.CommitSafe | magnum-tcp/src/tcp/recv_buffer.rs:56-65 | committing the stream's continuation, truncated or not, keeps what is delivered a prefix of the stream |
| Reassembly.DrainSafe | magnum-tcp/src/tcp/recv_buffer.rs:67-75 | so does draining, with any stale entries in the map |
| Reassembly.InsertSafe | magnum-tcp/src/tcp/recv_buffer.rs:28-54 | inserting any slice of a stream below 2^31 bytes (overlapping, duplicate, staged, stale, truncated) keeps read bytes plus ring a prefix of the stream, and never moves back |
| Reassembly.InsertDoes | magnum-tcp/src/tcp/recv_buffer.rs:28-65 | inserting in numbers: old bytes are cut off, what reaches the expected number is appended up to 65536 bytes, partly if need be, what starts later is staged under its number, and a stale segment changes nothing |
| Reassembly.ReadSafe | magnum-tcp/src/tcp/recv_buffer.rs:77-85 | reading moves bytes from the ring to the delivered prefix and loses none |
| Completeness.ReassemblyComplete | magnum-tcp/src/tcp/recv_buffer.rs:28-75 | for a cut stream, any arrivals in any order with any duplicates and reads: the expected number is the first missing segment's, everything before it is delivered, and exactly the later arrivals are staged |
| Completeness.OrderIndependent | magnum-tcp/src/tcp/recv_buffer.rs:28-75 | two runs that received the same set of segments end with the same bytes, number and map |
| Completeness.CompleteIffOrdered | magnum-tcp/src/tcp/recv_buffer.rs:67-75 | every order is reassembled iff segments that can be staged together do not straddle the wrap |
| Completeness.OrderedUnlessWrapping | magnum-tcp/src/tcp/recv_buffer.rs:67-71 | streams that end before the wrap qualify; three one-byte segments across it do not |
| Completeness.DrainDeliversIff | magnum-tcp/src/tcp/recv_buffer.rs:67-75 | the staged segment that is next in line is delivered iff no staged key is numerically smaller |
| Completeness.StaleEntryBlocks | magnum-tcp/src/tcp/recv_buffer.rs:67-71 | an overtaken key survives every insert and keeps everything staged where it is, until the numbers wrap |
| Completeness.OverlapStrands | magnum-tcp/src/tcp/recv_buffer.rs:28-75 | an in-order commit past the start of a staged segment leaves that entry, and all others, in the map |
| Completeness.OverlapLosesProgress | magnum-tcp/src/tcp/recv_buffer.rs:28-75 | four overlapping pieces of one stream after which all bytes have arrived and the last is staged but not delivered |
| Completeness.NextIsCommitted | magnum-tcp/src/tcp/recv_buffer.rs:28-54 | a segment that starts at the expected byte is committed, whatever is staged |
| Completeness.ResendDelivers | magnum-tcp/src/tcp/recv_buffer.rs:28-75 | in that state a resent copy of the byte completes the stream |
| SendSide.FreshInv | magnum-tcp/src/tcp/connection.rs:24-33 | a new connection satisfies the send-side invariant |
| SendSide.StepDoes | magnum-tcp/src/tcp/connection.rs:35-212 | what one event does to stream, ring and queue: the stream grows, the ring only advances, and every queued entry was there before - and, unless the handshake is just being completed, is not covered by where the ring advanced to - or was just sent |
| SendSide.NearUnique | magnum-tcp/src/tcp/retransmit.rs:91-111 | a number names at most one position near the ring |
| SendSide.TransmitsIff | magnum-tcp/src/tcp/connection.rs:58-66 | a send or probe goes out iff window and unsent bytes allow it |
| SendSide.StepKeeps | magnum-tcp/src/tcp/connection.rs:35-212 | every event keeps it: ring, queue and both copies of the sequence variables describe the one stream written |
| SendSide.AckMoves | magnum-tcp/src/tcp/connection.rs:327-341 | an acceptable acknowledgement denotes one position in (una, nxt], and the ring drops its front up to it or stays |
| SendSide.NextSegmentIsNextBytes | magnum-tcp/src/tcp/send_buffer.rs:35-51 | in every reachable state the ring offers exactly the next unsent bytes of the stream, or nothing |
| SendSide.FirstTransmission | magnum-tcp/src/tcp/connection.rs:58-91 | a send or probe carries the next unsent bytes under their own number and counts them as sent |
| SendSide.EstablishedSendSide | magnum-tcp/src/tcp/connection.rs:320-383 | only a new acknowledgement touches ring, queue, `una` and window, and then all four together |
| SendSide.EstablishedOutcome | magnum-tcp/src/tcp/connection.rs:320-383 | ESTABLISHED leads to CLOSE_WAIT iff a FIN comes without RST and is not the third duplicate that is answered by a resent segment, to CLOSED iff a RST comes, otherwise nowhere, and never emits a FIN |
| SendSide.TransmissionsRepeatHistory | magnum-tcp/src/tcp/retransmit.rs:91-111 | in every run each transmitted payload (first, timer, fast, probe) is the slice of the written stream at the one position near the ring that has its number, although the ring was overwritten and the numbers wrapped any number of times |
| Agreement.SendSideAgreement | magnum-tcp/src/tcp/connection.rs:188-341 | from ESTABLISHED through CLOSE_WAIT, in every run that completes the handshake in step, both copies of `una` and `nxt` are equal, what is in flight fits the ring, and the ring is the tail of the stream written |
| Agreement.SendSideAgreementIff | magnum-tcp/src/tcp/connection.rs:251-341 | over any run the copies agree in every such state iff every handshake completion was in step |
| Agreement.OrderlyEntersInStep | magnum-tcp/src/tcp/connection.rs:58-91 | runs that send only after the handshake complete it in step |
| Agreement.AcknowledgementHonoured | magnum-tcp/src/tcp/connection.rs:327-341 | under agreement every acceptable acknowledgement removes exactly the bytes it covers, never the ignore branch |
| Agreement.EntryAgreesIff | magnum-tcp/src/tcp/connection.rs:251-318 | on entering ESTABLISHED, from SYN_SENT or SYN_RECEIVED, the copies agree iff the two `nxt` did and a SYN-ACK acknowledges the SYN alone; from SYN_RECEIVED the two `una` always agree |
| Agreement.EntryHistory | magnum-tcp/src/tcp/connection.rs:58-249 | the two `nxt` differ at entry iff data went out before the last SYN exchange began and not again during it |
| Agreement.ShapeStep | magnum-tcp/src/tcp/connection.rs:35-212 | until a FIN is sent, the two `nxt` are in step, or the control block's was left at the first byte by the SYN exchange and nothing is acknowledged |
| Agreement.ListenerSends | magnum-tcp/src/tcp/connection.rs:58-91 | a listening connection does send data, without leaving LISTEN |
| Agreement.EarlyDataBreaksAgreement | magnum-tcp/src/tcp/connection.rs:221-318 | an ordinary handshake after early data leaves the two `nxt` different |
| Agreement.EarlyAckBreaksAgreement | magnum-tcp/src/tcp/connection.rs:259-270 | a SYN-ACK that acknowledges early data leaves the two `una` different, because the ring is not told |
| Scenarios.EarlyAckSplits | magnum-tcp/src/tcp/connection.rs:58-270 | a run from a fresh connection that ends with the two `una` different |
| Agreement.AgreementInWords | magnum-tcp/src/tcp/connection.rs:58-65 | agreement of positions is equality of the machine words, both ways, with in-flight bytes within the ring |
| Tiling.QueueTilesFlight | magnum-tcp/src/tcp/retransmit.rs:40-69 | in every run that obeys `Queued` the entries are contiguous, the first contains `snd.una`, the last ends at `snd.nxt`, and the queue is empty iff una = nxt |
| Tiling.QueueTilesFlightIff | magnum-tcp/src/tcp/retransmit.rs:40-69 | over any run the queue tiles the flight in every state of ESTABLISHED and CLOSE_WAIT iff every handshake completion left it tiled, no probe went out and no send met a full queue |
| Tiling.EntryTiledIff | magnum-tcp/src/tcp/connection.rs:310-313 | on entering ESTABLISHED the queue tiles the flight iff before it was empty and everything is acknowledged, or ran up to `snd.nxt` with the acknowledgement inside its first entry |
| Tiling.OrderlyCompletesTiled | magnum-tcp/src/tcp/connection.rs:58-91 | sending only after the handshake is enough for that |
| Tiling.StepTiledIff | magnum-tcp/src/tcp/retransmit.rs:40-107 | one step of it: sends, full and partial acknowledgements, timer expiry and everything else keep the tiling iff `Queued` holds |
| Scenarios.EarlyDataLosesTiling | magnum-tcp/src/tcp/connection.rs:58-318 | a run of a listener that sends early, then an ordinary handshake: una = nxt, the queue is not empty, and the two `nxt` differ |
| Tiling.StepTiles | magnum-tcp/src/tcp/retransmit.rs:40-107 | one step under `Queued` keeps the tiling |
| Tiling.KeepTiles | magnum-tcp/src/tcp/retransmit.rs:51-69 | `retain` drops exactly the entries that end by the acknowledged position |
| Tiling.TilingLostIff | magnum-tcp/src/tcp/retransmit.rs:40-49 | in ESTABLISHED and CLOSE_WAIT a send or probe keeps the tiling iff nothing goes out or it is a send that finds room in the queue |
| Tiling.NeverRetransmitted | magnum-tcp/src/tcp/retransmit.rs:40-111 | a byte sent as a probe or past a full queue is covered by no retransmission in any later run |
| Scenarios.ProbeLosesTiling | magnum-tcp/src/tcp/connection.rs:188-212 | a run that ends with a byte in flight and an empty queue |
| Scenarios.FullQueueReached | magnum-tcp/src/tcp/retransmit.rs:40-42 | a run that fills the queue and can still send |
| Tiling.ThirdDuplicateResends | magnum-tcp/src/tcp/connection.rs:342-361 | the third duplicate, and no other, resends a piece of the stream that contains `snd.una` |
| ReceiveSide.DeliverHears | magnum-tcp/src/tcp/connection.rs:320-383 | whatever segment of the peer's stream arrives in whatever state, what was put in order stays a prefix of it and never shrinks |
| Network.PrefixDelivery | magnum-tcp/src/tcp/connection.rs:58-134 | exact prefix delivery in both directions, in every state of every two-party run below 2^31 bytes, through handshake, retransmission, probes, closes and resets |
| Network.MirrorRun | magnum-tcp/src/tcp/connection.rs:35-52 | exchanging the two names turns every run into a run and every rule into its mirror image |
| FlowControl.NoPrematureDiscard | magnum-tcp/src/tcp/connection.rs:327-341 | discarded position <= receiver's position <= sent position, and `snd.una` and the peer's `rcv.nxt` name positions up to the receiver's or just behind the FIN, in every run through the close in which the sender closes with everything sent |
| FlowControl.NoPrematureDiscardBack | magnum-tcp/src/tcp/connection.rs:327-341 | the same for the other direction |
| FlowControl.FinAcknowledgedLast | magnum-tcp/src/tcp/connection.rs:374-440 | if FINs are processed in order, `snd.una` is at most one ahead of the receiver, and then the receiver has everything |
| FlowControl.OutputsAcknowledge | magnum-tcp/src/tcp/connection.rs:535-586 | every emitted segment with ACK, from whichever builder and in whichever state, carries the current expected number and window |
| FlowControl.StepRcv | magnum-tcp/src/tcp/connection.rs:364-380 | the acknowledgement number is the receive buffer's until a FIN is processed, and then the number behind that FIN |
| Discards.CloseDiscardsIff | magnum-tcp/src/tcp/connection.rs:136-157 | after a close followed at once by the acknowledgement of the FIN, only sent bytes are discarded iff everything written was sent and `snd.nxt` stood behind it |
| Discards.AckDiscardsIff | magnum-tcp/src/tcp/connection.rs:327-341 | an established sender discards beyond a position iff the segment is an acceptable acknowledgement of a later one |
| Discards.FinWait1DiscardsIff | magnum-tcp/src/tcp/connection.rs:394-418 | in FIN_WAIT_1 a sender discards beyond a position iff the segment is an acceptable acknowledgement of a later one that does not lie behind everything written |
| Discards.EarlySegmentAcksZero | magnum-tcp/src/tcp/connection.rs:73-90 | a segment sent before a SYN was seen acknowledges number 0 |
| Discards.EarlySegmentDiscardsIff | magnum-tcp/src/tcp/connection.rs:327-341 | it makes the sender discard what the peer lacks iff the byte before number 0 is in flight and the peer lacks it |
| Discards.FinAcknowledgedIff | magnum-tcp/src/tcp/connection.rs:374-422 | a FIN and its reply leave `snd.una` within one of what the peer has iff the FIN arrived in order |
| Failures.UnsentByteDiscarded | magnum-tcp/src/tcp/connection.rs:136-157 | a run of two fresh connections that closes with an unsent byte and discards it |
| Failures.LateWriteDiscarded | magnum-tcp/src/tcp/connection.rs:54-56 | a run that closes with nothing unsent, writes a byte, and discards it unsent when the FIN is acknowledged |
| Failures.OvertakingFinAcknowledged | magnum-tcp/src/tcp/connection.rs:374-380 | a run in which a FIN overtakes data and `snd.una` ends two ahead of the peer |
| Failures.EarlySegmentDiscards | magnum-tcp/src/tcp/connection.rs:73-90 | a run in which a segment from before the handshake makes the sender discard a byte the peer lacks |
| Overrun.FlowControlNeverOverruns | magnum-tcp/src/tcp/recv_buffer.rs:56-93 | without probes into a closed window, in whatever states data is sent, nothing sent lies beyond a full ring behind the reader, and inserting any segment ever sent gives what an unbounded buffer would |
| Overrun.FlowControlNeverOverrunsBack | magnum-tcp/src/tcp/recv_buffer.rs:56-93 | the same for the other direction |
| Overrun.SendInsideWindow | magnum-tcp/src/tcp/connection.rs:58-66 | with both `nxt` in step a send never passes `una` plus the window that came with it |
| Overrun.SendFits | magnum-tcp/src/tcp/connection.rs:58-66 | otherwise nothing was acknowledged, and the whole stream still fits the ring |
| Overrun.InsertIsWholeIff | magnum-tcp/src/tcp/recv_buffer.rs:28-75 | for any buffer and segment, the ring does what an unbounded buffer would iff what that would hold fits |
| Overrun.ProbeOverrunsIff | magnum-tcp/src/tcp/connection.rs:188-212 | a probe that arrives at once is treated as by an unbounded buffer iff the peer's ring is not full; otherwise the byte is lost |
| Overrun.ProbeIntoFullRingLost | magnum-tcp/src/tcp/connection.rs:188-212 | with everything acknowledged and a ring length unread, a probe is lost |
| Overrun.ProbeOutsideWindow | magnum-tcp/src/tcp/connection.rs:188-194 | a probe always lies at or beyond the edge of the window the sender was offered |
| FullRing.ProbeOverrunsRing | magnum-tcp/src/tcp/connection.rs:188-212 | a run of two fresh connections that fills the peer's ring byte by byte and then loses a probe |
| EndToEnd.TransmissionsFormACut | magnum-tcp/src/tcp/connection.rs:58-134 | in every run every data segment ever transmitted is exactly the piece between two neighbouring cut positions, made when it was first sent |
| EndToEnd.SameOrDisjoint | magnum-tcp/src/tcp/connection.rs:58-134 | so two data segments are the same piece or have no byte in common |
| EndToEnd.EndToEndComplete | magnum-tcp/src/tcp/recv_buffer.rs:28-75 | in every two-party run without probes into a closed window and wrap-around, the peer expects the first piece it was not given, has delivered all before it, stages exactly those behind it, and never waits for one that is staged |
| Congestion.ReachableWindows | magnum-tcp/src/tcp/connection.rs:327-361 | cwnd >= MSS and ssthresh >= 2 MSS in every reachable state |
| Congestion.WindowFrame | magnum-tcp/src/tcp/connection.rs:101-112 | cwnd, ssthresh and the duplicate counter after any event, in numbers: + min(n, 1460) below the threshold and + 1460 * 1460 / cwnd above it on n new bytes, half plus three segments on the third duplicate, one segment more on later ones, one segment after an expiry, with saturation; nothing else touches them |
| Congestion.SlowStartBounded | magnum-tcp/src/tcp/connection.rs:332-333 | over any run without expiry and third duplicate, whatever is sent in between, slow start grows by at most the bytes acknowledged and overshoots ssthresh by less than MSS |
| Congestion.SlowStartExact | magnum-tcp/src/tcp/connection.rs:332-333 | and grows by exactly the bytes acknowledged, each acknowledgement counted for at most one MSS, up to 2^32 - 1 |
| Congestion.SlowStartCountsBytes | magnum-tcp/src/tcp/connection.rs:332-333 | if no acknowledgement covers more than one MSS these are all bytes acknowledged |
| Congestion.AvoidanceBounded | magnum-tcp/src/tcp/connection.rs:334-336 | over any such run, k new acknowledgements give cwnd^2 <= cwnd0^2 + 3 k MSS^2 and cwnd <= cwnd0 + k (MSS^2 / cwnd0) |
| Congestion.AvoidanceGrows | magnum-tcp/src/tcp/connection.rs:334-336 | from below: cwnd^2 >= cwnd0^2 + 2 k (MSS^2 - cwnd) and cwnd >= cwnd0 + k (MSS^2 / cwnd) |
| Congestion.ExpiringIff | magnum-tcp/src/tcp/retransmit.rs:91-102 | an expiry is an examination that finds an entry sent at least a timeout ago |
| Congestion.OneSegmentPerWindow | magnum-tcp/src/tcp/connection.rs:334-336 | over any such run, at most one MSS of growth per floor(cwnd0 / MSS) acknowledgements |
| Congestion.RecoveryNotDeflated | magnum-tcp/src/tcp/connection.rs:329-361 | the acknowledgement that ends a recovery leaves at least ssthresh + 3 MSS |
| Congestion.ExpiryReturnsToSlowStart | magnum-tcp/src/tcp/connection.rs:101-112 | an expiry leaves one MSS, half the window as threshold, slow start, and the duplicate counter as it was |
| Scenarios.RecoveryEndsInflated | magnum-tcp/src/tcp/connection.rs:329-361 | a run that leaves recovery with cwnd 7592 and ssthresh 2920 |
| Timer.RtoBounded | magnum-tcp/src/tcp/retransmit.rs:72-107 | the timeout stays between 200 ms and 60 s over every run of the queue |
| Timer.SrttBetweenSamples | magnum-tcp/src/tcp/retransmit.rs:72-89 | the smoothed time stays between the smallest and the largest sample of the run |
| Timer.SrttConverges | magnum-tcp/src/tcp/retransmit.rs:72-89 | with a steady round-trip time its error is (7/8)^k of the initial one |
| Timer.RtoSettles | magnum-tcp/src/tcp/retransmit.rs:72-89 | then the variation is (3/4)^k of its start, and the timeout follows it |
| Timer.Backoff | magnum-tcp/src/tcp/retransmit.rs:91-107 | k expiries without a sample give min(2^k rto, 60 s) |
| Timer.ExpiredNeverSampled | magnum-tcp/src/tcp/retransmit.rs:51-107 | over any run, an entry the timer returned is never sampled |
| Timer.SampledIffNeverExpired | magnum-tcp/src/tcp/retransmit.rs:51-69 | an acknowledged entry is sampled iff the timer never returned it, fast retransmitted or not |
| Timer.RunIsOps | magnum-tcp/src/tcp/connection.rs:58-134 | what a connection does to its queue over any run is a run of queue operations |
| Timer.RtoOfConnection | magnum-tcp/src/tcp/retransmit.rs:72-107 | so the timeout of any connection stays between 200 ms and 60 s |
| Overdue.DuePicks | magnum-tcp/src/tcp/retransmit.rs:91-102 | the segments the timer returns are those of the entries with now - sent >= rto, all of them, in queue order |
| Overdue.RefreshAt | magnum-tcp/src/tcp/retransmit.rs:91-102 | exactly those entries are stamped and marked |
| Overdue.TimerFires | magnum-tcp/src/tcp/connection.rs:101-134 | one examination of a connection: exactly the overdue entries go out, once each, in order; stamps, marks, cwnd, ssthresh and timeout in numbers; nothing happens if none is overdue |
| Overdue.KeepPicks | magnum-tcp/src/tcp/retransmit.rs:51-66 | what an acknowledgement leaves in the queue are the entries whose end lies beyond it, in order |
| Overdue.SamplePicks | magnum-tcp/src/tcp/retransmit.rs:51-66 | what it measures are the ages of the covered entries without a mark, in order |
| Overdue.AckRetires | magnum-tcp/src/tcp/retransmit.rs:51-69 | both together: exactly the covered entries leave the queue, and the estimate takes exactly those samples |
| Overdue.SampleDoes | magnum-tcp/src/tcp/retransmit.rs:72-89 | one sample in numbers: r and r/2 first, then 7/8, 1/8 and 3/4, 1/4 of the deviation; timeout srtt + 4 rttvar between 0.2 and 60 |
| Overdue.SamplesInOrder | magnum-tcp/src/tcp/retransmit.rs:66-69 | several samples are taken one after the other |
| Overdue.ResentWhenLate | magnum-tcp/src/tcp/retransmit.rs:91-107 | in any run a queued entry stays untouched until the first event that is an acknowledgement covering it or an examination at least a timeout after it was sent, and in the second case it goes out there |
| Overdue.SentIsResentWhenLate | magnum-tcp/src/tcp/retransmit.rs:40-107 | so a segment sent at t0 with room in the queue is resent by the first examination at or after t0 + rto and by none before, unless acknowledged first, in every run from a fresh connection |
| Lifecycle.EstablishedOnlyDescends | magnum-tcp/src/tcp/connection.rs:136-496 | after ESTABLISHED no opening state recurs and at most four state changes remain |
| Lifecycle.FinsOverLife | magnum-tcp/src/tcp/connection.rs:136-157 | at most one FIN is sent and at most one of the peer's is heard in a life; the closing states imply own FIN sent, CLOSE_WAIT, CLOSING, LAST_ACK and TIME_WAIT that the peer's was heard, and once it was there are only these and CLOSED |
| Lifecycle.FinOutputs | magnum-tcp/src/tcp/connection.rs:570-586 | a FIN goes out only on closing, empty, under the number `snd.nxt` |
| Lifecycle.ResetsRefuse | magnum-tcp/src/tcp/connection.rs:588-601 | a reset only answers, during the handshake, an acknowledgement of something never sent, under that number, changes nothing, and never answers a reset |
| Lifecycle.TimeWaitEndsAfter60s | magnum-tcp/src/tcp/connection.rs:159-171 | TIME_WAIT entered at t0 is left iff there is a clock reading of at least t0 + 60 s, and then for good |
| Lifecycle.FastRetransmitOnce | magnum-tcp/src/tcp/connection.rs:342-361 | between two new acknowledgements fast retransmit fires at most once, beyond saturation of the counter too |
| Lifecycle.FinWait2NeedsFullAck | magnum-tcp/src/tcp/connection.rs:394-439 | FIN_WAIT_2 is entered only by an acknowledgement of exactly `snd.nxt` |
| Lifecycle.ClosingEndsOnAnyAck | magnum-tcp/src/tcp/connection.rs:458-489 | CLOSING and LAST_ACK end on every acceptable acknowledgement, covering the FIN or not |
| Scenarios.LastAckEndsEarly | magnum-tcp/src/tcp/connection.rs:475-489 | a run that leaves LAST_ACK for CLOSED with the FIN unacknowledged |
| Tasks.FlushSendBuf | magnum-tcp/src/tcp/task.rs:127-144 | the loop ends and sends, in order, what the specification's flush sends |
| Tasks.FlushWorkConserving | magnum-tcp/src/tcp/task.rs:127-144 | the payloads concatenate to exactly the next unsent bytes, in flight stays within min(cwnd, snd.wnd), and at the end that window is full or nothing is unsent |
| Tasks.FlushSendsOn | magnum-tcp/src/tcp/task.rs:127-144 | from any state: at the end nothing more may go, only unsent data moved, and every segment carries the current expected number and window |
| Tasks.InboundForwards | magnum-tcp/src/tcp/task.rs:52-72 | the inbound arm: reply, then all received bytes to the application, then everything that may be sent |
| Tasks.AppSendForwards | magnum-tcp/src/tcp/task.rs:98-101 | the write arm: the prefix that fits, then everything that may be sent |
| Tasks.TurnDone | magnum-tcp/src/tcp/task.rs:48-125 | what every turn ends with |
| Tasks.TaskComposes | magnum-tcp/src/tcp/task.rs:48-125 | the loop goes on until the connection is closed and no further |
| Tasks.TaskLeaves | magnum-tcp/src/tcp/task.rs:48-125 | in every state the loop reaches nothing more may be sent behind a segment or a write, and nothing is left to hand over behind a segment |
| Tasks.ForwardReceivedData | magnum-tcp/src/tcp/task.rs:146-156 | everything available is handed over and nothing is left |
| Tasks.ConnectionTask.OnInbound | magnum-tcp/src/tcp/task.rs:52-72 | process, forward, flush, in this order: the reply goes first, everything received is handed over, then go exactly the next unsent bytes, offering the emptied ring, until as much is in flight as both windows allow or nothing is unsent |
| Tasks.ConnectionTask.OnAppSend | magnum-tcp/src/tcp/task.rs:98-101 | write the prefix that fits, then send on until the windows are full or nothing is unsent |
| Tasks.ConnectionTask.Serve | magnum-tcp/src/tcp/task.rs:48-115 | the arm that was woken, the close arm at most once |
| Tasks.ConnectionTask.Turn | magnum-tcp/src/tcp/task.rs:48-125 | one turn of the loop: the arm, the TIME_WAIT check, and the decision to stop; afterwards nothing more may be sent behind a segment or a write, nothing is left to hand over behind a segment, and TIME_WAIT is younger than 60 s |
| Tasks.FlushIsRun | magnum-tcp/src/tcp/task.rs:127-144 | the flush loop is a run of send events with the same state and segments |
| Tasks.ArmIsRun | magnum-tcp/src/tcp/task.rs:48-115 | every arm is a run of endpoint events with the same state, segments and data, that begins with the event of the arm at its clock reading |
| Tasks.TurnIsRun | magnum-tcp/src/tcp/task.rs:48-125 | so is an arm followed by the TIME_WAIT check |
| Tasks.TaskIsRun | magnum-tcp/src/tcp/task.rs:48-125 | any sequence of turns until the connection closes is a run that obeys `Proper`, with the same state, all segments transmitted and all bytes delivered, in order |
| Tasks.TaskTransmits | magnum-tcp/src/tcp/task.rs:48-144 | every data segment the loop ever transmits is a piece of what the application wrote, and at most one FIN goes out |
| Tasks.TurnIsReachable | magnum-tcp/src/tcp/task.rs:48-125 | a turn is a sequence of moves of the two-party system with the same segments and data; if they obey a rule, what was reachable under that rule stays so |
| Tasks.TurnRespectsWindow | magnum-tcp/src/tcp/task.rs:48-125 | a turn obeys the rule of the flow control theorem if at its start close, write and probe arms find what the rule asks |
| Tasks.HearerObeys | magnum-tcp/src/tcp/task.rs:48-125 | on the receiving side every turn obeys it once the peer was heard |
| Tasks.ReachedSafely | magnum-tcp/src/tcp/task.rs:48-125 | whatever is reached under that rule has discarded nothing early and overruns nothing |

## Left out

- Network.PrefixDelivery: fewer than 2^31 bytes are written each way; `SeqArith.SeqLtHorizon` shows where the comparison stops being faithful.
- FlowControl.NoPrematureDiscard: not stated for runs in which the sender closes with unsent bytes or writes after closing, where it is false (`Discards.FinWait1DiscardsIff`, `Failures.UnsentByteDiscarded`, `Failures.LateWriteDiscarded`); those steps stay in the state machine, and prefix delivery covers them.
- EndToEnd.EndToEndComplete: what counts is what the receive buffer was given; a data segment that arrives after a FIN, or together with a third duplicate acknowledgement, is not given to it.
- Overrun.ProbeOverrunsIff: about a probe that arrives before anything else happens.
- Completeness.CompleteIffOrdered: for one fixed cut into segments that fit the ring; with overlapping cuts a staged segment can be stuck (`Completeness.OverlapLosesProgress`) and only safety is claimed (`Reassembly.InsertSafe`).
- Checksums.Checksum: inputs above 131072 bytes, where the source's accumulator could overflow, are excluded.
- Liveness ("all data eventually arrive"): the code does not retransmit a FIN or a probe byte, so it does not hold.
- Segments of an earlier incarnation of the same connection: the network starts empty.
- tokio channels, `select!` fairness and tick intervals: any order of turns is allowed; a closed inbound channel just ends the sequence.
- `AsyncDispatch`, `Stack`, `Listener`, `arp.rs`: look-ups and copying; segments they drop are covered by the lossy network.
- `chaos.rs`: the network already allows everything it does.
- `generate_isn`: the initial sequence number is an arbitrary 32-bit word.
- `tun.rs`, `pcap.rs`, `main.rs`, the HTTP router and the command line: I/O and string handling.
- `TcpSegmentOwned` and borrowing: a segment is one value in the model.
- IPv4 and TCP options and reserved header bits: accepted and skipped by the parsers as in the source, never built.
