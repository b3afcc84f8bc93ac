# Verification of the MasterDNS tunnel core

A Dafny model of the parts of the tunnel whose correctness is not local: the ARQ stream protocol, the DNS
encoding a frame travels in, and the index structures that several fields must keep consistent.

- **Stream protocol.** `ArqWindow` holds the 16-bit window arithmetic, `ArqProtocol` the two endpoints and a network
  that loses, duplicates and reorders as one state machine, `ArqClose` the graceful close on top of it, `ArqProgress`
  the proof that no state is stuck, `ArqEndpoint` the same data plane as an object updated in place, `ArqRecovery` NACK
  selection and the priority resends, `ArqTerminal` the close and reset machine of one endpoint, whole call by whole
  call, `ArqOutcomes` and `ArqResets` what each call brings about and when a stream is reset, and `ArqSections` and
  `ArqCalls` the same machine lock section by lock section. Elsewhere each step is one lock-protected piece of code.
  Packets carry unbounded indices the code never sees. The only hypotheses on the network are two age bounds
  (`DataYoung`, `AckYoung`), and `AgeBoundsAreTight` shows that neither can be weakened. The upper side of the window
  is proved from the constructor and the configuration clamp.
- **DNS encoding.** `Base36`, `DnsName`, `DnsMessage`, `DomainTrie`, `TunnelQuestion` follow a frame from its bytes to
  a TXT question and back; `VpnFrame`, `TxtAnswer`, `TxtResponse` follow the answer. Names, messages and character
  strings are those of RFC 1035 (sections 2.3.4, 3.3.14, 4.1 and 4.1.4), the OPT record that of section 6.1 of
  RFC 6891.
- **Index structures.** `LevelQueue` and `TransmitPolicy`, `ExpiryHeap`, `FragmentStore`, `Balancer` and `DnsCache`
  are classes updated in place whose linked fields are proved to stand for one simple list, map or partition;
  `DnsCacheRuns` says what a shard of the cache keeps over runs of calls.

Buffers, loops and linked fields are methods proved against functions on values; what the source promises is proved
about those functions for every input, every run or every reachable state.

What the proofs found:

- A graceful close can lose the last chunk in two interleavings of lock-protected pieces: a close from outside while
  the io loop is inside Read, and a chunk and the CLOSE_READ arriving between an empty drain and the check of the
  close flag. Both are runs of the model. `HalfCloseIsCompleteIff` gives the exact condition at the half-close, for
  both together, and `LateTruncationIff` the states from which the first can still happen.
- The emit guard tests the awaited kind, which a guard of another kind overwrites before the first packet is marked
  sent: the same packet can then be originated twice. An acknowledgment that arrives before the mark has the same
  effect: it clears the awaited kind, is noted for a packet that is not sent, and lets the guard pass again. An emit
  that was let through before a reset is still carried out after it. `ArqSections` gives the exact conditions over
  every interleaving of lock sections and a run for each failure; with each call taken as one step none of this can
  happen, and `ArqCalls` shows that every such run is one of lock sections.
- A base-36 string whose block value exceeds its bytes is accepted and silently cut: `zz` decodes like `0f`.
- A message with an empty fragment is never returned by the reassembler.
- An allowed domain with a leading dot is stored under the path without it, so the tree answers for names the linear
  reading excludes, unless the domain is allowed without the dot too; then only a name with a dot inside a label, which
  the parser admits, shows the difference.
- The client trims the domain once more than the server does: `a..` is `a` on the wire and `a.` in the server's list.
- Several copies of a single-answer reply are not treated as a repetition: they are read as chunks and refused, or, in
  session 0 with packet type 1, which no server sends in a reply, taken for a frame that starts two octets later.
- A data packet more than 32768 behind is refused as outside the window and not acknowledged again.
- The hybrid score takes a mean round trip of exactly 999 milliseconds for an unknown one, which counts as 200, so a
  slower resolver can be preferred to a faster one with the same loss; `HybridFollowsLatencyIff` says exactly when.
- The reply builder counts two octets for every owner behind the first even when the pointer cannot reach it, so a
  question section that ends beyond 0x3FFF, which two questions the parser accepts can reach, does not fit the buffer.

## Model

| member | source | states |
|---|---|---|
| ArqWindow.WindowClampGivesSized | masterdns/internal/config/client.go:399 | for every configured window, the clamp to 1..8000 and the sizes NewARQ derives keep receive window + send limit + 1 at 22401 or less |
| ArqWindow.DerivedSizes | masterdns/internal/arq/arq.go:332-351 | for every configured window: the clamp keeps 1..8000 and falls back to the default below 1, the window is the setting but at least 300, the receive window twice it, and the send limit four fifths of it rounded down |
| ArqWindow.HalfRangeTestIsExact | masterdns/internal/arq/arq.go:1569-1580 | for packets at most 32768 behind and less than 32768 ahead of rcvNxt, the `diff >= 32768` comparison on uint16 holds exactly for those behind, and otherwise diff is the true distance |
| ArqWindow.StaleNumberAliasesExactly | masterdns/internal/arq/arq.go:1569-1589 | at any age an old number passes for one of the current window exactly in the last stretch of each cycle, the first of which starts 65536 minus the window behind |
| ArqWindow.NewestIsItself | masterdns/internal/arq/arq.go:1828-1845 | a number names the newest packet carrying it exactly when that packet is at most one cycle old |
| ArqProtocol.StepKeepsInv | masterdns/internal/arq/arq.go:1099-1182 | every lock-protected step, on either end or of the losing, duplicating, reordering network, keeps the invariant that ties the uint16 state to unbounded indices |
| ArqProtocol.DeliveredIsPrefix | masterdns/internal/arq/arq.go:1664-1674 | in every run the bytes taken by the receiver's write loop are a prefix of the bytes the sender read, each once and in order |
| ArqProtocol.WindowsStayBounded | masterdns/internal/arq/arq.go:567-608 | in every run the sender is at most 22401 packets ahead, every buffered number is inside the receive window, and the buffer holds at most window + 1 entries |
| ArqProtocol.DuplicateTestIsExact | masterdns/internal/arq/arq.go:1569-1580 | in every run, for every packet in the network at most 32768 behind, the duplicate test holds exactly for those the write loop already took, and otherwise diff is the true distance |
| ArqProtocol.AgeBoundsAreTight | masterdns/internal/arq/arq.go:1551-1613 | the two bounded-age hypotheses are the weakest: old data packets are taken for current ones exactly in the last stretch of each cycle of age, the first of which starts where the hypothesis ends, and an acknowledgment names a newer chunk exactly beyond its bound |
| ArqProtocol.VerdictIsRight | masterdns/internal/arq/arq.go:1574-1599 | for every packet young enough, what processReceivedData decides from the number is what the index says, each verdict if and only if: delivered, outside the window, full, already held, or to be stored under its own index; more than 32768 behind it is refused as outside the window |
| ArqProtocol.AckFreesItsChunk | masterdns/internal/arq/arq.go:1828-1845 | an acknowledgment young enough frees exactly the slot it names: every other chunk and the next number stay, nothing else of the system changes, and what was held there is the very chunk it acknowledges |
| ArqProtocol.DataTakesItsSlot | masterdns/internal/arq/arq.go:1574-1613 | a data packet young enough goes to its slot with the chunk its index stands for exactly when it is in the window, not held and there is room or it is the next one; it is acknowledged exactly when taken, held or stored; nothing else changes |
| ArqProtocol.LastAckAndAborts | masterdns/internal/arq/arq.go:960-1002 | the acknowledgment sent again once everything was taken names the last chunk written, only with an empty buffer; an aborted end holds nothing any more |
| ArqProtocol.DrainTakesRun | masterdns/internal/arq/arq.go:1664-1674 | the contiguous scan terminates across the wrap and takes exactly the chunks from the receive index on, leaving the rest where it was |
| ArqProtocol.DistinctSlots | masterdns/internal/arq/arq.go:680-689 | buffered numbers of an index range shorter than a cycle are as many as their indices |
| ArqProgress.NothingIsStuck | masterdns/internal/arq/arq.go:1099-1182 | progress: from every state of every unaborted run some continuation, with only deliveries the age hypotheses admit, brings everything read to the local writer and frees the whole send window, whatever was lost, repeated or reordered before |
| ArqClose.CloseReadMeansAcknowledged | masterdns/internal/arq/arq.go:1266-1336 | without an abort, when CLOSE_READ is originated every chunk but one read late was acknowledged, and every other chunk not yet written is held by the peer |
| ArqClose.HalfCloseIsCompleteIff | masterdns/internal/arq/arq.go:1678-1692 | without an abort, at every half-close after a CLOSE_READ the peer has written every byte the sender read if and only if the number it waits for is neither in its buffer nor that of a chunk read after the drain was found complete |
| ArqClose.UnseparatedHalfCloseIsComplete | masterdns/internal/arq/arq.go:1664-1692 | when the empty drain and the half-close are not separated, the half-close is complete if and only if the number waited for is not that of a chunk read late |
| ArqClose.FinalCloseIsCompleteIff | masterdns/internal/arq/arq.go:1010-1030 | without an abort, whenever the final close after the handshake finds the receive buffer empty, the peer has written every byte the sender read if and only if the number it waits for is not that of a chunk read late |
| ArqClose.LateTruncationIff | masterdns/internal/arq/arq.go:1125-1182 | from every reachable unaborted state in which the drain was found complete, some continuation half-closes without a chunk read late if and only if the io loop is inside Read or such a chunk is already missing at the peer |
| ArqClose.QuietDrainHasNoLateRead | masterdns/internal/arq/arq.go:1125-1182 | when the io loop is not inside Read whenever a drain is found complete, no chunk is ever read late |
| ArqClose.CloseDuringReadTruncates | masterdns/internal/arq/arq.go:1165-1182 | counterexample run: a stream closed from outside while its io loop is inside Read sends a chunk after CLOSE_READ, and the peer half-closes without it |
| ArqClose.ArrivalBetweenDrainAndCheckTruncates | masterdns/internal/arq/arq.go:1664-1692 | counterexample run: the last chunk and CLOSE_READ arrive between the empty drain and the check of the close flag, and the half-close happens with that chunk still buffered |
| ArqEndpoint.Endpoint.constructor | masterdns/internal/arq/arq.go:332-416 | a new endpoint has the derived window sizes, number zero on both sides and empty buffers |
| ArqEndpoint.Endpoint.AppendRead | masterdns/internal/arq/arq.go:1165-1182 | in place: the chunk gets the next number, and both change exactly as the protocol proof assumes |
| ArqEndpoint.Endpoint.ProcessReceivedData | masterdns/internal/arq/arq.go:1551-1613 | in place: the buffer changes and an acknowledgment goes out exactly as classified; a broken writer changes nothing and acknowledges nothing |
| ArqEndpoint.Endpoint.DrainContiguous | masterdns/internal/arq/arq.go:1664-1674 | in place: the loop takes exactly the contiguous run of the protocol's drain |
| ArqEndpoint.Endpoint.ReceiveAck | masterdns/internal/arq/arq.go:1828-1871 | in place: exactly the acknowledged chunk leaves the send buffer, and the waiting reader is signalled when there is room |
| ArqEndpoint.Endpoint.ContiguousReady | masterdns/internal/arq/arq.go:680-689 | the count the scan returns is the length of the run a drain would take; the scan terminates |
| ArqEndpoint.Endpoint.Coalesce | masterdns/internal/arq/arq.go:1694-1717 | the buffer handed to the local writer is the drained chunks in order |
| ArqEndpoint.ReadyRunIsDrained | masterdns/internal/arq/arq.go:680-689 | a run of n ready numbers is what draining takes, for every n |
| ArqRecovery.DataNacks | masterdns/internal/arq/arq.go:1919-1977 | NACK selection terminates across the wrap and returns at most the configured gap of distinct unbuffered numbers in [rcvNxt, sn); the lowest hole is first whenever there is one, and inside the gap none is missed; beyond it the first twentieth of the gap, rounded up, comes from the front, and the highest hole within the gap is among them, and nothing more |
| ArqRecovery.ScanHoles | masterdns/internal/arq/arq.go:1941-1962 | the upward scan finds the holes from the front, distinct, skips none, and stops only when full or done |
| ArqRecovery.HighestHole | masterdns/internal/arq/arq.go:1964-1975 | the downward scan finds the highest unbuffered number, or that there is none |
| ArqRecovery.PriorityKinds | masterdns/internal/arq/arq.go:2437-2506 | exactly min(max(1, windowSize/10), 64, jobs) resends are marked, and every marked job is at least as far behind sndNxt, modulo 2^16, as every unmarked one |
| ArqRecovery.BestJobs | masterdns/internal/arq/arq.go:2459-2499 | the streaming selection keeps the ranking of the jobs seen, and what it dropped is dominated by everything kept |
| ArqTerminal.TerminalSafety | masterdns/internal/arq/arq.go:1338-1416 | over every sequence of whole calls: acknowledged implies sent for CLOSE_READ, CLOSE_WRITE and RST, each is originated exactly when marked sent and at most once, and the owner's close callback fires at most once |
| ArqTerminal.FlagsNeverRevert | masterdns/internal/arq/arq.go:761-849 | over every sequence of whole calls, from any point: sent, received, acked and closed never revert, and nothing is originated once a reset was sent or received |
| ArqTerminal.DoGood | masterdns/internal/arq/arq.go:2809-2867 | each single call keeps the invariant and the monotone flags, whatever the state |
| ArqTerminal.SecondEmitAdmittedIff | masterdns/internal/arq/arq.go:1338-1416 | with one other guard and nothing else between two guards of the same kind, the second lets the packet through exactly when the other one is of another, unsent kind |
| ArqOutcomes.CallOutcome | masterdns/internal/arq/arq.go:1266-1416 | every whole call, read off the fields before it: which terminal packet it queues, whether it closes the stream, which flags it raises, what is awaited and until when, and what stays outstanding |
| ArqOutcomes.EmitIs | masterdns/internal/arq/arq.go:1338-1416 | an emit that nothing bars queues, marks and tracks its packet and closes nothing; a barred one only ends the drain phase |
| ArqOutcomes.DrainStarts | masterdns/internal/arq/arq.go:1266-1295 | the end of the input with chunks outstanding queues nothing and puts CLOSE_READ off, until exactly the drain timeout from then when no deadline was running |
| ArqOutcomes.DrainDelivers | masterdns/internal/arq/arq.go:1297-1336 | a completed drain, found by the last acknowledgment, the check or the tick, queues exactly the packet that waited, marks it sent and awaits it; no reset |
| ArqOutcomes.DrainHolds | masterdns/internal/arq/arq.go:1297-1336 | while something is outstanding and the deadline has not passed nothing is queued and the packet goes on waiting |
| ArqOutcomes.DrainExpires | masterdns/internal/arq/arq.go:1313-1336 | after the deadline exactly a reset is queued, and what was outstanding is dropped |
| ArqOutcomes.DataIsHeld | masterdns/internal/arq/arq.go:1551-1613 | an inbound packet is taken off the queue and held exactly when it is new, while the writer is intact |
| ArqOutcomes.DataIsRefused | masterdns/internal/arq/arq.go:1481-1568 | data that arrives at a closed or resetting stream changes nothing, and once CLOSE_WRITE is sent or acknowledged a processed packet leaves the queue and is not held |
| ArqOutcomes.RunIsTaken | masterdns/internal/arq/arq.go:1664-1674 | the write loop takes exactly the numbers of the run from the next one on, and moves on by its length |
| ArqOutcomes.PeerRstIs | masterdns/internal/arq/arq.go:1071-1084 | a reset of the peer stops reading and drops what is outstanding and tracked; what arrived stays |
| ArqOutcomes.AckIsNoted | masterdns/internal/arq/arq.go:795-805 | the acknowledgment of CLOSE_READ is noted with its time |
| ArqOutcomes.ForceEnds | masterdns/internal/arq/arq.go:2689-2801 | a stream that ends tells its owner, holds and awaits nothing any more, and its state says whether it was reset, closed after a handshake had begun, or merely closed |
| ArqResets.NoResetWithoutCause | masterdns/internal/arq/arq.go:2508-2610 | over every run: unless a close or failed read asks for it, a packet is given up on, a drain or an acknowledgment is overdue, a drain stalls or the stream is idle too long, this end never puts off, marks or queues a reset |
| ArqResets.CloseWriteIsNeverPutOff | masterdns/internal/arq/arq.go:1266-1295 | over every run a CLOSE_WRITE never waits for a drain |
| ArqResets.GivingUpResets | masterdns/internal/arq/arq.go:2180-2189 | giving up on a tracked packet or on a chunk, and a close or failed read that asks for it at once, queue exactly a reset and drop what was outstanding |
| ArqResets.TimersAct | masterdns/internal/arq/arq.go:2546-2610 | the tick outside a drain: an overdue acknowledgment resets the stream, or closes it when a reset was awaited; an idle stream is reset when nothing is in flight and spared otherwise; before the deadlines nothing is reset and nothing closed |
| ArqResets.GraceCloses | masterdns/internal/arq/arq.go:2571-2594 | a client whose CLOSE_READ is acknowledged and whose inbound side is empty queues CLOSE_WRITE if and only if the grace is over and the peer is done or the local writer gone |
| ArqResets.BrokenWriterCloses | masterdns/internal/arq/arq.go:1762-1792 | a broken local writer queues CLOSE_WRITE, at the failure or for data that still arrives, unless it was sent before |
| ArqResets.ClientClosesBothWays | masterdns/internal/arq/arq.go:851-871 | the acknowledged CLOSE_WRITE of a client is followed by its CLOSE_READ, at once exactly when nothing is outstanding |
| ArqResets.PeerResetCloses | masterdns/internal/arq/arq.go:1032-1085 | a reset of the peer drops what is outstanding and queues nothing; the stream closes when the write loop next finds nothing it could still write |
| ArqResets.PeerCloseReadClosesIff | masterdns/internal/arq/arq.go:775-793 | with the writer intact, the peer's CLOSE_READ closes the stream if and only if everything inbound was written, our own CLOSE_READ is settled and no CLOSE_WRITE is open |
| ArqResets.CloseReadAckClosesIff | masterdns/internal/arq/arq.go:2203-2248 | with the writer intact, the acknowledgment of our CLOSE_READ closes the stream if and only if the peer's arrived, everything inbound was written and no CLOSE_WRITE is open |
| ArqResets.DoneWritingClosesIff | masterdns/internal/arq/arq.go:1010-1030 | with the writer intact and no reset, the end of a write closes the stream under exactly these conditions |
| ArqResets.ClosedQueuesNothing | masterdns/internal/arq/arq.go:1338-1352 | a closed or virtual stream queues no terminal packet, whatever is called |
| ArqResets.EOFKeepsInbound | masterdns/internal/arq/arq.go:902-908 | the end of the input leaves the inbound side alone, and a client notes the moment of the first one |
| ArqResets.GracefulClose | masterdns/internal/arq/arq.go:1010-1030 | from a new stream: end of input, then the acknowledgment of CLOSE_READ and the peer's CLOSE_READ in either order and at any times, close the stream exactly then, with one CLOSE_READ queued |
| ArqSections.OriginatedOnceIff | masterdns/internal/arq/arq.go:1338-1416 | over every run of single lock sections, interleaved at will: each terminal packet is originated at most once unless its guard let it through while an earlier emit of it was not yet marked; when nothing is tracked and nothing pending, if and only if (with control tracking the other half is SecondOriginationIff) |
| ArqSections.AdmissionsCount | masterdns/internal/arq/arq.go:1353-1395 | over every run of lock sections: a packet was let through twice if and only if its guard let it through while it was pending |
| ArqSections.SecondOriginationIff | masterdns/internal/arq/arq.go:1338-1416 | over every run, with or without control tracking: after a guard let a packet through, what is pending can originate it a second time if and only if an earlier emit of it was not yet marked |
| ArqSections.ReadmittedOnlyAfter | masterdns/internal/arq/arq.go:1353-1395 | over every run: between two guards that let the same packet through, a guard of another packet went through or an acknowledgment of this one cleared the awaited place |
| ArqSections.AcknowledgedIsSentIff | masterdns/internal/arq/arq.go:2228-2248 | over every run of lock sections: acknowledged implies sent at every point if and only if no acknowledgment is noted while its packet is not yet marked |
| ArqSections.EarlyAcknowledgmentIff | masterdns/internal/arq/arq.go:2252-2319 | over every run: an acknowledgment is taken for an unmarked packet only while its emit is pending and awaited, and what follows can note it before the mark if and only if the packet was unmarked when it was taken |
| ArqSections.OriginatedAfterResetIff | masterdns/internal/arq/arq.go:1338-1416 | over every run: once a reset was sent or received, some packet can still be originated if and only if an emit that was let through is still to be marked or sent |
| ArqSections.SectionSafety | masterdns/internal/arq/arq.go:2689-2801 | over every run of lock sections the close callback fires at most once, and no sent, received, acked or closed flag reverts |
| ArqSections.EarlyAckRepeats | masterdns/internal/arq/arq.go:2250-2319 | counterexample run: a CLOSE_READ_ACK taken between the guard and the mark of CLOSE_READ leaves it acknowledged and not sent, lets it through again, and it is originated twice |
| ArqSections.InterleavedEmitsRepeat | masterdns/internal/arq/arq.go:1338-1416 | counterexample run: with three emits interleaved between their lock sections CLOSE_READ is originated twice |
| ArqSections.EmitOutlivesReset | masterdns/internal/arq/arq.go:1338-1416 | counterexample run: a reset received between the guard and the mark of CLOSE_READ, which is originated after it |
| ArqSections.FinalizersAreSilent | masterdns/internal/arq/arq.go:1010-1061 | the final close, tried or done, is one of the sections between which emits interleave: it marks, acknowledges and queues nothing and shuts the stream at most once |
| ArqSections.PeerCloseReadIsSilent | masterdns/internal/arq/arq.go:775-795 | so is the section of a received CLOSE_READ |
| ArqSections.PeerCloseWriteIsSilent | masterdns/internal/arq/arq.go:819-836 | so is the section of a received CLOSE_WRITE |
| ArqSections.PeerRstIsSilent | masterdns/internal/arq/arq.go:1071-1084 | so is the section of a received RST |
| ArqSections.UndeferringIsSilent | masterdns/internal/arq/arq.go:1297-1336 | so are the sections that end a drain, turn the state to reset, or lift the virtual flag before an emit |
| ArqSections.DeferringIsSilent | masterdns/internal/arq/arq.go:1266-1294 | so is the section that defers a close until the drain |
| ArqSections.WriterSectionsAreSilent | masterdns/internal/arq/arq.go:1664-1692 | so are the sections of the write loop and of the end of local input |
| ArqSections.DataSectionsAreSilent | masterdns/internal/arq/arq.go:1551-1613 | so are the sections of the data plane |
| ArqSections.ControlSectionsAreSilent | masterdns/internal/arq/arq.go:2115-2178 | so are the sections of other control packets and of the retransmit tick |
| ArqSections.EmitIsAPath | masterdns/internal/arq/arq.go:1338-1416 | an emit that nothing interrupts is a path of these lock sections |
| ArqCalls.DoIsAPath | masterdns/internal/arq/arq.go:2250-2319 | every whole call, emitting, acknowledging or timed, is a path of these lock sections, whatever else is pending |
| ArqCalls.WholeCallsAreARun | masterdns/internal/arq/arq.go:2809-2867 | every run of whole calls is a run of lock sections that ends in the same state with nothing pending |
| LevelQueue.InsertedIsOrdered | masterdns/internal/mlq/mlq.go:54-77 | inserting behind every entry of the same or a better priority keeps the list ordered by priority, then by insertion |
| LevelQueue.InsertedAddsOne | masterdns/internal/mlq/mlq.go:54-77 | insertion adds exactly the new entry and loses none |
| LevelQueue.LevelsAreOrdered | masterdns/internal/mlq/mlq.go:54-77 | the list the six levels stand for is ordered by priority |
| LevelQueue.KeysAreDistinct | masterdns/internal/mlq/mlq.go:54-77 | no key is queued twice while census and list agree |
| LevelQueue.MultiLevelQueue.Push | masterdns/internal/mlq/mlq.go:54-77 | an item is queued at its place in the ordered list unless its key is queued; mask, census and size keep agreeing with the levels |
| LevelQueue.MultiLevelQueue.Pop | masterdns/internal/mlq/mlq.go:109-131 | takes the minimum: the head of the ordered list, the rest unchanged |
| LevelQueue.MultiLevelQueue.Peek | masterdns/internal/mlq/mlq.go:85-107 | shows the head of the ordered list |
| LevelQueue.MultiLevelQueue.RemoveByKey | masterdns/internal/mlq/mlq.go:149-172 | takes the one entry with the key, wherever it is, and keeps the rest in order |
| LevelQueue.MultiLevelQueue.PopIf | masterdns/internal/mlq/mlq.go:224-255 | takes the first entry of one level if it satisfies the predicate, otherwise changes nothing |
| LevelQueue.MultiLevelQueue.PopAnyIf | masterdns/internal/mlq/mlq.go:257-293 | takes the first match at or below the priority bound and keeps the rest in order; finds nothing only when nothing matches |
| LevelQueue.MultiLevelQueue.Get | masterdns/internal/mlq/mlq.go:133-147 | finds an item exactly when its key is queued |
| LevelQueue.MultiLevelQueue.Size | masterdns/internal/mlq/mlq.go:184-195 | census size, counter and list length are the same number |
| LevelQueue.MultiLevelQueue.HighestPriority | masterdns/internal/mlq/mlq.go:215-222 | the priority of the head, or -1 for an empty queue |
| LevelQueue.MultiLevelQueue.Clear | masterdns/internal/mlq/mlq.go:197-213 | leaves the empty list and everything agreeing with it |
| TransmitPolicy.DataKeysAreExact | masterdns/internal/enums/packet_identity.go:13-91 | the key of a DATA or RESEND packet is shared by no packet of another type, sequence or fragment |
| TransmitPolicy.KeysAgreeIff | masterdns/internal/enums/packet_identity.go:13-91 | two packets share a key if and only if they agree in stream and type, in the number unless the type alone is the identity, and in the fragment unless the number is |
| TransmitPolicy.NacksAreApart | masterdns/internal/enums/packet_identity.go:13-91 | two negative acknowledgments share a key exactly when number and fragment agree |
| TransmitPolicy.KeyedByNumber | masterdns/internal/enums/packet_identity.go:31-75 | which packet types are told apart by their number only, and which by nothing |
| TransmitPolicy.PackableTypes | masterdns/internal/vpnproto/packing.go:22-60 | which packet types can be packed together: only those without payload |
| TransmitPolicy.Stream.PushTXPacket | masterdns/internal/client/stream_client.go:186-258 | a packet is refused exactly when it is a ping on a congested queue, its key is queued, or it is DATA with its RESEND queued; a RESEND replaces the DATA; the two are never queued together and the control count stays exact |
| TransmitPolicy.Stream.PopNextTXPacket | masterdns/internal/client/stream_client.go:260-284 | hands out the head of the queue and keeps the control count exact |
| TransmitPolicy.Stream.RemoveQueuedData | masterdns/internal/client/stream_client.go:291-312 | removes both forms of the acknowledged chunk and nothing else |
| TransmitPolicy.Stream.RemoveQueuedDataNack | masterdns/internal/client/stream_client.go:314-333 | removes the queued NACK of that number and nothing else |
| ExpiryHeap.RootIsEarliest | masterdns/internal/client/client.go:162-187 | the root of the heap expires no later than any entry |
| ExpiryHeap.HeapPush | masterdns/internal/client/client.go:162-187 | pushing keeps the heap order and adds exactly the entry |
| ExpiryHeap.HeapPop | masterdns/internal/client/client.go:162-187 | popping returns the earliest entry and keeps the rest in heap order |
| ExpiryHeap.HeapInit | masterdns/internal/client/client_utils.go:404-419 | rebuilding puts the same entries in heap order |
| ExpiryHeap.RecentlyClosed.Prune | masterdns/internal/client/client_utils.go:384-402 | after a prune at `now` the map holds exactly the entries with now < expiry, and the heap has at most max(n + n/2, n + 4) entries |
| ExpiryHeap.RecentlyClosed.Compact | masterdns/internal/client/client_utils.go:404-419 | stale heap entries are dropped once they pass the threshold; the map is untouched |
| ExpiryHeap.RecentlyClosed.Evict | masterdns/internal/client/client_utils.go:421-430 | eviction shrinks the map to the capacity and never drops an entry that expires later than one it keeps |
| ExpiryHeap.RecentlyClosed.Remember | masterdns/internal/client/client_utils.go:319-340 | at most 2000 entries survive an insert, out of the unexpired ones and the new one |
| ExpiryHeap.RecentlyClosed.IsRecentlyClosed | masterdns/internal/client/client_utils.go:342-361 | answers whether the stream was closed and has not expired |
| FragmentStore.Store.Collect | masterdns/internal/fragmentstore/store.go:39-117 | in place: the store, its completed table and the answer change as specified, payloads joined in fragment order |
| FragmentStore.Store.Purge | masterdns/internal/fragmentstore/store.go:119-126 | in place: drops the messages past retention and the expired completions, everything when retention is not positive |
| FragmentStore.PurgesEverySecond | masterdns/internal/fragmentstore/store.go:45-48 | before a message is looked at, exactly what is past its time is dropped, at most once a second |
| FragmentStore.PurgeMoment | masterdns/internal/fragmentstore/store.go:45-48 | the moment of the last purge moves exactly when a purge was due and the fragment can belong to its message |
| FragmentStore.WholePayloadIsReturned | masterdns/internal/fragmentstore/store.go:39-60 | a payload sent whole is returned as it is unless it was completed within the retention, when it is a duplicate; it is noted as completed until the retention is over |
| FragmentStore.WholePayloadOnce | masterdns/internal/fragmentstore/store.go:39-60 | a second whole payload under the same key is a duplicate exactly within the retention of the first |
| FragmentStore.CompletionIsRemembered | masterdns/internal/fragmentstore/store.go:107-117 | a message put together is remembered for exactly the retention, not at all without one, and its fragments are gone |
| FragmentStore.StrayFragmentIsDropped | masterdns/internal/fragmentstore/store.go:62-64 | a fragment number that cannot belong to its message changes nothing |
| FragmentStore.FragmentPayload | masterdns/internal/client/client_utils.go:42-55 | the fragments are the payload in order, none longer than the MTU |
| FragmentStore.ReassemblyIsExactlyOnce | masterdns/internal/fragmentstore/store.go:39-117 | 2 to 255 non-empty fragments, in any order, any number of times, among anything else, inside the retention time: the call with the last missing one returns the whole payload, later ones report completion, earlier ones wait |
| FragmentStore.EmptyFragmentBlocks | masterdns/internal/fragmentstore/store.go:86-90 | a message with an empty fragment is never returned, whatever arrives |
| FragmentStore.ReturnedIffNoneEmpty | masterdns/internal/fragmentstore/store.go:83-110 | when its last fragment arrives a message is returned if and only if none of its fragments is empty |
| Base36.LengthsAreInverse | masterdns/internal/basecodec/lowerbase36.go:26-38 | encoded and decoded length functions are inverse, and only produced lengths decode |
| Base36.BlockFits | masterdns/internal/basecodec/lowerbase36.go:26-29 | 256^b <= 36^c for every block size, and every block value fits 64 bits |
| Base36.DecodeEncode | masterdns/internal/basecodec/lowerbase36.go:92-122 | decoding an encoding returns the data, for every byte string |
| Base36.DecodeIgnoresCase | masterdns/internal/basecodec/lowerbase36.go:168-180 | decoding does not depend on the case of the letters |
| Base36.EncodeDecodeIff | masterdns/internal/basecodec/lowerbase36.go:92-134 | re-encoding a decoded string gives it back in lower case if and only if every block's value fits its bytes; other strings are silently cut |
| Base36.SilentlyCut | masterdns/internal/basecodec/lowerbase36.go:92-134 | such a string: zz decodes to one octet that encodes to 0f |
| Base36.EncodeTo | masterdns/internal/basecodec/lowerbase36.go:40-70 | in place: fills exactly the encoded length of the destination and touches nothing behind it |
| Base36.DecodeBytes | masterdns/internal/basecodec/lowerbase36.go:92-122 | the decoder writes every output byte inside its buffer and returns the decoding, or nothing for a bad length or digit |
| Base36.ReadBlock | masterdns/internal/basecodec/lowerbase36.go:124-134 | the accumulator never leaves a 64-bit word; a bad digit is refused wherever it is |
| Base36.DecodeMap | masterdns/internal/basecodec/lowerbase36.go:168-180 | the table holds the digit value of every byte, upper case included |
| DnsName.ParseName | masterdns/internal/dnsparser/parser.go:249-322 | terminates on every byte string by jumps and bytes left; returns the labels' text in lower case and the end that skipping finds |
| DnsName.SkipName | masterdns/internal/dnsparser/response.go:356-381 | terminates and returns the end of the name in place |
| DnsName.ReservedIsRefused | masterdns/internal/dnsparser/parser.go:277-298 | a first octet of 64 to 191 is neither a length nor a pointer: parser and skipper refuse it |
| DnsName.ParsedIsSkippable | masterdns/internal/dnsparser/response.go:356-381 | whatever the parser accepts, at any jump count, the skipper accepts, ending inside the message |
| DnsName.MoreJumps | masterdns/internal/dnsparser/parser.go:277-292 | allowing more jumps never changes a name that was accepted |
| DnsName.WireIsRead | masterdns/internal/dnsparser/parser.go:249-322 | a name of labels of 1..63 octets is read back from any place in any message |
| DnsName.PlainIsWire | masterdns/internal/dnsparser/parser.go:249-322 | a name read without following a pointer is the wire form of its labels |
| DnsName.EncodeStrict | masterdns/internal/dnsparser/transport.go:746-774 | in place: the wire form of the trimmed name, or nothing when a label or the name is too long or a label empty |
| DnsName.EncodedIsRead | masterdns/internal/dnsparser/transport.go:746-774 | every name encoded takes 1..255 octets and is parsed back to its lower-case text wherever it stands |
| DnsName.EncodedIff | masterdns/internal/dnsparser/transport.go:746-774 | a name can be written if and only if nothing is left of it once trimmed, or at most 253 octets in labels of 1 to 63 |
| DnsName.TrimmedIs | masterdns/internal/dnsparser/transport.go:747-750 | trimming takes exactly the six ASCII blanks at both ends |
| DnsName.LowerLabel | masterdns/internal/dnsparser/parser.go:324-347 | copies a label in ASCII lower case, byte for byte |
| DnsMessage.ParseQuestions | masterdns/internal/dnsparser/parser.go:179-205 | the loop reads exactly the announced questions one behind the other, or fails |
| DnsMessage.ParseRecords | masterdns/internal/dnsparser/parser.go:207-247 | the loop reads exactly the announced records, each inside the message, or fails |
| DnsMessage.RecordIsRead | masterdns/internal/dnsparser/parser.go:207-247 | a record written behind any name anywhere in a message is read back: name, type, class, time to live, data and end |
| DnsMessage.ParsedCounts | masterdns/internal/dnsparser/parser.go:119-157 | what the parser accepts has as many questions, answers, authorities and additional records as its header announces |
| DnsMessage.LightParse | masterdns/internal/dnsparser/parser.go:98-117 | the light parser reads exactly the header and the questions of every message, and stops behind them |
| DnsMessage.SkipsIff | masterdns/internal/dnsparser/response.go:282-295 | skipping passes every question if and only if that many stand one after the other inside the message |
| DnsMessage.QuestionsAreSkipped | masterdns/internal/dnsparser/response.go:282-295 | questions that parse are skipped to the same end |
| DnsMessage.OptRangeInside | masterdns/internal/dnsparser/response.go:228-280 | the range found is a whole OPT record inside the message |
| DnsMessage.ResponseFlagsAre | masterdns/internal/dnsparser/response.go:168-192 | the reply's flags are a response with recursion available, with the request's opcode, RD and CD and the given code, and never claim authority or truncation |
| DnsMessage.BuildersAgree | masterdns/internal/dnsparser/response.go:67-133 | for every request the light parser accepts, the direct builder and the builder from the parsed packet write identical bytes |
| DnsMessage.ReplyIsRead | masterdns/internal/dnsparser/response.go:67-133 | for every request accepted: the reply, read by the parser, has the request's identity and question count, no answers and no authorities, the requested code, one additional record exactly when the request had an OPT record, the request's questions, and that record's octets last |
| DnsMessage.UnskippableReply | masterdns/internal/dnsparser/response.go:67-102 | when the questions cannot be skipped the reply has none, and is the header and the OPT record only |
| DnsMessage.RepliesIff | masterdns/internal/dnsparser/response.go:142-166 | a reply is built if and only if the request is as long as a header, is a query and asks something |
| DnsMessage.FirstOptIs | masterdns/internal/dnsparser/response.go:228-280 | the record found is the first OPT record of the additional section, its octets complete, and no earlier one is of that type |
| DnsMessage.BuildResponse | masterdns/internal/dnsparser/response.go:67-102 | in place: the reply is filled octet for octet as specified, or the specified error is returned |
| DnsMessage.BuildResponseLite | masterdns/internal/dnsparser/response.go:104-133 | in place: the same reply from an already parsed request |
| DnsMessage.FindOptRange | masterdns/internal/dnsparser/response.go:228-251 | the walk over answers and authorities to the first additional OPT record |
| DnsMessage.HeaderIsRead | masterdns/internal/dnsparser/parser.go:159-177 | a written header is read back field by field |
| DomainTrie.Build | masterdns/internal/domainmatcher/matcher.go:170-200 | in memory: every node carries the last domain stored under the labels that lead to it, and nothing else |
| DomainTrie.FindAllowed | masterdns/internal/domainmatcher/matcher.go:213-252 | the walk over the nodes finds the deepest stored domain on the name's path and the labels before it |
| DomainTrie.FindIsLinear | masterdns/internal/domainmatcher/matcher.go:213-252 | without leading dots the tree returns the longest allowed domain that is the name or a dot-aligned suffix of it, and no match exactly when there is none |
| DomainTrie.PrefixIffAligned | masterdns/internal/domainmatcher/matcher.go:170-200 | a domain's label path starts the name's path exactly when the domain closes the name at a dot |
| DomainTrie.LeadingDotIsLost | masterdns/internal/domainmatcher/matcher.go:170-200 | such a domain: it has the path of the rest, and a tree that holds only it answers for names it does not close |
| DomainTrie.AgreesIffProper | masterdns/internal/domainmatcher/matcher.go:170-200 | for every list of domains the configuration can hold, the tree answers every text as the linear reading does, match and longest domain, if and only if no domain has a leading dot |
| DomainTrie.AgreesOnLabelsIff | masterdns/internal/domainmatcher/matcher.go:213-252 | for names of labels without dots in them, the tree answers every name as the linear reading does if and only if every domain that is such a name behind a dot gave its place in the tree to that name |
| DomainTrie.HiddenIffAllowed | masterdns/internal/domainmatcher/matcher.go:160-166 | with longer domains sorted first, that is so exactly when every such domain is also allowed without its dot |
| DomainTrie.DotInsideLabel | masterdns/internal/domainmatcher/matcher.go:213-252 | the parser takes a dot inside a label, and then the tree misses a domain that the same domain without its dot hides |
| DomainTrie.FindIsLinearOn | masterdns/internal/domainmatcher/matcher.go:213-252 | the linear reading for one name, when no leading dot plays a part in it |
| DomainTrie.ProcessIff | masterdns/internal/domainmatcher/matcher.go:70-135 | a question is processed exactly when it is TXT below an allowed domain with enough label text, and then under the longest such domain |
| DomainTrie.RefusedIff | masterdns/internal/domainmatcher/matcher.go:70-135 | every other decision, each if and only if: no name, no allowed domain, another type than TXT, nothing in front of the longest allowed domain, or less than the minimum, which is three when none is given |
| DomainTrie.Match | masterdns/internal/domainmatcher/matcher.go:70-135 | the decision on the tree in memory is the specified one, branch by branch |
| DomainTrie.StripLabelDots | masterdns/internal/domainmatcher/matcher.go:254-267 | removes the dots and nothing else |
| TunnelQuestion.BuiltKeepsLimits | masterdns/internal/dnsparser/transport.go:88-143 | every question built has labels of 1..63 octets and a wire name of at most 255 |
| TunnelQuestion.PacketIsRead | masterdns/internal/dnsparser/parser.go:85-117 | the request parser accepts every question built and reads its header, name, type and class |
| TunnelQuestion.PacketOpt | masterdns/internal/dnsparser/transport.go:131-140 | the OPT record written is the one the reply builders find |
| TunnelQuestion.QuestionOctets | masterdns/internal/dnsparser/transport.go:158-192 | every question built has its identity, recursion desired and nothing else, one question, and with a UDP size one OPT record that the parser reads back with that size |
| TunnelQuestion.BuiltIff | masterdns/internal/dnsparser/transport.go:88-143 | a question is built if and only if the domain can be written and the frame's labels with the domain behind them have at most 253 octets |
| TunnelQuestion.FramelessIsMissing | masterdns/internal/dnsparser/transport.go:88-143 | a question built without a frame asks for the domain itself, and the server finds nothing in front of it |
| TunnelQuestion.RoundTripIff | masterdns/internal/dnsparser/transport.go:88-143 | the server recovers exactly the client's frame and domain if and only if no longer allowed domain also closes the name and the frame reaches the matcher's minimum |
| TunnelQuestion.RoundTrip | masterdns/internal/dnsparser/transport.go:88-143 | it is enough that no allowed domain is a strict subdomain of the one used |
| TunnelQuestion.SameDomainIff | masterdns/internal/dnsparser/transport.go:145-156 | client and server name the same domain exactly when the normalised form ends neither in a dot nor in a space |
| TunnelQuestion.TwoDotsDiffer | masterdns/internal/dnsparser/transport.go:145-156 | such a domain: a.. is listed as a. and sent as a |
| TunnelQuestion.FrameIsDelivered | masterdns/internal/dnsparser/transport.go:79-143 | from the bytes of a frame through base 36, labels, message, parser and tree back to the same bytes |
| TunnelQuestion.ExchangeCompletes | masterdns/internal/dnsparser/transport.go:256-287 | the reply a server builds to a tunnel question under the name it was asked gives the client the server's frame back, raw or base64, in one answer or several |
| TunnelQuestion.BuildTunnelQuestion | masterdns/internal/dnsparser/transport.go:88-143 | in place: the packet is filled to its last octet as specified, or nothing is built |
| VpnFrame.PayloadIsTheRest | masterdns/internal/vpnproto/parser.go:111-183 | header fields and header length depend on the header octets alone, and the payload is the rest |
| VpnFrame.ParseBuild | masterdns/internal/vpnproto/builder.go:24-75 | a frame built from fields that fit its packet type parses back to those fields and the payload |
| VpnFrame.ParsesIff | masterdns/internal/vpnproto/builder.go:24-75 | parsing takes exactly the frames that can be built, and gives what they were built from: a wrong check octet, an unknown type and a short header are refused |
| TxtAnswer.ExtractStrings | masterdns/internal/dnsparser/transport.go:612-655 | whatever is written as length-prefixed character strings is extracted again |
| TxtAnswer.ChunksAre | masterdns/internal/dnsparser/transport.go:479-555 | every chunk is its number and its part of the payload, the first also total and header; parts make up the payload and each chunk fits one answer |
| TxtAnswer.TooLargeIff | masterdns/internal/dnsparser/transport.go:502-510 | cutting is refused exactly when the payload needs more than 255 chunks |
| TxtAnswer.TotalIsLeast | masterdns/internal/dnsparser/transport.go:495-510 | the number of chunks is the least that carries the header, the payload and every chunk's number |
| TxtAnswer.UncutIsOneAnswer | masterdns/internal/dnsparser/transport.go:479-493 | an empty frame is one empty string, and a frame that fits one answer, or is no frame at all, goes out whole in one |
| TxtAnswer.AssembleCut | masterdns/internal/dnsparser/transport.go:657-744 | a frame of several chunks is put together again under any permutation and repetition of its answers |
| TxtAnswer.AssembledIffAll | masterdns/internal/dnsparser/transport.go:657-744 | of any number of answers but one, with any repetition and in any order, the frame is assembled if and only if no chunk is missing; otherwise nothing is |
| TxtAnswer.AssembleSingle | masterdns/internal/dnsparser/transport.go:657-668 | a frame that fits one answer is parsed as it was |
| TxtAnswer.CopiesOfSingle | masterdns/internal/dnsparser/transport.go:657-721 | for every frame that fits one answer and every number of copies of that answer, the frame is put together again if and only if there is exactly one copy; several copies give the frame read from the third octet on when session and packet type are 0 and 1, and otherwise nothing |
| TxtAnswer.MisreadCopies | masterdns/internal/dnsparser/transport.go:657-721 | such a frame: with two copies a packet of type 1 in session 0 is taken for one of type 7 in session 5 |
| TxtAnswer.BuildAnswerChunks | masterdns/internal/dnsparser/transport.go:479-555 | the cutting loops produce the specified answers, or the error |
| TxtAnswer.LengthPrefixed | masterdns/internal/dnsparser/transport.go:565-583 | in place: the buffer allocated is filled exactly |
| TxtAnswer.ExtractTxtBytes | masterdns/internal/dnsparser/transport.go:612-655 | the second pass fills exactly what the first one counted, and the shortcut agrees with it |
| TxtAnswer.AssembleResponse | masterdns/internal/dnsparser/transport.go:657-744 | the receiving loop and its final checks compute the specified frame or error |
| TxtResponse.RoomIff | masterdns/internal/dnsparser/transport.go:212-254 | the room allocated for the answers is exact if and only if at most one answer is written, the pointer reaches the first owner, or the owner takes two octets |
| TxtResponse.PointerOutOfReach | masterdns/internal/dnsparser/transport.go:212-254 | such requests, which the request parser accepts, for every first name: a second question of 260 labels takes the end beyond 0x3FFF, and the reply with two answers needs as many octets more than allocated as the owner has beyond two |
| TxtResponse.ReplyIsParsed | masterdns/internal/dnsparser/transport.go:194-254 | the client's parser reads the reply back: identity, questions, one TXT answer per payload under the owner name, and an OPT record exactly when the request had one |
| TxtResponse.QuestionlessReply | masterdns/internal/dnsparser/transport.go:194-254 | a request without questions, or with questions that do not stand inside it, gets a reply without a question section: the header says so and the answers begin right behind it |
| TxtResponse.OthersArePassedOver | masterdns/internal/dnsparser/transport.go:593-610 | answers of another type and text without octets are passed over wherever they stand, every other text is taken in its place |
| TxtResponse.AnyOrder | masterdns/internal/dnsparser/transport.go:593-610 | from parsed answers in any order and number of copies to the frame with its header and whole payload |
| TxtResponse.FrameIsReceived | masterdns/internal/dnsparser/transport.go:256-287 | cut, packed into the reply to a plain request, parsed and put together, the frame comes back |
| TxtResponse.BuildTxtResponse | masterdns/internal/dnsparser/transport.go:194-254 | in place: the reply is filled exactly to its end as specified |
| Balancer.PartitionCounts | masterdns/internal/client/balancer.go:185-232 | active and inactive lists together are as many as the connections |
| Balancer.ActiveKeysDiffer | masterdns/internal/client/balancer.go:261-290 | two active connections never share a key, even when keys repeat in the configuration |
| Balancer.RingIsDistinct | masterdns/internal/client/balancer.go:1640-1648 | up to a whole turn of the ring no position comes twice |
| Balancer.RingGoesOn | masterdns/internal/client/balancer.go:1640-1648 | a later call goes on where an earlier one stopped, while the 64-bit counter does not wrap |
| Balancer.LossOrder | masterdns/internal/client/balancer.go:2033-2045 | the loss score orders connections by packets lost of 1000, fewer than five packets counting as 200, if and only if |
| Balancer.NeverLossier | masterdns/internal/client/balancer.go:2033-2045 | a connection that goes first never loses a thousandth more than one that goes after it |
| Balancer.LatencyOrder | masterdns/internal/client/balancer.go:2047-2056 | the latency score orders connections by the mean round trip, fewer than five round trips counting as 999000 microseconds, if and only if |
| Balancer.HybridOrder | masterdns/internal/client/balancer.go:2058-2076 | the hybrid score orders measured connections by eight times the loss plus the milliseconds up to 1000, if and only if |
| Balancer.HybridOfUnknown | masterdns/internal/client/balancer.go:2058-2076 | an unknown loss counts as 200 of 1000 and an unknown latency as 200 milliseconds |
| Balancer.HybridFollowsLatencyIff | masterdns/internal/client/balancer.go:2064-2068 | with the same loss the hybrid score follows the latency if and only if the slower mean is not exactly 999 milliseconds or the faster is at most 200 |
| Balancer.SlowerRanksFirst | masterdns/internal/client/balancer.go:2064-2068 | an input where the slower of two connections is preferred |
| Balancer.HybridFollowsLoss | masterdns/internal/client/balancer.go:2058-2062 | with the same latency the hybrid score follows the loss |
| Balancer.Balancer.PickedIsBest | masterdns/internal/client/balancer.go:1668-1718 | in the statistics: when some active connection was measured, no connection left out of a selection is better than one taken, by loss, by latency or by both as the strategy says |
| Balancer.Balancer.JudgedIsSignal | masterdns/internal/client/balancer.go:1801-1845 | the score is used if and only if the strategy has one and some active connection has five packets, five round trips or either |
| Balancer.Balancer.PreferredIff | masterdns/internal/client/balancer.go:1080-1089 | a stream's preferred connection is found exactly while an active connection has its key |
| Balancer.Balancer.SelectAlternate | masterdns/internal/client/balancer.go:1091-1109 | in place: an active connection of another key whenever there is one, and of those none better |
| Balancer.Balancer.SelectInitial | masterdns/internal/client/balancer.go:1135-1171 | in place: by score, one of the ten that nothing left out is better than |
| Balancer.Balancer.SetConnections | masterdns/internal/client/balancer.go:185-232 | the connections are the named ones in order, all inactive and unmeasured; every key leads to the last of its name |
| Balancer.Balancer.SetConnectionValidity | masterdns/internal/client/balancer.go:261-290 | the connection changes sides and nothing else moves; the lists keep partitioning the connections; no stream goes on preferring one that was turned off |
| Balancer.Balancer.ApplyMTUProbeResult | masterdns/internal/client/balancer.go:310-336 | the connection takes the side the probe says and nothing else moves; the lists keep partitioning the connections; a failed probe clears the preferences for it even when it was off |
| Balancer.Balancer.SelectRoundRobin | masterdns/internal/client/balancer.go:1640-1648 | different active connections from the ring position of the counter on, in order |
| Balancer.Balancer.SelectLowestScore | masterdns/internal/client/balancer.go:1668-1707 | different active connections, none of those left out scoring less than one taken |
| Balancer.Balancer.GetUnique | masterdns/internal/client/balancer.go:1572-1599 | exactly min(max(required, 1), active) different active connections, by lowest score when the strategy has a signal, from the ring position on when it has none |
| Balancer.Balancer.BestExcluding | masterdns/internal/client/balancer.go:1609-1638 | an active connection of another key whenever there is one, and when some connection was measured none of those better in the statistics |
| Balancer.Balancer.SelectPreferred | masterdns/internal/client/balancer.go:1029-1078 | data keeps a valid preferred connection; a resend leaves it exactly when the streak reaches the threshold, the cooldown is over and there is another one, and starts a new streak there |
| Balancer.Balancer.SelectTargets | masterdns/internal/client/balancer.go:935-980 | exactly min(max(requested, 1), active) active connections with different keys for strategies 0 to 5, the sticky preferred one first; without a sticky stream nothing left out is better than what is taken |
| Balancer.LowestScored | masterdns/internal/client/balancer.go:1681-1706 | in place: the partial selection sort settles the lowest scores |
| Balancer.Shuffled | masterdns/internal/client/balancer.go:1660-1665 | in place: the partial shuffle picks different members whatever the draws |
| DnsCache.KeyIsInjective | masterdns/internal/dnscache/store.go:95-101 | different questions never share a cache key |
| DnsCache.PatchedFlagsAre | masterdns/internal/dnscache/store.go:120-125 | of the flags only RD and CD change, to the query's |
| DnsCache.PatchedAgain | masterdns/internal/dnscache/store.go:109-127 | patching an already patched response is patching the original for the second query |
| DnsCache.PatchedOctets | masterdns/internal/dnscache/store.go:109-127 | of a whole header the identity becomes the query's, RD and CD the query's, and every other octet and bit stays |
| DnsCache.LastSurvives | masterdns/internal/dnscache/store.go:330-342 | what was just used survives eviction |
| DnsCache.TrimDropsOldest | masterdns/internal/dnscache/store.go:330-342 | eviction drops from the least recently used end only |
| DnsCache.LookupIs | masterdns/internal/dnscache/store.go:129-185 | in the fields: a ready entry used less than the lifetime ago is a hit, one used longer ago is replaced by a pending one and dispatched, a pending one never expires and waits until its dispatch is the timeout ago |
| DnsCache.FetchIs | masterdns/internal/dnscache/store.go:187-217 | in the fields: a ready response is served, patched, within its lifetime, and its entry gone after it; what is pending is never served and never removed |
| DnsCache.StoreIs | masterdns/internal/dnscache/store.go:219-268 | in the fields: the entry is ready, used now, and holds the response with a zero identity and no other octet changed |
| DnsCache.LimitIs | masterdns/internal/dnscache/store.go:330-342 | all shards together hold no more than the configured number of records, or one each |
| DnsCacheRuns.StoredIsServed | masterdns/internal/dnscache/store.go:187-268 | after a response was stored, every fetch and lookup within the lifetime returns it, patched for the query, whatever other calls came between, while they are fewer than the shard has room for and none stores anew |
| DnsCacheRuns.UnusedExpires | masterdns/internal/dnscache/store.go:320-328 | an entry not used for the whole lifetime is not served, and is dispatched again |
| DnsCacheRuns.DispatchedOnce | masterdns/internal/dnscache/store.go:129-185 | a key looked up for the first time is dispatched once: every lookup until the timeout waits, nothing is served, and after the timeout it is dispatched again |
| DnsCacheRuns.TrimKeeps | masterdns/internal/dnscache/store.go:330-342 | an entry with fewer later uses than the limit survives trimming where it was |
| DnsCache.Store.LookupOrCreatePending | masterdns/internal/dnscache/store.go:129-185 | in place: refines one list in use order; hit, wait or dispatch as the entry's fields say, each exactly; index and order keep the same keys, the shard at most max(1, maxRecords/32), the pending total exact |
| DnsCache.Store.GetReady | masterdns/internal/dnscache/store.go:187-217 | a hit is what was last stored under that key, changed only in the ID and the RD and CD bits of the query |
| DnsCache.Store.SetReady | masterdns/internal/dnscache/store.go:219-268 | in place: the entry becomes ready and most recent, stored without an identity, and stops being counted as pending |
| DnsCache.Store.EvictIfNeeded | masterdns/internal/dnscache/store.go:330-342 | in place: what stays is the most recently used part of the list |
| DnsCache.Store.ClearPending | masterdns/internal/dnscache/store.go:300-318 | exactly the pending entries go, the ready ones keep their order, and the pending total is zero |
| DnsCache.Store.RemoveElement | masterdns/internal/dnscache/store.go:344-357 | in place: index, order and pending total lose exactly that entry |
| DnsCache.Store.HasPending | masterdns/internal/dnscache/store.go:293-298 | true exactly when some entry is pending |

## Left out

- Sockets, goroutines, timers, channels, logging, configuration files, SOCKS handshakes and the mobile front ends: I/O
  and plumbing; the network is a set of packets and time an integer that the caller passes.
- ArqProtocol.DeliveredIsPrefix: assumes that a data packet is processed less than 65536 - window after its index was
  passed and an acknowledgment at most one cycle after its chunk; the send limit bounds the number of outstanding
  packets and not their span, so without a bound on age the property does not hold.
- ArqProgress.NothingIsStuck: leaves out ends that were aborted, whose buffers are cleared; that the network does bring
  the packets is not assumed, only that it can.
- ArqOutcomes.CallOutcome: leaves the inbound buffer, the reported state and the activity times to the lemmas beside
  it; the timeouts themselves are parameters.
- ArqOutcomes.DrainDelivers: with an acknowledgment of data only for CLOSE_READ, the one graceful packet that is ever
  put off; `ArqResets.CloseWriteIsNeverPutOff` shows this for every run.
- ArqTerminal.TerminalSafety: takes each call as one step; what holds when the lock sections of different calls
  interleave is in `ArqSections`. The machine is modelled on values, one function a method, so updates in place are not
  shown.
- ArqTerminal.FlagsNeverRevert: takes each call as one step; between lock sections `ArqSections.SectionSafety` keeps the
  flags, and `ArqSections.OriginatedAfterResetIff` says when something is still originated after a reset.
- ArqTerminal.SecondEmitAdmittedIff: covers one guard in between; `ArqSections.ReadmittedOnlyAfter` covers all runs.
- ArqSections.OriginatedOnceIff: the sections that neither emit nor acknowledge are one relation, `Silent`, which the
  sections of the source are shown to satisfy; it allows more than they do.
- Retransmission timing, adaptive timeouts, gap recovery and the final-acknowledgment watchdog: floating-point or
  heuristic; the protocol proof lets any packet be resent at any time.
- The product with 0.8 in the window sizes is 4w/5 in integers, which is its value for every admitted window.
- ExpiryHeap.RecentlyClosed.Remember: the reasons that decide whether a closed stream is remembered at all are left to
  the caller; the standard heap routines are modelled on sequences.
- FragmentStore.ReassemblyIsExactlyOnce: keys are numbers, and all deliveries lie inside one retention time.
- The frame's packet-type table, its check octet and the base64 functions are parameters: the header codec is proved
  for every table and check, and of base64 only its length and its inverse are used.
- Compression, inflation and ciphers: library code; frames are compared before inflation.
- Trimming, lower-casing and name comparison are those of ASCII; the source also folds other Unicode letters.
- TxtResponse.ReplyIsParsed: asks for a request whose question names and OPT owner are spelt out without compression
  pointers, as every tunnel question is; a pointer into the request's header or behind its questions would be read in
  another message.
- TxtResponse.BuildTxtResponse: requires the room condition of `RoomIff`; beyond it the buffer of the source is too
  short for an owner of more than two octets, and has octets left over for the root.
- TxtResponse.FrameIsReceived: for the same plain requests as `TxtResponse.ReplyIsParsed`.
- The order in which allowed domains are sorted: the tree theorem holds for every order of the list.
- The hash that picks a cache shard is a parameter; list elements are identified by their keys, which are distinct.
- LoadFromFile and SaveToFile of the cache: file I/O.
- Balancer strategies 6 to 8, whose candidate pools may be smaller than the requested count, the pending-sample tables
  and the automatic disabling: heuristics. The random draws are arbitrary numbers, statistics are read once a call.
- Connection details other than key and validity, and the statistics windows, take no part in the selection.
- Dispatcher fairness, the deferred-session lanes, rate limiting, ping intervals, health tables, CIDR expansion and the
  cookie tracker: small tables or no simple bound.
