# Delivery in derphole, verified

derphole moves byte streams over paths that lose, repeat, delay and reorder. This project
models the hand-written protocol code that makes those streams arrive whole, and proves that
it does. It is written in Dafny 4.11; `dafny verify dfyconfig.toml` checks all of it.

Each component is modelled twice. A value-level specification says what every operation
computes, and classes with the source's own fields, loops and arrays are proved to compute
it. The results are proved about the specification, as a rule over whole runs: sequences of
steps in which the network, the reader, the carriers and the clock may do whatever they can.

- **Raw transport** (`SeqSet`, `SelectiveAck`, `Lanes`, `RawTransport*`): the sliding-window
  sender, the reordering receiver and the selective acknowledgement, with the network as a
  set of packets and acknowledgements that never forgets. The joint invariant of both ends
  yields prefix safety, the meaning of success, the exactness of acknowledgements, the
  conservation of packets, the agreement of window and buffer, and progress.
- **Striped transport** (`Reassembly`, `Striped*`, `StripePlan`): one source over several
  independently numbered stripes, put back together by offset; progress, and what is left of
  it once the receiver is gone.
- **Blast receive** (`Blast{Coordinator,Tiers,Stripes,Safety,Results,Endpoint}`): the striped
  coordinator with memory and spool tiers and a write buffer. It is proved to stand for the
  single-tier striped receiver after every packet, which gives its output, its conservation
  of payloads, its counters and its completion.
- **Block striping and parity** (`BlockStriping`, `BlastSource`, `Parity*`): lane choice,
  counters and the offset formulas as a bijection; XOR groups on both sides, over what the
  sender really puts on a stripe, and what recovery yields.
- **Repair requests** (`Repair*`): the rotating cursor and its fairness.
- **Replay window** (`Replay*`): a ring over shared slabs of memory that stands for a map, and
  the sender that fills it in order.
- **derptun mux** (`Mux*`): stop-and-wait delivery over replaceable carriers; the sending loops
  with everything that others do in between are proved to be runs of it.
- **Rate control and pacing** (`BlastRate*`, `BlastPacer`): bounds, holds and recovery for
  every way of rounding; the pacer's rate bound.
- **Invite codec** (`InviteCodec`): the base-41 text form.

## What turned out false

Parity recovery does not always yield the packet that was sent. On a striped lane the DONE
packet is numbered like data, so a DONE that arrives early raises the highest number seen.
The guard that keeps recovery away from the leading edge then lets the last group through
while the size of the source is still unknown, and a short last chunk comes back with its
padding. `ParityRecovery.WrongExactlyWhen` gives the exact condition for one recovery and
`ParityRecovery.EveryRecovery` for every recovery of every run; number and offset are always
right. `ParityRecovery.MisleadsExactlyWhen` says which lanes it can happen to, from the size
of the source, the chunk size and the group size alone: exactly those with the short end of
the source, if it shares its group. `ParityRecovery.ThreeBytesMislead` is one of them.
The unstriped path never numbers its DONE, so there every recovery is exact
(`ParityRecovery.UnstripedRecovery`).

A striped send does not always learn that it succeeded. While the receiver answers, success
is always within reach (`StripedProgress.CanAlwaysFinish`). Once it is gone, success is still
possible exactly if nothing is in flight on any stripe or just the DONE on every stripe
(`StripedProgress.SucceedsAloneExactlyWhen`); a mixture of the two, which every transfer over
two or more stripes can end in (`StripedProgress.MayEndMixed`), never succeeds.

The largest window that never makes the receiver discard a packet is 4097, one more than the
buffer holds; `RawTransportResults.WideWindowDiscards` shows that it is the exact bound.

## Reading the model

- Sequence numbers, offsets, sizes and times are unbounded; the source's 64-bit counters do
  not wrap around in the model.
- The source reader returns the next bytes of the source, at most a chunk at a time, and
  reports its end only there; it may also return nothing or fail.
- A packet or acknowledgement can be delivered any number of times, at any later time, or
  never; nothing is forged.
- A destination takes each write whole or fails after a part, and then the receive is over.
  In the blast coordinator this is a capacity that is part of the state and may be any number.
- Block striping and parity assume what the formulas rest on: all chunks but the last have
  the chunk size, active lanes are the announced stripes, and the receiver knows the true
  chunk size and, if it was told a size to expect, the true size. The delivery results of the
  blast coordinator do not need this: they hold for every way of cutting the source.
- The receiver's floor, which empties the replay window, never passes what was sent.
- In the mux loops the deadline is the end of a list of turns; what others do at each turn,
  whether a write fails and whether its frame got through all the same is part of the turn.
- The floating-point computations of the rate controller and of the pacer are parameters, so
  their results hold for every value they may have; the pacer's bound names the rounding.

## Model

| member | source | states |
|---|---|---|
| `SeqSets.SeqSet.constructor` | pkg/probe/session.go:4300-4345 | the empty bitmap stands for the empty set |
| `SeqSets.SeqSet.Add` | pkg/probe/session.go:4300-4323 | for every insertion history the dense and sparse bitmap stands for the set of everything added; true is returned exactly for a new member; the count is the cardinality |
| `SeqSets.SeqSet.Has` | pkg/probe/session.go:4325-4338 | true exactly for members, in the dense part, in the sparse part and beyond both |
| `SeqSets.SeqSet.Len` | pkg/probe/session.go:4340-4345 | the cardinality of the set |
| `SeqSets.DenseInsert` | pkg/probe/session.go:4303-4313 | setting a bit of a dense word adds exactly that number and no other |
| `SeqSets.SparseInsert` | pkg/probe/session.go:4314-4322 | the same for a sparse word |
| `SelectiveAck.AckMaskFor` | pkg/probe/session.go:6330-6339 | bit d of the mask is set exactly if floor + 1 + d is buffered |
| `SelectiveAck.ExtendedAckPayloadFor` | pkg/probe/session.go:6341-6357 | the same for the 4096 bits of the payload; the payload is empty exactly if nothing buffered is in range |
| `SelectiveAck.BuildAck` | pkg/probe/session.go:6330-6357 | an acknowledgement whose mask and payload are both exact for the buffer |
| `SelectiveAck.ApplyAck` | pkg/probe/session.go:6258-6296 | drops from the in-flight map exactly the numbers that floor, mask or payload cover, keeps the others unchanged, and returns how many it dropped |
| `SelectiveAck.ApplyFloorAndMask` | pkg/probe/session.go:6260-6278 | the part of that which floor and mask account for |
| `SelectiveAck.ApplyPayloadBit` | pkg/probe/session.go:6279-6294 | one bit of the payload drops its number, if that is still in flight |
| `SelectiveAck.AckIsPlausible` | pkg/probe/session.go:6395-6423 | true exactly if the floor is not above the next sequence number and every marked number has been used |
| `Lanes.AckIsExact` | pkg/probe/session.go:6330-6357 | an acknowledgement built from a receiver whose buffer is within reach covers exactly what the receiver holds |
| `Lanes.AckIsPlausibleFor` | pkg/probe/session.go:6395-6423 | an acknowledgement of held packets passes the plausibility test |
| `Lanes.EmitKeepsFlight` | pkg/probe/session.go:6042-6083 | a packet put on the wire is in flight, and everything sent stays in flight or held |
| `RawTransportEndpoints.SenderState.constructor` | pkg/probe/session.go:235-245 | a sender that has sent nothing |
| `RawTransportEndpoints.SenderState.SendWindowHasCapacity` | pkg/probe/session.go:6085-6093 | whether the window, counted from the ACK floor, has room |
| `RawTransportEndpoints.SenderState.NextOutboundPacket` | pkg/probe/session.go:6095-6162 | the packet and the new sender state for every way a read can end, including data together with an error and an error with nothing read |
| `RawTransportEndpoints.SenderState.FillSendWindow` | pkg/probe/session.go:6042-6083 | the loop puts in flight exactly the packets of the specification and leaves its state; a read failure that was put off ends the send once nothing is in flight |
| `RawTransportEndpoints.SenderState.ApplyAckBatch` | pkg/probe/session.go:319-345 | a batch acts as its acknowledgements one after another, implausible ones without effect |
| `RawTransportEndpoints.SenderState.SendIsComplete` | pkg/probe/session.go:278-285 | success is reported exactly if DONE is queued and nothing, or only a settled DONE, is in flight |
| `RawTransportEndpoints.ReceiverState.constructor` | pkg/probe/session.go:370-386 | a receiver that has received nothing |
| `RawTransportEndpoints.ReceiverState.AdvanceReceiveWindow` | pkg/probe/session.go:6298-6328 | delivers the longest buffered stretch from the expected number on, and stops at DONE |
| `RawTransportEndpoints.ReceiverState.HandlePacket` | pkg/probe/session.go:464-549 | the reaction to any DATA or DONE packet: old, next, within the buffer, or beyond it |
| `RawTransportEndpoints.ReceiverState.PendingAck` | pkg/probe/session.go:387-398 | the acknowledgement sent is exact for the state it is sent in |
| `RawTransportSafety.StepKeeps` | pkg/probe/session.go:259-345 | every step of sender, receiver or network keeps the joint invariant of both ends |
| `RawTransportSafety.RunKeeps` | pkg/probe/session.go:259-345 | the joint invariant holds in every state of every run |
| `RawTransportResults.OutputIsPrefix` | pkg/probe/session.go:464-549 | in every run with loss, repetition and reordering the destination holds a prefix of the source |
| `RawTransportResults.SuccessMeansWritten` | pkg/probe/session.go:278-285 | whenever Send succeeds, with nothing in flight or only a settled DONE, the receiver has already written the whole source |
| `RawTransportResults.CompletionMeansWritten` | pkg/probe/session.go:520-549 | a receiver that reports completion has written the whole source |
| `RawTransportResults.PacketsConserved` | pkg/probe/session.go:319-345 | acknowledged plus in-flight packets equal the next sequence number in every reachable state |
| `RawTransportResults.MissingPacketsStayInFlight` | pkg/probe/session.go:6164-6194 | a packet the receiver lacks is still in flight, so it is sent again |
| `RawTransportResults.GenuineAcksArePlausible` | pkg/probe/session.go:6395-6423 | an acknowledgement the receiver really sent passes the plausibility test however stale it is |
| `RawTransportResults.AckSaysWhatIsHeld` | pkg/probe/session.go:6330-6357 | in every reachable state every buffered packet fits in the acknowledgement, which covers exactly what is held |
| `RawTransportResults.AckDropsExactlyWhatWasHeld` | pkg/probe/session.go:6258-6296 | however late it arrives, an acknowledgement removes exactly the in-flight packets that the receiver held when it built it |
| `RawTransportResults.WindowBoundsPackets` | pkg/probe/session.go:6085-6093 | every packet ever on the wire is less than a window above what the receiver expects |
| `RawTransportResults.NarrowWindowDiscardsNothing` | pkg/probe/session.go:495-497 | with a window of at most 4097 no packet is discarded for lack of buffer room |
| `RawTransportResults.WideWindowDiscards` | pkg/probe/session.go:495-497 | with any wider window some run discards a packet, so 4097 is the exact bound |
| `RawTransportResults.FillIsRun` | pkg/probe/session.go:6042-6083 | filling the window in one go is a run of single emissions, so what holds of runs holds of it |
| `RawTransportResults.CanAlwaysFinish` | pkg/probe/session.go:259-301 | no reachable state is stuck: while the destination takes writes and the reader is not broken, the rest can be sent, delivered and acknowledged, and the send succeeds with the whole source written, in a bounded number of steps |
| `RawTransportResults.BrokenNeverFinishes` | pkg/probe/session.go:6044-6058 | a send whose reader broke never queues its DONE, so it never succeeds |
| `Reassembly.FlushHolds` | pkg/probe/striped.go:482-493 | flushing keeps the buffer exact: a prefix written, the other accepted chunks waiting at their offsets |
| `Reassembly.AcceptHolds` | pkg/probe/striped.go:432-467 | taking a chunk for the first time keeps the buffer exact and leaves nothing that could have been written |
| `Reassembly.AllAccepted` | pkg/probe/striped.go:495-497 | with every chunk accepted everything is written and nothing waits |
| `StripedEndpoints.StripedReceiver.constructor` | pkg/probe/striped.go:315-324 | a striped receiver that has received nothing |
| `StripedEndpoints.StripedReceiver.FlushStripedPendingPayloads` | pkg/probe/striped.go:482-493 | writes the longest waiting stretch from the next offset on |
| `StripedEndpoints.StripedReceiver.IsComplete` | pkg/probe/striped.go:495-497 | complete exactly if the size is known and written and every stripe has its DONE |
| `StripedEndpoints.StripedReceiver.AcceptStripedPacket` | pkg/probe/striped.go:432-467 | the new state for DATA and DONE; an error exactly if DONE packets disagree on the size |
| `StripedEndpoints.StripedReceiver.ProcessStripedPacket` | pkg/probe/striped.go:396-430 | the reaction to any packet of a stripe, with the drain of its buffer |
| `StripedEndpoints.StripedSource.constructor` | pkg/probe/striped.go:55-68 | a source that nothing was read from |
| `StripedEndpoints.StripedSource.NextStripedOutboundPacket` | pkg/probe/striped.go:176-240 | the packet and the shared source state for every way a read can end, on any stripe |
| `StripePlan.AcceptNext` | pkg/probe/striped.go:432-467 | accepting the packet a stripe expects never fails and keeps the receiver exact for the chunks accepted so far |
| `StripePlan.KeepForLater` | pkg/probe/striped.go:425-427 | buffering an early packet keeps the receiver exact |
| `StripePlan.AllTaken` | pkg/probe/striped.go:495-497 | once every stripe has accepted its data, the next offset is the end and nothing waits |
| `StripedSafety.ReceiveKeeps` | pkg/probe/striped.go:396-430 | any packet of the sender, old, next or early, is handled without error and keeps the receiver exact |
| `StripedSafety.StepKeeps` | pkg/probe/striped.go:30-128 | every step of any stripe keeps the joint invariant |
| `StripedSafety.RunKeeps` | pkg/probe/striped.go:30-128 | the joint invariant holds in every state of every run |
| `StripedResults.OutputIsPrefix` | pkg/probe/striped.go:432-493 | for every interleaving of the stripes the output is the source up to the next offset |
| `StripedResults.NeverDisagree` | pkg/probe/striped.go:453-464 | the DONE packets of one sender never disagree on the size |
| `StripedResults.AllDoneStrandsNothing` | pkg/probe/striped.go:396-497 | once every stripe has accepted its DONE, the next offset is the final total, nothing waits, and the receive is complete |
| `StripedResults.CompletionMeansWritten` | pkg/probe/striped.go:495-497 | a reported completion means that the output is the source |
| `StripedResults.SuccessMeansWritten` | pkg/probe/striped.go:81-88 | whenever the striped send succeeds the receiver has written the whole source |
| `StripedResults.GenuineAcksArePlausible` | pkg/probe/session.go:6395-6423 | per stripe, an acknowledgement really sent is never rejected |
| `StripedProgress.CanAlwaysFinish` | pkg/probe/striped.go:74-128 | no reachable state is stuck while the receiver answers: everything left can be sent, delivered and acknowledged on every stripe, and the send succeeds with the whole source written |
| `StripedProgress.SucceedsAloneExactlyWhen` | pkg/probe/striped.go:81-88 | with no further acknowledgement the send can still succeed exactly if all DONEs are out and either nothing is in flight or every stripe has just its DONE in flight |
| `StripedProgress.MayEndMixed` | pkg/probe/striped.go:81-88 | with two or more stripes, every state with a DONE still to come can go on so that the receiver completes with the whole source and the sender left behind never succeeds on its own |
| `StripedProgress.ToLastDone` | pkg/probe/striped.go:130-174 | everything but one DONE can be sent, delivered and acknowledged before that DONE goes out |
| `StripedProgress.SettleStripe` | pkg/probe/striped.go:103-127 | delivering what a stripe expects and one acknowledgement leave nothing of it in flight and touch no other stripe |
| `BlastEndpoint.Coordinator.constructor` | pkg/probe/session.go:4370-4432 | a run state with its stripes, nothing received and no spool |
| `BlastEndpoint.Coordinator.HasFutureSpooledPackets` | pkg/probe/session.go:4498-4508 | whether some stripe has a packet in the spool |
| `BlastEndpoint.Coordinator.MaybeClosePayloadSpool` | pkg/probe/session.go:4488-4496 | drops the spool exactly if neither index refers to it |
| `BlastEndpoint.Coordinator.FlushPayload` | pkg/probe/session.go:5566-5579 | hands over the write buffer; a failed write leaves what the destination took |
| `BlastEndpoint.Coordinator.WriteStripedPayload` | pkg/probe/session.go:3534-3546 | appends to the write buffer, which goes out from 4 MiB on |
| `BlastEndpoint.Coordinator.FlushStripedPendingPayloads` | pkg/probe/session.go:3555-3588 | writes the longest waiting stretch, from memory or from the spool |
| `BlastEndpoint.Coordinator.StoreStripedPendingOutput` | pkg/probe/session.go:3480-3519 | keeps a payload once, in memory up to 256 MiB and in the spool beyond |
| `BlastEndpoint.Coordinator.StoreStripedFuturePacket` | pkg/probe/session.go:3392-3447 | keeps an early packet in memory up to 256 MiB and in the spool beyond, and notes it as seen |
| `BlastEndpoint.Coordinator.PopStripedBufferedPacket` | pkg/probe/session.go:3449-3478 | takes the expected packet out of its tier, or reports that it is not there or unreadable |
| `BlastEndpoint.Coordinator.AcceptStripedSequentialPacket` | pkg/probe/session.go:3348-3390 | the new state for DATA and DONE; an error for a refused write, a disagreeing size or an unexpected size |
| `BlastEndpoint.Coordinator.DrainStripe` | pkg/probe/session.go:3318-3329 | accepts kept packets for as long as the expected one is there |
| `BlastEndpoint.Coordinator.AcceptInTurn` | pkg/probe/session.go:3315-3345 | accepts, drains, and flushes the write buffer if that completes the receive |
| `BlastEndpoint.Coordinator.HandleStripedPacket` | pkg/probe/session.go:3225-3346 | the reaction to any DATA or DONE packet and the completion it reports, on every return path |
| `BlastTiers.SpoolWriteKeeps` | pkg/probe/session.go:3424-3430 | a spool write never damages another spooled payload, however the ranges overlap |
| `BlastTiers.FlushKeeps` | pkg/probe/session.go:3555-3588 | flushing two tiers is flushing one: the same bytes out, the same payloads left |
| `BlastTiers.StoreKeeps` | pkg/probe/session.go:3480-3519 | an early payload is kept exactly once, in one of the tiers, and counted if it is in memory |
| `BlastTiers.AcceptDataKeeps` | pkg/probe/session.go:3350-3370 | accepting a payload in two tiers is accepting it in one |
| `BlastStripes.PopKeeps` | pkg/probe/session.go:3449-3478 | the two tiers hand out exactly the packet that a single buffer would, with its bytes |
| `BlastStripes.StoreFutureKeeps` | pkg/probe/session.go:3392-3447 | an early packet is kept exactly once; it fails only for an offset beyond the file range |
| `BlastSafety.HandleKeeps` | pkg/probe/session.go:3281-3346 | any packet, new or old, in turn or early, keeps the coordinator exact, is taken in, and fails only for cause |
| `BlastResults.RunKeeps` | pkg/probe/session.go:3281-3346 | every state of every run stands for an exact single-tier receiver that has everything that arrived |
| `BlastResults.OutputIsPrefix` | pkg/probe/session.go:5546-5579 | destination bytes followed by the write buffer are the source up to the next offset |
| `BlastResults.CompletionMeansWritten` | pkg/probe/session.go:3521-3532 | no reported completion leaves bytes in the write buffer; the destination then has the source, or the bytes expected if the caller expected fewer |
| `BlastResults.FailsOnlyForCause` | pkg/probe/session.go:3348-3390 | a packet of the source fails only if the destination is too small, the source too long for a file, or the expected size wrong; what was written is a prefix |
| `BlastResults.SeenIsArrived` | pkg/probe/session.go:3281-3346 | the numbers a stripe has marked as seen are exactly those that arrived on it |
| `BlastResults.PayloadsConserved` | pkg/probe/session.go:3392-3519 | a payload that has arrived is in exactly one place, written or in one of four stores, bytes intact; one that has not arrived is in none |
| `BlastResults.CountersExact` | pkg/probe/session.go:4453-4519 | both byte counters equal the true sums and stay within 256 MiB; the spool exists exactly while something is in it |
| `BlastResults.CompleteWhenAllArrived` | pkg/probe/session.go:3281-3346 | once every packet has arrived, in whatever order, the receive is complete and the destination holds the source |
| `BlockStriping.GlobalThenStripe` | pkg/probe/session.go:1593-1605 | a stripe and a sequence number come from exactly one global packet index |
| `BlockStriping.StripeThenGlobal` | pkg/probe/session.go:1593-1605 | and every index from its stripe and sequence number: together a bijection |
| `BlockStriping.OffsetNamesStripe` | pkg/probe/session.go:1593-1605 | with uniform chunks the lane chosen from the offset is the stripe of the bijection |
| `BlockStriping.CounterIsSeq` | pkg/probe/session.go:1348-1357 | a counter per lane gives every packet the sequence number of the bijection |
| `BlockStriping.ClosedFormCounts` | pkg/probe/session.go:4848-4875 | the closed form equals the number of packets on the stripe |
| `BlockStriping.BytesToPackets` | pkg/probe/session.go:4848-4875 | the same from a byte count, the last chunk short or not |
| `BlockStriping.CountsAddUp` | pkg/probe/session.go:4848-4875 | the counts of all stripes add up to the number of packets |
| `BlockStriping.OffsetRecovered` | pkg/probe/session.go:4877-4897 | from one packet of a stripe the formula yields the offset of every later one |
| `BlockStriping.HasPacket` | pkg/probe/session.go:4848-4875 | a stripe has a packet number exactly if its global index is among those sent |
| `BlastSource.StripedBlast.constructor` | pkg/probe/session.go:1304-1307 | a sender that has cut nothing |
| `BlastSource.StripedBlast.SendChunk` | pkg/probe/session.go:1344-1357 | a chunk goes to the stripe its offset names under that stripe's counter; everything cut so far is on exactly one stripe |
| `BlastSource.StripedBlast.SendBatch` | pkg/probe/session.go:1334-1415 | whatever the reader returns, the packets are a complete plan of what was read; with uniform chunks it is the block striping of a uniform cut |
| `BlastSource.StripedBlast.SendDone` | pkg/probe/session.go:1855-1879 | every stripe ends with a DONE that names the size of the source |
| `Parity.InLane` | pkg/probe/session.go:4848-4875 | the lane's packets are exactly those whose offset lies inside the source |
| `Parity.FullBeforeAnother` | pkg/probe/session.go:4800-4805 | a packet with a later one on its lane is a whole chunk |
| `Parity.MissingIsLeft` | pkg/probe/session.go:4830-4833 | the XOR of all packets of a group and of all but one leaves the one |
| `ParitySource.LaneCarries` | pkg/probe/session.go:1344-1415 | with uniform chunks, packet n of a stripe is exactly the number, offset and payload that parity takes it to be, and there are as many |
| `ParitySource.ProtectStripe` | pkg/probe/session.go:1388-1440 | the packets that the sender put on a stripe yield one parity packet for every group of the stripe, in order, and no other |
| `ParityEndpoints.ParityGroup.constructor` | pkg/probe/session.go:2068-2080 | a group that has recorded nothing |
| `ParityEndpoints.ParityGroup.Record` | pkg/probe/session.go:2082-2099 | after every group of packets exactly the parity packet of that group is handed out |
| `ParityEndpoints.ParityGroup.Flush` | pkg/probe/session.go:2101-2106 | at the end a short group yields its parity packet |
| `ParityEndpoints.ParityGroup.Emit` | pkg/probe/session.go:2108-2116 | hands out the group and starts over |
| `ParityEndpoints.ParityGroup.Mix` | pkg/probe/session.go:2091-2093 | XORs a payload into the parity in place |
| `ParityEndpoints.ParityReceiver.constructor` | pkg/probe/session.go:4274-4291 | a receiver that has seen nothing |
| `ParityEndpoints.ParityReceiver.CleanupGroupIfComplete` | pkg/probe/session.go:4772-4787 | forgets a group exactly if all its packets were seen |
| `ParityEndpoints.ParityReceiver.TakePacket` | pkg/probe/session.go:4732-4754 | a packet is mixed into its group once, however often it arrives |
| `ParityEndpoints.ParityReceiver.MixInto` | pkg/probe/session.go:4744-4752 | the XOR of two byte strings, the shorter padded |
| `ParityEndpoints.ParityReceiver.StoreParityPacket` | pkg/probe/session.go:4756-4770 | a parity packet is kept unless its group is complete |
| `ParityEndpoints.ParityReceiver.ScanMissing` | pkg/probe/session.go:4806-4819 | finds whether none, one or more packets of a range are missing, and which one |
| `ParityEndpoints.ParityReceiver.RecoverOne` | pkg/probe/session.go:4800-4845 | what one stored parity packet recovers, and the state it leaves |
| `ParityRecovery.StepKeeps` | pkg/probe/session.go:4732-4846 | every arrival and every recovery, right or wrong, keeps each group's XOR that of the packets seen |
| `ParityRecovery.RunKeeps` | pkg/probe/session.go:4732-4846 | so does every run |
| `ParityRecovery.FiresExactlyWhen` | pkg/probe/session.go:4956-5013 | recovery fires exactly if one packet of the group is missing, another was seen, and the size is known or something behind the group was seen |
| `ParityRecovery.RecoveredPacket` | pkg/probe/session.go:4789-4846 | a recovered packet has the number and the offset that the sender used, and its payload up to padding |
| `ParityRecovery.ShortEndIsLast` | pkg/probe/session.go:4848-4897 | a packet is short exactly if it is the last of the lane that the size and the chunk size say carries the short end |
| `ParityRecovery.WrongExactlyWhen` | pkg/probe/session.go:4789-4846 | the payload is wrong exactly if the size is unknown, the DONE was seen, the missing packet is the last one, and the lane has the short end |
| `ParityRecovery.DoneCameEarly` | pkg/probe/session.go:4800-4805 | the leading-edge guard lets a short chunk through only if the DONE was seen |
| `ParityRecovery.EveryRecovery` | pkg/probe/session.go:4789-4846 | in every run, past right and wrong recoveries alike: number and offset right, payload wrong exactly under that condition |
| `ParityRecovery.ExactWithoutShortEnd` | pkg/probe/session.go:4956-5013 | a lane without the short end recovers exactly the packet sent, whatever arrives when |
| `ParityRecovery.UnstripedRecovery` | pkg/probe/session.go:4956-5013 | without a numbered DONE, every recovery of every run yields exactly the number, offset and payload that the sender sent |
| `ParityRecovery.EarlyDoneMisleads` | pkg/probe/session.go:4800-4805 | on every lane whose short end shares its group, a run exists in which an early DONE makes that chunk come back padded |
| `ParityRecovery.MisleadsExactlyWhen` | pkg/probe/session.go:4789-4846 | a wrong recovery is possible exactly if the short end of the source is on the lane and not alone in its group |
| `ParityRecovery.ThreeBytesMislead` | pkg/probe/session.go:4800-4805 | such a run for the source of three bytes in chunks of two |
| `RepairScheduler.MissingExactly` | pkg/probe/session.go:4649-4670 | the circular scan finds exactly the missing numbers of the window, once each |
| `RepairScheduler.RequestExactly` | pkg/probe/session.go:4553-4594 | a request names only missing numbers of the window, none twice, as many as the limit allows |
| `RepairScheduler.RequestTurns` | pkg/probe/session.go:4590-4592 | the cursor left behind turns the circle by what was asked for |
| `RepairScheduler.EveryoneGetsATurn` | pkg/probe/session.go:4553-4718 | with M missing and a limit L, any ceil(M / L) calls in a row without arrivals ask for every missing number, wherever the cursor was |
| `RepairScheduler.NothingToAskWhenComplete` | pkg/probe/session.go:4549-4594 | after an honest DONE the request is empty exactly if the run is complete |
| `RepairEndpoints.RepairState.constructor` | pkg/probe/session.go:4274-4291 | a state that has seen nothing |
| `RepairEndpoints.RepairState.Collect` | pkg/probe/session.go:4660-4666 | the scan loop yields the request of the specification |
| `RepairEndpoints.RepairState.MissingSeqs` | pkg/probe/session.go:4649-4670 | the request over all packets once the end is known, nothing before; the cursor follows |
| `RepairEndpoints.RepairState.MissingSeqsBefore` | pkg/probe/session.go:4672-4694 | the request over the window up to an end |
| `RepairEndpoints.RepairState.KnownMissingSeqs` | pkg/probe/session.go:4696-4718 | the request over the window up to the highest number seen |
| `RepairEndpoints.RepairState.MissingSeqBatches` | pkg/probe/session.go:4553-4594 | the same request cut into at most the given number of non-empty batches of at most the given size |
| `RepairEndpoints.RepairState.CollectBatches` | pkg/probe/session.go:4567-4589 | the batching loop |
| `ReplaySlots.BudgetIsEnough` | pkg/probe/stream_replay.go:98-104 | a packet that fits its slot fits the byte budget |
| `ReplaySlots.FullWhenRound` | pkg/probe/stream_replay.go:86-90 | with everything from the floor on kept, the next packet finds its slot taken exactly if the window is as long as the ring |
| `ReplaySlots.OthersKeepTheirBytes` | pkg/probe/stream_replay.go:199-206 | writing into one slot's place leaves the bytes of every other live packet alone |
| `ReplaySlots.StoreIsUpdate` | pkg/probe/stream_replay.go:105-118 | storing changes the map at its key and nowhere else |
| `ReplaySlots.DeleteIsRemove` | pkg/probe/stream_replay.go:177-190 | deleting removes its key and nothing else |
| `ReplayWindow.Window.constructor` | pkg/probe/stream_replay.go:36-74 | an empty window, for every chunk size and budget: at least one slot, slots with places of their own in the slabs |
| `ReplayWindow.Window.SlabForSlot` | pkg/probe/stream_replay.go:199-206 | creates a slab when first needed, without effect on the packets |
| `ReplayWindow.Window.AddPacket` | pkg/probe/stream_replay.go:80-120 | stores, or refuses as full, too large, not sealable or outside its slab; the window stands for the updated map or is unchanged; the counter is the sum of live sizes and within the budget |
| `ReplayWindow.Window.StoreAt` | pkg/probe/stream_replay.go:105-119 | the successful case |
| `ReplayWindow.Window.Scribble` | pkg/probe/session.go:5710-5723 | a header written before sealing fails harms no packet |
| `ReplayWindow.Window.Delete` | pkg/probe/stream_replay.go:177-190 | the map without one key |
| `ReplayWindow.Window.AckFloor` | pkg/probe/stream_replay.go:122-135 | removes exactly the keys from the old floor up to the new one |
| `ReplayWindow.Window.Packet` | pkg/probe/stream_replay.go:137-148 | exactly what the map holds |
| `ReplayWindow.FullExactlyWhen` | pkg/probe/stream_replay.go:86-104 | full is reported exactly if the slot is held by another packet or the budget is smaller than this packet alone: what is kept never uses the budget up |
| `ReplayWindow.InOrderAdds` | pkg/probe/stream_replay.go:86-90 | with exactly the packets from the floor on kept, the next one finds its slot taken exactly if it is the floor plus the slot count |
| `ReplayLane.Lane.constructor` | pkg/probe/session.go:590-596 | a lane that has sent nothing |
| `ReplayLane.Lane.Add` | pkg/probe/stream_replay.go:80-120 | after any adds in order and acknowledgements the window keeps exactly the packets from the floor on; the next add is refused as full exactly if all slots are taken or the budget is too small for it |
| `ReplayLane.Lane.Acknowledge` | pkg/probe/session.go:2260-2265 | takes out what the floor passes and keeps the rest as it was |
| `ReplayLane.Lane.AddWhenRoom` | pkg/probe/session.go:657-689 | the retry loop stays full exactly if the packet is over budget, or all slots are taken and no floor moves on: one acknowledgement that moves on is enough |
| `MuxEndpoints.CarrierSlot.constructor` | pkg/derptun/mux.go:94-109 | no carrier, generation 0, nothing signalled |
| `MuxEndpoints.CarrierSlot.ReplaceCarrier` | pkg/derptun/mux.go:111-138 | a new carrier of a new generation wakes everyone who holds the armed signal; the carrier to close is the old one, or the new one on a closed mux |
| `MuxEndpoints.CarrierSlot.MarkCarrierDead` | pkg/derptun/mux.go:455-463 | a notice of another generation changes nothing; the carrier goes exactly if everyone who holds the armed signal wakes up |
| `MuxEndpoints.CarrierSlot.Close` | pkg/derptun/mux.go:194-218 | ends the mux for good and wakes everyone |
| `MuxEndpoints.Stream.constructor` | pkg/derptun/mux.go:272-280 | a fresh stream |
| `MuxEndpoints.Stream.BeginChunk` | pkg/derptun/mux.go:634-646 | registers the chunk as pending up to its end |
| `MuxEndpoints.Stream.HandleAck` | pkg/derptun/mux.go:732-742 | an acknowledgement counts exactly if it reaches the end of the pending chunk |
| `MuxEndpoints.Stream.WriteConn` | pkg/derptun/mux.go:715-717 | a write takes everything, or a part and then nothing more |
| `MuxEndpoints.Stream.Deliver` | pkg/derptun/mux.go:697-724 | writes a frame exactly if it is the next one, and acknowledges what was written; a piece of the stream keeps the output a prefix of it |
| `MuxResults.StepKeeps` | pkg/derptun/mux.go:361-463 | every step of sender, peer or carriers keeps the joint invariant |
| `MuxResults.FailureKeeps` | pkg/derptun/mux.go:440-451 | a failed write keeps the invariant, whether or not its whole frame got through |
| `MuxResults.RunKeeps` | pkg/derptun/mux.go:634-742 | the invariant holds in every state of every run |
| `MuxResults.DeliveredIsPrefix` | pkg/derptun/mux.go:697-724 | across carrier replacements, resends and late frames the peer has written a prefix of what was read, in order and without repeats |
| `MuxResults.SuccessMeansWritten` | pkg/derptun/mux.go:664-688 | sendChunk succeeds only after the peer has written through the end of the chunk |
| `MuxResults.RestingMeansWritten` | pkg/derptun/mux.go:582-600 | between chunks the peer has written everything |
| `MuxResults.NoLostWakeup` | pkg/derptun/mux.go:664-688 | a sender that waits on a signal that has not fired has its whole frame on the carrier that is still current |
| `MuxResults.OnlyItsOwnDeath` | pkg/derptun/mux.go:455-463 | the carrier goes away only by replacement, by the end of the mux, or by a death notice of its own generation |
| `MuxResults.StaysCurrent` | pkg/derptun/mux.go:455-463 | over whole runs, notices about other generations never clear a carrier |
| `MuxResults.CanAlwaysFinish` | pkg/derptun/mux.go:634-689 | from every reachable state with a living peer one more carrier is enough to finish the chunk |
| `MuxPump.StreamPump.WriteOnCarrier` | pkg/derptun/mux.go:414-453 | every outcome, with other goroutines acting before and during the write, is a run of steps; true means that the whole frame is on that carrier |
| `MuxPump.StreamPump.WriteFrameUntil` | pkg/derptun/mux.go:361-387 | the loop over carriers is a run of steps and ends without success only when the mux is closed or time is up |
| `MuxPump.StreamPump.AwaitAck` | pkg/derptun/mux.go:670-687 | wakes for an acknowledgement of the whole chunk, for a signal that has fired, or when time is up |
| `MuxPump.StreamPump.SendChunk` | pkg/derptun/mux.go:634-689 | whatever others do in between: success means that the peer has written everything read so far, failure that it has all earlier chunks and a prefix of this one |
| `MuxPump.StreamPump.OutboundPump` | pkg/derptun/mux.go:582-600 | the peer ends with every chunk before the failed one, at most a part of that one, and nothing later; with no failure it has everything |
| `BlastRateResults.NewKeeps` | pkg/probe/blast_rate.go:82-112 | a new controller with a rate of at least 1 is within its bounds |
| `BlastRateResults.BoundsHold` | pkg/probe/blast_rate.go:319-375 | every run keeps 1 <= rate <= loss ceiling <= ceiling, for every way of rounding |
| `BlastRateResults.FloorHolds` | pkg/probe/blast_rate.go:503-526 | for ceilings up to 700 a rate once at the floor never falls below it |
| `BlastRateResults.NoIncreaseSoon` | pkg/probe/blast_rate.go:510-536 | no increase follows an event that asks for a decrease, even one at the floor, within 1 s for a ceiling above 1500, within 1.5 s otherwise |
| `BlastRateResults.DecreasesExactly` | pkg/probe/blast_rate.go:344-375 | in every run exactly the events that ask for it lower the rate, unless it is at its floor, and hold back increases; no other event does either |
| `BlastRateResults.DecreaseKeeps` | pkg/probe/blast_rate.go:487-515 | a decrease lowers the rate unless it is 1 or the floor, and keeps bounds and floor |
| `BlastRateResults.IncreaseKeeps` | pkg/probe/blast_rate.go:538-564 | an increase never lowers the rate, and keeps the bounds |
| `BlastRateResults.IncreaseProgress` | pkg/probe/blast_rate.go:538-663 | every clean sample below the ceiling lowers the measure over loss-ceiling gap, rate gap and samples counted |
| `BlastRateResults.Recovers` | pkg/probe/blast_rate.go:538-663 | from every reachable state a computed number of clean hold-free samples in a row brings the rate to the configured ceiling |
| `BlastRateResults.ToGoBounds` | pkg/probe/blast_rate.go:621-663 | that number is at most 31 times the ceiling less one |
| `BlastRateEndpoint.RateController.constructor` | pkg/probe/blast_rate.go:82-112 | the new controller, within its bounds if the rate is at least 1 |
| `BlastRateEndpoint.RateController.RememberLoss` | pkg/probe/blast_rate.go:589-619 | the new loss ceiling lies between the lowered rate and the ceiling |
| `BlastRateEndpoint.RateController.LowerWithCeiling` | pkg/probe/blast_rate.go:487-515 | keeps the bounds, lowers the rate unless it is at its floor, and holds back increases |
| `BlastRateEndpoint.RateController.MaybeReopenLossCeiling` | pkg/probe/blast_rate.go:621-653 | whether the loss ceiling moved, whether the rate did; a rate at a loss ceiling below the ceiling gets closer to the ceiling |
| `BlastRateEndpoint.RateController.RaiseRate` | pkg/probe/blast_rate.go:538-564 | keeps the bounds, never lowers the rate, and gets closer to the ceiling if it is below |
| `BlastRateEndpoint.RateController.DeferLoss` | pkg/probe/blast_rate.go:410-429 | whether moderate loss is put off |
| `BlastRateEndpoint.RateController.ObserveFeedback` | pkg/probe/blast_rate.go:319-375 | keeps the bounds; the rate falls or is held exactly if the sample asks for a decrease, and rises only once the hold is over |
| `BlastRateEndpoint.SendControl.constructor` | pkg/probe/blast_rate.go:118-124 | a control without pressure |
| `BlastRateEndpoint.SendControl.ObserveReplay` | pkg/probe/blast_rate.go:151-168 | keeps the bounds; a decrease exactly under replay pressure |
| `BlastRateEndpoint.SendControl.ObserveRepair` | pkg/probe/blast_rate.go:170-201 | keeps the bounds; a decrease exactly if enough repairs were asked for in the window and the hold is over |
| `BlastPacer.ScheduleIsLongEnough` | pkg/probe/blast_rate.go:291-303 | from the first call of any stretch the schedule lasts as long as the payload takes, less 250 ms |
| `BlastPacer.RateIsKept` | pkg/probe/blast_rate.go:277-310 | a sender that waits out its schedule never sends more than its rate allows for the time plus 250 ms and the rounding of each call |
| `BlastPacer.TruncationRounds` | pkg/probe/blast_rate.go:305-310 | cutting a duration off at whole nanoseconds loses less than one |
| `BlastPacer.Pacer.constructor` | pkg/probe/blast_rate.go:273-275 | a schedule that starts now |
| `BlastPacer.Pacer.SchedulePayload` | pkg/probe/blast_rate.go:291-303 | the new end of the schedule and the time to sleep, at least that of the payload less 250 ms |
| `InviteCodec.RoundTrip` | pkg/derptun/invite.go:107-176 | decoding an encoding yields the bytes, for every byte string |
| `InviteCodec.Canonical` | pkg/derptun/invite.go:130-176 | a text is accepted only if re-encoding its result gives that text |
| `InviteCodec.EncodedLength` | pkg/derptun/invite.go:107-128 | 3 characters for two bytes, 2 for a last odd one |
| `InviteCodec.OneOverIsRejected` | pkg/derptun/invite.go:131-133 | a text one character over a multiple of three decodes to nothing |
| `InviteCodec.CompactInviteValue` | pkg/derptun/invite.go:178-185 | the position of a character in the alphabet, if it is there |
| `InviteCodec.CompactInviteEncode` | pkg/derptun/invite.go:107-128 | the loop computes the encoding |
| `InviteCodec.CompactInviteDecode` | pkg/derptun/invite.go:130-176 | the loop computes the decoding, and rejects exactly what it rejects |

## Left out

- Sockets, batching, deadlines, retry timers and hello handshakes: steps of the environment, taken in any order and at any time.
- Encryption, token bodies, the packet header codec and the JSON frame codec: packets and frames are records.
- RawTransportEndpoints.SenderState.FillSendWindow: the pauses after empty reads are not modelled; the reader's next results are an argument.
- StripedEndpoints.StripedSource.NextStripedOutboundPacket: the round-robin order in which stripes are asked is not modelled; the runs allow every order.
- The retransmission statistics and the acknowledged-packet counter of the striped send: not part of delivery.
- BlastEndpoint.Coordinator.HandleStripedPacket: parity packets, repair requests sent after a DONE, and feedback are separate; parity is modelled on its own in `Parity*`.
- BlastEndpoint.Coordinator.StoreStripedFuturePacket: I/O errors of the spool file other than an offset out of range and a short or missing file are not modelled.
- The stripe states of the coordinator and the striped receiver are values in a sequence, so aliasing of stripe objects is not captured.
- ParityEndpoints.ParityReceiver.RecoverOne: the loop over all stored parity packets, whose order Go leaves open, and the loop that feeds recovered packets back are not modelled; a run may look at any of them at any time and take in what it yields.
- The unstriped blast coordinator except for its parity recovery and its repair scheduler: it delivers by sequence number with the same tiers and would add no harder property.
- RepairEndpoints.RepairState.MissingSeqBatches: the batched scan over the known window differs only in its window and is not repeated.
- The loops that cap repair requests by time and send them: only which numbers are asked for is modelled.
- ReplayWindow.Window.AddPacket: the wire form of the packet is an argument; an unsupported nonce size, with which nothing is ever stored, is not modelled.
- BlastSource.StripedBlast.SendBatch: queueing to lanes and cancellation are not modelled; the wait for room in the replay window is, in `ReplayLane`.
- Opening and closing streams of the mux, pings, and the reuse of stream numbers: one open stream and its peer are modelled, with the shared carriers.
- MuxEndpoints.Stream.Deliver: the delivery lock makes a delivery one step; frames are taken as written in full, because a reader discards a partial frame.
- ReplayLane.Lane.Acknowledge: a floor beyond what was sent, which no genuine receiver reports, is not modelled.
- MuxPump.StreamPump.SendChunk: the locks around it are not modelled; the runs allow others to act at every point at which the loop does not hold them.
- EncodeClientInvite and DecodeClientInvite around the codec: field copies at fixed offsets, easy members.
- The io.Discard branches, peak statistics, tracing, grace timers, telemetry, command lines and user interfaces: no effect on delivered bytes.
