# mini_udp: a verified model

`mini_udp` sends typed messages over UDP in three ways: unreliable, reliable and reliable in order. Each
side keeps four rings of 32 slots, numbers reliable packets with 16-bit ids that wrap, acknowledges what it
has with bit fields, and packs queued messages into packets of at most 1024 bytes of data. A derive macro
turns Rust types into readers and writers of a little-endian byte format. This project models the ring
buffer, the protocol and the byte format, and proves what they are for.

## How the model is built

**The ring buffer.** `WrappingIds` has the id arithmetic and the wrap-aware comparison. `Windows` has the
plain map a ring stands for: the items of the last `n` ids. `RingSlots` proves the slot arithmetic, and
`RingBuffers` is the class over an array, with its iterator, refined to the map for every size up to 8192
that divides 65536.

**One communicator.** `Packets` has packets and acknowledgements, `Packing` the greedy split of a queue,
`Flushing` the flush loops and the resend rule, `Endpoints` every operation as a function on values.
`Communicators` is the class with its rings and queues updated in place; each method is proved equal to the
function on values. `Draining` proves what the read loop releases.

**Two communicators.** `Network` is a state machine: two nodes, each with an ever-growing set of copies it
has put on the network, so a copy may be delivered never, once, often, and in any order. A step is a write, a
heartbeat, a `send` with any set of ids whose resend interval is over, a delivery or a read. Each node carries a
history: unbounded ids, the log of its packets, what it accepted, and what its user wrote and read.
`Streams` and `Delivery` have the invariants of one stream, `Invariants`, `InvariantSends` and
`InvariantDelivers` those of the pair, and `Safety` the theorems about every run. `Histories` adds what a run keeps
about retries and acknowledgements that were applied. `Progress` has one round of sending and acknowledging,
`Quiescence` the states that can come to rest, `Heartbeats` what an idle side says, `Deliveries` the order of the
unordered messages, `Transmissions` the order of what is sent, and `Limits` what the code does beyond the assumptions.

**The byte format.** `Schemas` has the shapes of types and their values, `Encoding` and `Decoding` the format
as functions, with the fixed region of a struct or variant before its variable region. `Writing` and `Reading`
follow the generated code on buffers. `Layout` says what the bytes are without those functions. `RoundTrip`,
`ReadSoundness`, `Truncation`, `Lengths`, `Extremes`, `EmptyTypes` and `Batches` hold the theorems, and `PacketWire` applies them to the packets of the protocol.

## Assumptions of the theorems about runs

They are the predicate `Network.AllowedAt`. For each of the first four, `Limits` gives the exact condition under which
the code does what a run needs. The first two assumptions are that condition for copies less than a full turn of
65536 ids late; `Limits` states it for copies of any age.

- A reliable copy arrives only while the too-old test can classify its id: its id is at most 95 below the newest
  accepted one, or further back without a wrap in between.
- An acknowledgement arrives only while its receiver is at most 65504 packets ahead of it.
- No packet uses up its last retry.
- Every message has at most 1024 bytes.
- A copy that arrives was sent: the checksum turns corruption into loss.

## Where the documentation and the code differ

- `mini_udp/src/communicator/mod.rs:252-258` promises a heartbeat when new packets have come in. The code
  (`mini_udp/src/communicator/inner.rs:88-92`) sends one only after a packet has been turned away and only when all
  three queues are empty. `Heartbeats.SilentReceiver` is a run in which a new packet is not answered,
  `Heartbeats.HeartbeatIff` the exact condition, and `Heartbeats.IdleAnswersSecondCopy` what it means: a side whose
  user only reads acknowledges nothing before some packet has reached it twice.
- A retry count of 0 means the largest count, because the counter is decremented before it is compared with zero
  (`mini_udp/src/communicator/inner.rs:463-466`); the model has the wrap of a release build. A count of 1 drops a
  packet as soon as it has been sent once.
- `read_many` goes on while there are bytes left, so on a type without bytes it never returns from a buffer that is
  not empty. `Batches.ReadEndsIff` is the exact condition and `Batches.ReadNeverEnds` an input;
  `Batches.ReadMany` is the loop on the inputs on which it ends.

## Model

| member | source | states |
|---|---|---|
| WrappingIds.GtComparesIds | mini_udp/src/ring_buffer.rs:362-369 | For ids at most `max_dif` <= 32767 apart, the comparison of their wire forms is the order of the unbounded ids, across any number of wraps |
| WrappingIds.GtIsCircular | mini_udp/src/ring_buffer.rs:362-369 | Within circular distance `max_dif`, "greater" is exactly 1 to `max_dif` ahead on the circle |
| WrappingIds.GtIsAntisymmetric | mini_udp/src/ring_buffer.rs:362-369 | Of two different ids exactly one is the greater, for every `max_dif` |
| WrappingIds.GtHoldsEverywhereIff | mini_udp/src/ring_buffer.rs:362-369 | The exact set of distances at which an id is recognised as newer wherever the wrap falls |
| WrappingIds.WrappingRangeMembers | mini_udp/src/ring_buffer.rs:357-360 | An id is in the range iff it lies in the half-open circular interval |
| RingSlots.InsertGuards | mini_udp/src/ring_buffer.rs:53-92 | The two wrap-aware guards of `insert`: everything is cleared iff the id is outside newest +- (N-1), and the newest id stays iff the id is one of the last N |
| RingSlots.SlotInjective | mini_udp/src/ring_buffer.rs:28-35 | Two ids of one window never share a slot, also across a wrap |
| RingSlots.WriteSlot | mini_udp/src/ring_buffer.rs:94-101 | Writing or clearing the slot of one id changes the entry of that id and no other |
| RingSlots.ShiftWindow | mini_udp/src/ring_buffer.rs:74-91 | Moving the newest id forward brings no stale slot back to life if the ids that fall out were cleared |
| RingSlots.CountIsSize | mini_udp/src/ring_buffer.rs:183-185 | Counting the filled slots counts the keys of the map |
| RingBuffers.RingBuffer.constructor | mini_udp/src/ring_buffer.rs:10-26 | A new ring stands for the empty map with newest id 65535 |
| RingBuffers.RingBuffer.Get | mini_udp/src/ring_buffer.rs:28-35 | `get` is lookup in the map of the last N ids |
| RingBuffers.RingBuffer.Push | mini_udp/src/ring_buffer.rs:46-51 | `push` returns the next id and shifts the window by one, dropping the oldest id and adding the item |
| RingBuffers.RingBuffer.Insert | mini_udp/src/ring_buffer.rs:53-92 | `insert` restricts the map to the N ids up to the newer of newest and index, and adds the item, whichever of its three branches runs |
| RingBuffers.RingBuffer.Purge | mini_udp/src/ring_buffer.rs:82-88 | The purge loop removes exactly the ids that leave the window |
| RingBuffers.RingBuffer.Take | mini_udp/src/ring_buffer.rs:94-101 | `take` returns the lookup and deletes the key |
| RingBuffers.RingBuffer.Update | mini_udp/src/ring_buffer.rs:37-44 | Changing an item in place changes that entry only |
| RingBuffers.RingBuffer.Retain | mini_udp/src/ring_buffer.rs:147-164 | The loop over the slots filters the map and emits in chronological order |
| RingBuffers.RingBuffer.PushWillOverride | mini_udp/src/ring_buffer.rs:167-170 | True iff the id that the next push drops is in use |
| RingBuffers.RingBuffer.Len | mini_udp/src/ring_buffer.rs:183-185 | The count of filled slots is the size of the map and the number of items an iteration yields |
| RingBuffers.RingIter.Next | mini_udp/src/ring_buffer.rs:198-208 | `next` yields the first of the remaining keys with its item and leaves the others; once nothing remains it stays at `None` |
| RingBuffers.RingIter.SizeHint | mini_udp/src/ring_buffer.rs:210-221 | At every position the two bounds bracket the true number of remaining items, and differ at most by the number of empty slots and by the number of positions visited |
| Windows.Window.KeysAreChronological | mini_udp/src/ring_buffer.rs:103-142 | An iteration reports exactly the ids in use, each once, oldest first, across the wrap |
| Windows.Window.EntryCount | mini_udp/src/ring_buffer.rs:183-185 | A full iteration has as many items as the map, and at most N |
| Windows.Window.RemainingBounds | mini_udp/src/ring_buffer.rs:210-221 | What is left of an iteration lies between the size less the positions visited and the size |
| Windows.Window.PushAdds | mini_udp/src/ring_buffer.rs:46-51 | A push over a free slot keeps every entry and adds one |
| Windows.Window.RetainEachIsRetain | mini_udp/src/ring_buffer.rs:147-164 | Deciding id by id is the simultaneous filter of the whole map |
| Packets.AckBitsAreKeys | mini_udp/src/packet_ack.rs:33-58 | Bit i of a new acknowledgement is set iff the id i before the newest is held |
| Packets.AckBitsFit | mini_udp/src/packet_ack.rs:33-58 | All shifts stay below 32, so the bits fit into a `u32` |
| Packets.AckRoundTrip | mini_udp/src/packet_ack.rs:18-59 | Applying a new acknowledgement removes from each send ring exactly the ids the matching receive ring of the peer holds |
| Communicators.BuildAckBits | mini_udp/src/packet_ack.rs:39-49 | The loop over the keys of a ring builds those bits |
| Communicators.Communicator.Acknowledge | mini_udp/src/packet_ack.rs:19-30 | The loop over the bits removes from both send rings the acknowledged ids at once, and nothing else changes |
| Packing.CountFitting | mini_udp/src/communicator/inner.rs:375-386 | The counting loop of the flush finds the greedy prefix |
| Packing.FittingIsMaximal | mini_udp/src/communicator/inner.rs:280-292 | A prefix of the queue fits into a packet iff it is at most that long |
| Packing.SplitIsSplit | mini_udp/src/communicator/inner.rs:280-320 | The greedy split keeps all messages in order and every part within 1024 bytes |
| Packing.SplitIsOptimal | mini_udp/src/communicator/inner.rs:280-320 | No order-preserving split into packets that fit has fewer packets |
| Packing.LoopEndsIff | mini_udp/src/communicator/inner.rs:280-320 | The unreliable flush loop ends iff every queued message fits into a packet |
| Flushing.FlushKeepsMessages | mini_udp/src/communicator/inner.rs:374-419 | The messages of the new packets followed by the rest of the queue are the old queue |
| Flushing.FlushKeepsPending | mini_udp/src/communicator/inner.rs:374-419 | No pending packet is overwritten, new packets get consecutive ids, and the loop stops only at a used slot or an empty queue |
| Flushing.FlushedPacket | mini_udp/src/communicator/inner.rs:395-402 | Every packet of a flush belongs to its stream, has the next unbounded id in wire form, and its bits name exactly the ids the two receive rings hold |
| Flushing.FlushIsGreedy | mini_udp/src/communicator/inner.rs:375-386 | Every packet of a reliable flush takes as many messages as fit: the one after its last would not |
| Flushing.FlushUnreliableIsGreedy | mini_udp/src/communicator/inner.rs:280-292 | The same for the unreliable flush |
| Flushing.UnreliablePacket | mini_udp/src/communicator/inner.rs:304-312 | An unreliable packet has neither flag and acknowledges exactly what the two receive rings hold |
| Flushing.FlushMakes | mini_udp/src/communicator/inner.rs:392-402 | The packets of a flush have consecutive ids and each, with its header, is within the size of the buffer |
| Flushing.FlushUnreliableIsOptimal | mini_udp/src/communicator/inner.rs:280-320 | The unreliable flush empties the queue in order with the fewest packets possible |
| Flushing.UnreliableIds | mini_udp/src/communicator/inner.rs:302-303 | Unreliable packets are numbered consecutively from the next unreliable id, across any number of wraps |
| Communicators.FlushQueue | mini_udp/src/communicator/inner.rs:366-420 | The loop on the ring in place leaves the ring and the queue that those lemmas are about |
| Communicators.MakeUnreliable | mini_udp/src/communicator/inner.rs:280-320 | The loop makes the packets of the optimal split and advances the unreliable id past them |
| Communicators.Communicator.FlushMessages | mini_udp/src/communicator/inner.rs:263-321 | All three queues are flushed, the unreliable one last, each into its own packets |
| Communicators.DrainRing | mini_udp/src/communicator/inner.rs:229-237 | The loop with `iter_mut` and its early exit on the ring in place computes `Endpoints.Drain` |
| Draining.DrainReleasesRun | mini_udp/src/communicator/inner.rs:229-237 | For any head among the last 32 ids or just after them, the loop releases exactly the maximal contiguous run from the head, in order, each packet once, and leaves the head behind it |
| Communicators.Communicator.ReadPacket | mini_udp/src/communicator/inner.rs:129-246 | The whole new state after a packet: unreliable, duplicate, too old, ordered with release, or unordered |
| Communicators.Communicator.WriteHeartbeat | mini_udp/src/communicator/inner.rs:248-261 | An empty unreliable packet with a new acknowledgement is queued under the next unreliable id |
| Communicators.Communicator.SendPackets | mini_udp/src/communicator/inner.rs:323-354 | What goes to the socket and in which order, and what is left of both send rings |
| Communicators.Communicator.Send | mini_udp/src/communicator/inner.rs:80-113 | The whole new state and output of `send`, heartbeat included |
| Communicators.Communicator.HasWork | mini_udp/src/communicator/inner.rs:356-363 | False iff no ring or queue for sending holds anything |
| Communicators.Communicator.WriteOrdered | mini_udp/src/communicator/mod.rs:147-149 | A message goes to the end of its own queue and nothing else changes |
| Communicators.Communicator.ReadOrdered | mini_udp/src/communicator/mod.rs:165-167 | The oldest ordered message is handed out and removed, or `None` if there is none |
| Transmissions.HasWorkIff | mini_udp/src/communicator/inner.rs:356-363 | `has_work` is true iff a `send` with everything pending due would hand a packet to the socket, heartbeats apart |
| Transmissions.WritesAreWork | mini_udp/src/communicator/mod.rs:137-157 | There is work after each of the three writes and after a heartbeat |
| Transmissions.WaitingAfterPrepare | mini_udp/src/communicator/inner.rs:88-112 | A `send` adds the split of the unreliable queue and one heartbeat iff a packet was turned away and all three queues were empty, and forgets the packet turned away |
| Transmissions.TransmittedInOrder | mini_udp/src/communicator/inner.rs:333-346 | The due unordered packets come first, oldest first, then the due ordered ones, oldest first, then the unreliable ones as queued: each due packet once and nothing else |
| Transmissions.SendsInOrder | mini_udp/src/communicator/inner.rs:333-346 | In every run every `send` of either side keeps that order |
| Deliveries.UnreliableNumbering | mini_udp/src/communicator/inner.rs:248-320 | In every reachable state, over all sends and heartbeats, the unreliable packets are numbered from 0 on without a gap, carry what was written unreliably in order up to what is queued, and only they get onto the network |
| Deliveries.UnorderedInOrder | mini_udp/src/communicator/inner.rs:175-242 | In every run the messages handed over unordered are, in the order of delivery, those of every unreliable packet delivered and of the first copy of each reliable one, all of them made by the peer |
| Safety.NothingOvertakes | mini_udp/src/communicator/inner.rs:129-246 | No step takes a message back or puts one before another that is already waiting, on either queue |
| Streams.WindowIsTight | mini_udp/src/communicator/inner.rs:374-374 | Because a used slot stops the flush, the newest accepted id is at most 32 behind the newest sent one, and every older id has been accepted |
| Streams.FlushKeeps | mini_udp/src/communicator/inner.rs:374-419 | A flush extends the log of packets by the queue in order, keeps each pending packet under its id, and loses nothing |
| Streams.ResendKeeps | mini_udp/src/communicator/inner.rs:423-470 | Sending again loses no packet while no retry counter runs out |
| Streams.AckKeeps | mini_udp/src/packet_ack.rs:19-30 | However old an acknowledgement of up to 65504 packets ago is, it removes only accepted packets |
| Streams.FreshAck | mini_udp/src/packet_ack.rs:33-58 | A new acknowledgement names every id the receive ring holds, and only accepted ids |
| Streams.TooOldIsOld | mini_udp/src/communicator/inner.rs:205-213 | The 31 and the 64 of the test: for a classifiable id it says "too old" iff the id is below the last 32 |
| Streams.Classified | mini_udp/src/communicator/inner.rs:181-213 | A packet is taken for a duplicate or too old iff its id has been accepted before, and otherwise its id is within reach of the ring |
| Streams.AcceptKeeps | mini_udp/src/communicator/inner.rs:227-240 | After an accepted packet the receive ring again holds exactly the accepted ones of the last 32 ids |
| Delivery.DrainKeeps | mini_udp/src/communicator/inner.rs:229-237 | After the read loop the head is the least id not accepted, and the released messages are those of all packets before it |
| Delivery.SumAccepts | mini_udp/src/communicator/inner.rs:238-242 | Accepting one more id adds the messages of that packet, once, to what has been delivered |
| Invariants.InvInitially | mini_udp/src/communicator/inner.rs:34-64 | Two new communicators satisfy the invariant |
| InvariantSends.SendKeeps | mini_udp/src/communicator/inner.rs:80-113 | A `send` with any set of due packets keeps the invariant of the pair |
| InvariantSends.NetCarriesTransmitted | mini_udp/src/communicator/inner.rs:323-354 | The copies added to the network carry exactly the packets `send` hands to the socket |
| InvariantDelivers.DeliverKeeps | mini_udp/src/communicator/inner.rs:129-246 | Any allowed delivery keeps the invariant of the pair |
| Safety.ReachableInv | mini_udp/src/communicator/inner.rs:80-246 | The invariant holds in every state that any run can reach |
| Safety.OrderedSafety | mini_udp/src/communicator/inner.rs:181-237 | In every reachable state the ordered messages handed out are a prefix of those the peer wrote, through loss, duplication, reordering and wraps, and are those of all packets before the read head |
| Safety.ExactlyOnce | mini_udp/src/communicator/inner.rs:181-242 | In every reachable state the messages handed out unordered are those of the accepted reliable packets, each packet once, and those of delivered unreliable ones; none is invented |
| Safety.NoWorkMeansDelivered | mini_udp/src/communicator/inner.rs:356-363 | In every reachable state where `has_work` is false, the peer has the whole ordered sequence and the whole reliable multiset |
| Safety.WindowSafety | mini_udp/src/communicator/inner.rs:200-213 | In every reachable state the ends are at most 32 ids apart, every older id is accepted, an accepted pending id is in the receive ring and named by a new acknowledgement, and a pending id not accepted is taken for neither a duplicate nor too old |
| Safety.NothingMovesBack | mini_udp/src/communicator/inner.rs:129-246 | No step forgets an accepted id or moves the newest accepted id or the read head back |
| Histories.ReachableFullInv | mini_udp/src/communicator/inner.rs:80-246 | In every reachable state a pending packet that was never sent has all its retries, a packet made with one retry was never sent, and only sent packets are accepted, each with its acknowledgement applied |
| Histories.TurnedAwayIsKnown | mini_udp/src/communicator/inner.rs:181-213 | In every reachable state a copy that is turned away is the very packet accepted before, and its acknowledgement, which is not looked at, would leave both send rings unchanged |
| Progress.Round | mini_udp/src/communicator/inner.rs:177-177 | From any state of a run in which what is pending can reach the peer, one `send`, one delivery of each packet the peer still needs and one new acknowledgement in a heartbeat empty both send rings and leave nothing unreliable waiting, and the queues get shorter |
| Quiescence.EverythingArrives | mini_udp/src/communicator/inner.rs:80-246 | From every such reachable state there is an allowed continuation after which `has_work` is false and the peer has everything written |
| Quiescence.EverythingArrivesAtA | mini_udp/src/communicator/inner.rs:80-246 | The same for everything the other side has written |
| Quiescence.CanComeToRestIff | mini_udp/src/communicator/inner.rs:80-246 | From a reachable state a side can come to rest iff no pending packet that the peer still needs is too late, and nothing is pending or queued on a stream with a count of one retry |
| Quiescence.BothComeToRest | mini_udp/src/communicator/inner.rs:80-246 | If what is pending at each side can reach the other, for one of them also after the next flush of the other, there is a continuation after which `has_work` is false on both sides and each has everything the other wrote |
| Heartbeats.HeartbeatIff | mini_udp/src/communicator/inner.rs:88-109 | With nothing queued, waiting or due, `send` transmits a heartbeat iff a packet has been turned away since the last one, and otherwise nothing |
| Heartbeats.NewPacketStaysUnanswered | mini_udp/src/communicator/inner.rs:88-109 | A quiet side that has accepted a new packet transmits nothing |
| Heartbeats.SilentReceiver | mini_udp/src/communicator/mod.rs:252-258 | A reachable state in which a side has accepted a new packet, has nothing queued, and its `send` transmits nothing |
| Heartbeats.IdleAnswersSecondCopy | mini_udp/src/communicator/inner.rs:80-113 | In every run in which the user of one side only reads, that side sends nothing at all before the same reliable packet has reached it twice |
| Limits.TooOldIff | mini_udp/src/communicator/inner.rs:205-213 | An id that left the ring, however long ago, is recognised as too old iff the newest such id that looks like it is classifiable |
| Limits.LateCopyTurnedAwayIff | mini_udp/src/communicator/inner.rs:181-213 | A late copy of either stream, of any age, is turned away iff the ring holds what it looks like or that is classifiable |
| Limits.LateReliableCopy | mini_udp/src/communicator/inner.rs:238-242 | Any other late unordered copy hands its messages over again, and restarts the ring, moves it ahead or fills a gap in it, depending on its age |
| Limits.LateOrderedCopy | mini_udp/src/communicator/inner.rs:227-237 | Any other late ordered copy does the same to the ordered ring before the release; a restart loses what was held, releases nothing and leaves the read head where it is |
| Limits.AckReadRightIff | mini_udp/src/packet_ack.rs:19-30 | An acknowledgement of any age names no id wrongly iff its reader is at most 65504 packets ahead, or so far that the named ids coincide with none of its last 32 |
| Limits.RetriesMean | mini_udp/src/communicator/inner.rs:463-466 | A packet with r retries left is transmitted whenever it is due, at most r times, and dropped right after the last; 0 stands for 2^64 |
| Limits.TransmissionLosesNothingIff | mini_udp/src/communicator/inner.rs:463-466 | A transmission loses no packet iff each one on its last retry has been accepted already |
| Limits.FlushShortensIff | mini_udp/src/communicator/inner.rs:374-419 | With a free slot a flush shortens the queue iff its first message fits into a packet |
| Limits.LargeMessageBlocks | mini_udp/src/communicator/inner.rs:387-394 | A first message that is too large stays for ever, and empty packets fill the ring |
| Schemas.VariantLenIs | derive/src/lib.rs:105-111 | One byte numbers the variants of an enum with 2 to 256 of them, and none those of an enum with one |
| Layout.LeIsDigits | derive/src/data.rs:192-234 | The bytes of a number are its digits to the base 256, the least significant first, and nothing else is |
| Layout.EncodingIs | derive/src/data.rs:192-301 | For every schema and typed value there is exactly one sequence of bytes with the layout of flags, digits, lengths, tags, front and back regions, and it is what is written |
| Encoding.LeRoundTripIff | derive/src/data.rs:55-98 | A number is read back from its little-endian bytes iff they can hold it |
| Encoding.LengthIsExact | derive/src/data.rs:303-434 | `byte_len`, computed without writing, is the exact number of bytes of the value, fixed and variable part alike |
| Writing.WriteValue | derive/src/data.rs:192-301 | The writer succeeds iff the value fits, then changes exactly the bytes of the value, and touches nothing before its slice in any case |
| Writing.WriteFields | derive/src/data_group.rs:87-109 | The two regions of a struct or variant together are one contiguous write of its bytes |
| Writing.WriteItems | derive/src/data.rs:283-301 | The loop over the items writes them one after the other, and stops at the first that does not fit |
| Writing.WriteVariant | derive/src/lib.rs:166-180 | The discriminant, assigned after the fields, ends up in front of them |
| Writing.PatchHolds | mini_udp/src/byte_repr.rs:35-36 | After a write the buffer holds the bytes at their place and is unchanged everywhere else |
| Reading.ReadValue | derive/src/data.rs:55-190 | The reader computes the decoding function, on every buffer |
| Reading.ReadFieldList | derive/src/data_group.rs:63-85 | All fixed parts, then all variable parts with a moving pointer |
| Reading.ReadEnum | derive/src/lib.rs:187-201 | The variant is chosen by the discriminant, and an unknown one is an error |
| RoundTrip.TailRoundTrip | derive/src/data.rs:99-190 | The variable part of any value is read back from where it was written and the pointer moves by exactly its length |
| RoundTrip.DecodeRoundTrip | derive/src/data.rs:55-301 | For every schema and typed value, any buffer that starts with the bytes of the value is read as that value |
| RoundTrip.EncodingIsPrefixFree | mini_udp/src/byte_repr.rs:31-39 | The bytes of one value of a type are never the start of those of another |
| Truncation.DecodeExtends | derive/src/data.rs:55-190 | Bytes after those of a value make no difference to a successful read |
| Truncation.TruncatedFails | derive/src/data.rs:55-190 | Reading any shorter part of the bytes of a value fails |
| Truncation.FlagsAndTags | derive/src/lib.rs:195-200 | A flag is set by the byte 1 alone, and an unknown discriminant is an error |
| ReadSoundness.DecodeIsSound | mini_udp/src/byte_repr.rs:37-38 | Whatever the buffer, a successful read returns a value of the type that takes no more bytes than there are |
| Lengths.ConstMinMaxIsExtreme | derive/src/lib.rs:276-302 | The nested conditional returns a true minimum or maximum of its options |
| Lengths.MinHolds | derive/src/lib.rs:230-251 | No value is shorter than `MIN_BYTE_LEN`, for every schema |
| Lengths.MaxHolds | derive/src/lib.rs:253-274 | No value with strings of at most 1020 bytes and vectors of at most 1000 items is longer than `MAX_BYTE_LEN`, for every schema |
| Extremes.MinAttained | derive/src/lib.rs:230-251 | For every schema whose `MIN_BYTE_LEN` is below the largest `usize` some value has exactly that many bytes |
| Extremes.MaxAttained | derive/src/lib.rs:253-274 | For every schema some value within the limits has exactly `MAX_BYTE_LEN` bytes |
| Lengths.ZeroMinMeansNoBytes | derive/src/data.rs:608-740 | A type with `MIN_BYTE_LEN` 0 has no byte in any value |
| Batches.FitIsLongest | mini_udp/src/byte_repr.rs:46-61 | The prefix that `write_many` writes is the longest one that fits |
| Batches.WriteMany | mini_udp/src/byte_repr.rs:46-61 | `write_many` writes exactly that prefix at the start of the buffer, and reports its count and length |
| Batches.ReadMany | mini_udp/src/byte_repr.rs:63-73 | `read_many` ends on every buffer, whatever it contains, for a type with at least one byte |
| Batches.ReadAfterBatch | mini_udp/src/byte_repr.rs:63-73 | After a batch, bytes too few for another value are left unread, and others that are not a value are an error |
| Batches.WrittenBatchIsRead | mini_udp/src/byte_repr.rs:46-73 | Reading the bytes of a batch returns exactly the batch and its number of bytes |
| Batches.ReadEndsIff | mini_udp/src/byte_repr.rs:63-73 | The read loop ends iff a value of the type has at least one byte or the buffer is empty |
| Batches.ReadEnds | mini_udp/src/byte_repr.rs:63-73 | Where it ends, it ends with the result of `read_many` |
| Batches.ReadNeverEnds | mini_udp/src/byte_repr.rs:63-73 | On the unit type and a buffer of one byte the loop never ends |
| EmptyTypes.EmptyIsRead | mini_udp/src/byte_repr.rs:63-73 | A value of a type without bytes is read from every buffer, without an error, and takes nothing |
| PacketWire.AckWire | mini_udp/src/packet_ack.rs:3-16 | An acknowledgement always takes 14 bytes |
| PacketWire.PacketTyped | mini_udp/src/packet.rs:10-22 | A packet takes its header, less the checksum, and the bytes of its messages, and its least and largest lengths are those of the header with no and with 1000 messages |
| PacketWire.PacketBytes | mini_udp/src/packet.rs:14-22 | The bytes of a packet: both flags and the message count hoisted in front, then the five numbers of the acknowledgement, then the messages |
| PacketWire.PacketRoundTrip | mini_udp/src/packet.rs:14-22 | A packet is read back, acknowledgement, flags and messages, from any buffer that starts with its bytes |
| PacketWire.FlushedPacketFits | mini_udp/src/packet.rs:3-12 | Every packet a flush makes, with its checksum, fits into the 1048 bytes of the buffer |

## Left out

- Sockets, addresses, `last_send` and the other uses of `Instant`, logging and the `debug` feature: the clock is the
  set of due ids given to `send`, which may be any set, so a packet just pushed need not be due at once.
- A failing socket send: for the protocol it is a lost packet.
- The checksum itself: a packet that arrives damaged is a lost packet.
- `MultiUdpCommunicator` with its callbacks: a map of independent communicators.
- Progress without help: it is not claimed. A heartbeat is made only when all queues are empty
  (`mini_udp/src/communicator/inner.rs:88-92`), and a packet sent again keeps the acknowledgement it was made with.
- Quiescence.BothComeToRest: the condition is sufficient, and not claimed to be necessary: which side flushes first
  decides whether a packet of the other one is still in time. For one side `Quiescence.CanComeToRestIff` is exact.
- Communicators.Communicator.FlushMessages: requires that the unreliable messages fit into a packet; for any other queue the loop
  does not end, which is `Packing.LoopEndsIff`. The same holds for `Send`.
- Batches.ReadMany: requires a type with at least one byte or an empty buffer, as the loop does not end otherwise.
- Which error a reader returns on bytes that are not a value, and which failure a writer reports when a value does not
  fit, follows the program but is not the subject of a theorem.
- Rings of 16384 slots or more: the windows of twice the size leave the range in which the comparison works.
- The messages of the protocol are their byte representations; `PacketWire` ties them to values of a schema.
- Retain and `iter_mut` hand out references in the program; here the closure of `retain` is a pure function that also
  emits, and a change through `iter_mut` is `Next` followed by `Update`.
- Acknowledgement bits are natural numbers with operations on binary digits; `Packets.AckBitsFit` shows that they fit.
- `Cow` fields, enums of more than 256 variants, and everything about token streams, generics and hygiene.
- Strings are byte sequences: that the lossy conversion keeps valid UTF-8 is taken for granted, and what it does to
  invalid UTF-8 is not modelled. Floats are bit patterns.
- Strings and vectors of 4294967296 or more elements, which the 32-bit length field cannot count.
- `MAX_BYTE_LEN` is unbounded here; an overflow of `usize` in it stops the compilation of the program.
- `StaticByteRepr::BYTE_LEN`: for an enum it is only the largest length.
