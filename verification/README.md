# Volga, verified

A Dafny model of the core of Volga, a stream processing engine, with proofs about whole
runs, whole graphs and all inputs. `dafny verify dfyconfig.toml` checks everything.

**Transfer.** A writer keeps the last buffers of a channel in a bounded queue until they are
acknowledged; a reader restores their order with a watermark and a map of early buffers and
feeds one bounded output queue. `SendQueue` and `Dispatcher` hold the two ends, as in-place
classes tied to functions on values; `Protocol` puts them together with a network that may
lose, duplicate and reorder, one atomic step per block that the code runs under a lock.
A run is any sequence of actions, and `ProtocolTheorems` speaks about all runs: exactly once
and in order, bounded reordering memory, nothing vanishes, flow control.
`SingleChannel` builds runs step by step: with them `WatermarkOverflow` shows that the bound
on the number of buffers is exact, and `DuplicationWitness` that the larger flow-control
bound is reached, for all queue sizes.
`LosslessLink` adds progress over a FIFO link, as a refinement of the same protocol; and
`MuxPipe`, `RemoteLink` and `RemoteTheorems` refine that to channels which share a peer link.
`Batching` is the message batcher on top, with the end-to-end theorem; `Framing` is the
64-byte header, and `Multiplexing` with `TransferHandler` shares one peer link between
channels.

**Packing.** `Varint` and `Packing` are the multi-message buffers that grow by rewriting
their payload-size field; `PackedQueue` and `BufferQueues` are the queue of them with partial
flushes, memory accounting and out-of-order pops, on values and on bytes. `RetryingWriter`
and `RetryingDataWriter` are the writer that resends, for which no internal error is
reachable.

**Job graphs.** `GraphBuilder` walks a program from its sinks, `Chains` says what chains of
vertices are, `GraphOptimizer` is the traversal that finds and merges them. `Chaining` and
`GraphMeaning` show that merging preserves what every vertex emits. `ExecutionGraph` expands
vertices to parallel instances and `Routing` follows records over their channels; `KeyedJoin`
and `KeyedOperators` show that keyed operators behind a partition by key compute, in
parallel, what one instance computes, and `KeyedRouting` states it in the execution graph.
`Distribution`, `Splitting`, `JoinSplitting`, `ParallelMeaning` and `ParallelJobs` put this
together: the optimised graph run in parallel emits what the original graph run with one
instance per operator emits.

**Operators and allocators.** `SlidingWindows`, `WindowAggregates` and `WindowOperator` are
event-time windows over late records, `NodeAssignment` and `NodeStrategies` place instances
on nodes, `SplitEnumerator` hands out source splits.

Where the code and its comments or names differ, the model follows the code:

- The Rust writer records in-flight buffers in a temporary copy, so it never resends
  (rust/src/network/data_writer.rs:167, 190). Buffers are therefore sent once per schedule,
  and duplication belongs to the network.
- The watermark is a 32-bit signed number. From id 2^31 on, new buffers are acknowledged and
  lost; and delivering id 2^31 - 1 overflows the next watermark, which in a build with
  overflow checks, as the documented one is, kills the dispatcher and poisons the output
  queue's lock. `Dispatcher.NewBufferKeptIff` gives the fate of every new buffer. The theorems
  about a channel hold as long as it has accepted at most 2^31 buffers and nothing has
  panicked, and nothing panics before some channel has accepted 2^31; refused pushes do not
  count. `WatermarkOverflow.LossIsReached` and `WatermarkOverflow.NoPanicIff` show that no
  larger bounds would do.
- The comment that the out-of-order map is bounded "in theory" is a theorem, with a bound
  smaller by one than the queue size.
- A message refused as too big by the packed queue has already taken a unit of memory, which
  is never given back. Queue length plus remaining capacity is the channel's capacity exactly
  if no write does that, in particular if all messages fit (`RetryingWriter.MemoryConservedIff`,
  `RetryingWriter.MemoryConservedIfAllFit`).
- A channel id with NULs inside but not at the ends survives the header; only ids with a NUL
  at an end do not (`Framing.HeaderRoundTrip`, `Framing.NulIdIsLost`).
- A stream joined with itself gets one edge, because the second one is taken for a copy.

Ids and counts are unbounded integers, `Decimal` and floats are reals, hash functions and
user functions are arbitrary functions, and whatever depends on a clock is a parameter.

## Model

| member | source | states |
|---|---|---|
| `Varint.EncodeInt` | volga/streaming/runtime/network_deprecated/buffer/serialization/varint.py:8-19 | the loop produces the unsigned LEB128 encoding of any number |
| `Varint.DecodeBytes` | volga/streaming/runtime/network_deprecated/buffer/serialization/varint.py:21-33 | the loop computes the recursive decoding from any offset, and reports bytes that run out |
| `Varint.DecodeEncode` | volga/streaming/runtime/network_deprecated/buffer/serialization/varint.py:8-33 | an encoded number at any offset in any surrounding bytes decodes to itself and to the position just behind it |
| `Varint.DecodeIs` | volga/streaming/runtime/network_deprecated/buffer/serialization/varint.py:21-33 | for any bytes, decoding fails exactly if no byte below 128 follows; otherwise it reads up to the first such byte and gives the number whose base-128 digits, lowest first, are the low seven bits of the bytes read |
| `Varint.EncodeIsShortest` | volga/streaming/runtime/network_deprecated/buffer/serialization/varint.py:8-33 | of all bytes that decode to a number its encoding is the shortest, and the only one of that length |
| `Varint.EncodeLengthMonotone` | volga/streaming/runtime/network_deprecated/buffer/serialization/buffer_serializer.py:98-108 | a larger number never has a shorter encoding; this is what bounds the growth of the payload-size field |
| `Framing.NewBufferWithMeta` | rust/src/network/buffer_utils.rs:12-40 | the two push loops build the 64-byte NUL-padded id, the buffer id and the payload; a channel id longer than 64 bytes is the panic |
| `Framing.HeaderRoundTrip` | rust/src/network/buffer_utils.rs:52-56 | the id read back from a header is the id written if and only if it has no NUL at either end, whatever follows the header |
| `Framing.NulIdIsLost` | rust/src/network/buffer_utils.rs:52-56 | the id that is a single NUL comes back empty |
| `Framing.FrameRoundTrip` | rust/src/network/buffer_utils.rs:12-63 | buffer id and payload always come back from a frame, the channel id exactly when trimming cannot shorten it |
| `Framing.SerializeAck` | rust/src/network/channel.rs:45-66 | the push loops put the 64-byte padded channel id in front of the encoded ack; a longer id is the panic |
| `Framing.AckRoundTrip` | rust/src/network/channel.rs:45-73 | a framed ack deserialises to itself for any ack encoding that round-trips, and its header names the channel exactly when trimming cannot shorten the id |
| `SendQueue.PopAckedPrefix` | rust/src/network/buffer_queues.rs:50-63 | popping removes exactly the longest acknowledged prefix and its requests, lowers the index by its length, and keeps every other request for its turn |
| `SendQueue.PopUnderflowsIff` | rust/src/network/buffer_queues.rs:50-63 | `index -= 1` underflows if and only if every scheduled buffer and the one after them is requested |
| `SendQueue.PopAckedSafe` | rust/src/network/buffer_queues.rs:50-63 | if only scheduled buffers are acknowledged, `index -= 1` never underflows |
| `SendQueue.BufferQueue.TryPush` | rust/src/network/buffer_queues.rs:22-32 | refused exactly when the queue is full; otherwise a channel id that does not fit the header panics, and else the framed buffer with the next id goes to the end; nothing else changes |
| `SendQueue.BufferQueue.ScheduleNext` | rust/src/network/buffer_queues.rs:34-48 | hands out the buffer at the index without removing it, bytes and content |
| `SendQueue.BufferQueue.RequestPop` | rust/src/network/buffer_queues.rs:50-63 | the loop over framed bytes pops the longest acknowledged prefix and remembers an ack that comes too early; it fails exactly on index underflow |
| `Dispatcher.DrainIsLongestRun` | rust/src/network/data_reader.rs:189-210 | draining takes the longest run of held ids above the watermark that fits the output queue |
| `Dispatcher.NewBufferKeptIff` | rust/src/network/data_reader.rs:170-210 | the fate of a new buffer: from id 2^31 on it is acknowledged and lost, because of the signed cast; below, it kills the dispatcher if and only if it completes the run of ids up to 2^31 - 1 with room for it, and otherwise it is kept |
| `Dispatcher.LastIdOverflows` | rust/src/network/data_reader.rs:190-208 | delivering id 2^31 - 1 overflows the next watermark |
| `Dispatcher.FirstLostId` | rust/src/network/data_reader.rs:171-175 | id 2^31 is acknowledged and lost even by a reader that has delivered nothing |
| `Dispatcher.DataReader.ReadBytes` | rust/src/network/data_reader.rs:82-92 | takes the oldest buffer of the output queue, if any; panics exactly if the lock is poisoned |
| `Dispatcher.DataReader.DrainHeld` | rust/src/network/data_reader.rs:189-210 | on framed bytes: the inner loop moves exactly the longest run to the output queue and acknowledges each of its ids; it panics exactly if the run ends at id 2^31 - 1, and otherwise advances the watermark past it |
| `Dispatcher.DataReader.DispatchChannel` | rust/src/network/data_reader.rs:152-213 | on framed bytes, one iteration for a channel: nothing if the output queue is full or nothing was received; a buffer without a proper frame, or one that overflows the watermark, poisons the lock; else the effect of the received buffer on this channel only |
| `Protocol.HeldBound` | rust/src/network/data_reader.rs:177-210 | after a new buffer and its drain the out-of-order map is empty or smaller than the writer queue, by counting the writer window |
| `Protocol.StepKeeps` | rust/src/network/data_reader.rs:152-213 | every action that does not panic keeps the invariant of a channel that has accepted at most 2^31 buffers, whatever happened on other channels |
| `Protocol.StepRuns` | rust/src/network/data_reader.rs:170-210 | no action on a channel that has accepted fewer than 2^31 buffers panics |
| `ProtocolTheorems.RunKeeps` | rust/src/network/data_writer.rs:147-231 | after any run over any number of channels that has not panicked, the invariant holds for every channel that has accepted at most 2^31 buffers, however many pushes were refused |
| `ProtocolTheorems.PanicNeedsFullChannel` | rust/src/network/data_reader.rs:170-210 | a run that panics has passed a state in which some channel had accepted 2^31 buffers |
| `WatermarkOverflow.PanicIsReached` | rust/src/network/data_reader.rs:189-210 | for all queue sizes there is a run over a perfect network with 2^31 pushes that kills the dispatcher |
| `WatermarkOverflow.NoPanicIff` | rust/src/network/data_reader.rs:170-210 | no run that stays within a number of accepted buffers panics if and only if that number is below 2^31 |
| `WatermarkOverflow.LossIsReached` | rust/src/network/data_reader.rs:171-175 | with one buffer more than 2^31 and a queue of at least two, a run without panic ends with an acknowledged buffer that the reader does not have |
| `ProtocolTheorems.ExactlyOnceInOrder` | rust/src/network/data_reader.rs:162-212 | in every run over a network that loses, duplicates and reorders buffers and acks, what was put on the output queue for a channel is payloads 0 to watermark of those accepted, each once and in order; what is read is a prefix |
| `ProtocolTheorems.OutOfOrderBounded` | rust/src/network/data_reader.rs:177-210 | in every run the out-of-order map is empty or holds fewer buffers than max_buffers_per_channel |
| `ProtocolTheorems.NothingVanishes` | rust/src/network/buffer_queues.rs:34-63 | in every run all acked ids were scheduled and are delivered or held, the index is scheduled minus popped, queue ids are consecutive, and every accepted buffer is queued, delivered or held with its payload |
| `ProtocolTheorems.PoppedIsAckedPrefix` | rust/src/network/buffer_queues.rs:50-63 | in every run, in whatever order acks come: the buffers popped are the longest prefix whose acks have all arrived, and every ack beyond it is remembered |
| `ProtocolTheorems.FlowControl` | rust/src/network/buffer_queues.rs:22-31 | accepted minus read stays below twice the queue capacity plus the output queue size, whatever the network does |
| `ProtocolTheorems.RunKeepsUnique` | rust/src/network/data_reader.rs:154-210 | if no buffer of a channel is duplicated, every buffer of it on the network is there once and not kept yet, and only delivered buffers are acknowledged |
| `ProtocolTheorems.FlowControlWithoutDuplication` | rust/src/network/data_reader.rs:154-210 | accepted minus read is at most queue capacity plus output queue size if no buffer of the channel is duplicated |
| `DuplicationWitness.DuplicationReachesTheBound` | rust/src/network/data_reader.rs:171-210 | for all queue sizes a run that duplicates one buffer less than the queue holds leaves unread exactly as many buffers as the general bound allows, so the bound without duplication fails and the general one is attained |
| `LosslessLink.StepErases` | rust/src/network/data_writer.rs:179-230 | every step over the FIFO link is a step of the general protocol, which panics exactly if the step overflows the watermark |
| `LosslessLink.FifoRefines` | rust/src/network/data_writer.rs:179-230 | every run over the FIFO link that does not kill the dispatcher is a run of the general protocol, and nothing is ever held out of order |
| `LosslessLink.HeadKillsIff` | rust/src/network/data_reader.rs:189-210 | over the FIFO link a delivery kills the dispatcher if and only if its id is 2^31 - 1 |
| `LosslessLink.StepLowersRank` | rust/src/network/data_reader.rs:152-212 | every step but a push lowers the rank by exactly one |
| `LosslessLink.SomeStepEnabled` | rust/src/network/data_reader.rs:152-212 | while the rank is positive, the output queue has a place and channels have accepted fewer than 2^31 buffers, some step other than a push is possible that does not kill the dispatcher |
| `LosslessLink.RankZeroMeansDone` | rust/src/network/buffer_queues.rs:50-63 | at rank zero all queue slots are free and everything accepted has been read, in order |
| `LosslessLink.StepsAreBounded` | rust/src/network/data_writer.rs:179-230 | a run without pushes changes no accepted buffer and its length is the rank it uses up |
| `LosslessLink.AllBuffersGetThrough` | rust/src/network/data_reader.rs:152-212 | after any run with fewer than 2^31 buffers accepted per channel, the steps without pushes are bounded, and where they stop, for want of a step that does not kill the dispatcher, every accepted buffer of every channel has been read and every queue is empty |
| `Batching.DataWriter.TryWriteMessage` | volga/streaming/runtime/network/local/data_writer.py:63-83 | the answer, the batch handed to the transport and the pending batches of all channels, with the last message taken back when a full batch is refused |
| `Batching.DataWriter.TryFlush` | volga/streaming/runtime/network/local/data_writer.py:85-100 | what is handed over and what stays pending, for this channel and all others |
| `Batching.WriteIff` | volga/streaming/runtime/network/local/data_writer.py:63-83 | a write hands over a batch if and only if its message makes it batch_size long and the transport takes it, and is refused if and only if the transport does not; a refused write changes nothing |
| `Batching.FlushIff` | volga/streaming/runtime/network/local/data_writer.py:85-100 | a flush hands over everything pending if and only if there is anything and the transport takes it |
| `Batching.FlushLeavesNothing` | volga/streaming/runtime/network/local/data_writer.py:85-100 | after a flush with room in the queue all messages for which True was returned are in accepted batches |
| `Batching.WritesSendFullBatches` | volga/streaming/runtime/network/local/data_writer.py:63-83 | every batch that a write hands to the transport has batch_size messages |
| `Batching.StackStepKeeps` | volga/streaming/runtime/network/local/data_writer.py:63-100 | writes, flushes and transport steps in any order, with any backpressure, keep: accepted batches and pending batch make up the messages for which True was returned, and the pending batch is shorter than batch_size |
| `Batching.StackUsesTransport` | volga/streaming/runtime/network/local/data_writer.py:63-100 | every run of batchers and transport, of any length, is a run of the transfer protocol on batches |
| `Batching.StackPanicNeedsFullChannel` | volga/streaming/runtime/network/local/data_writer.py:63-100 | the transport panics only after some channel has accepted 2^31 batches |
| `Batching.MessagesArriveInOrder` | volga/streaming/runtime/network/local/data_writer.py:63-100 | end to end, for any number of writes, refusals and flushes as long as at most 2^31 batches were accepted on the channel: what the consumer has read, batch by batch, is a prefix of the messages for which True was returned |
| `Batching.FlushedMessagesAllArrive` | volga/streaming/runtime/network/local/data_writer.py:85-100 | end to end over lossless ordered links: once a channel is flushed and the links are drained, what was read is every message for which True was returned |
| `Multiplexing.MuxStepKeeps` | rust/src/network/remote_transfer_handler.rs:166-221 | every step of both handlers and the wire keeps each channel flow intact and never looks up an unknown id |
| `Multiplexing.MuxRunKeeps` | rust/src/network/remote_transfer_handler.rs:166-221 | the same for every run |
| `Multiplexing.ChannelsStayApart` | rust/src/network/remote_transfer_handler.rs:166-221 | in every run what comes out on a channel is a prefix of what went in, in order, unmixed; the rest is still queued |
| `MuxPipe.SomeMove` | rust/src/network/remote_transfer_handler.rs:166-221 | if something is on its way through the shared link and nothing waits at its end, something moves |
| `RemoteLink.StepSimulates` | rust/src/network/remote_transfer_handler.rs:166-221 | every step of the protocol over the shared link, on bytes and with acks going back, is a step over FIFO links or a move that does not show there |
| `RemoteTheorems.RemoteRefines` | rust/src/network/remote_transfer_handler.rs:166-221 | every run of remote channels is a run over FIFO links with the same channels and output |
| `RemoteTheorems.RemoteExactlyOnce` | rust/src/network/remote_transfer_handler.rs:166-221 | remote channels deliver what was accepted, each buffer once and in order, and hold nothing out of order |
| `RemoteTheorems.SomeRemoteStep` | rust/src/network/remote_transfer_handler.rs:166-221 | with all queues of positive size remote channels cannot deadlock: while anything is left to do, some step is possible |
| `RemoteTheorems.RemoteBuffersGetThrough` | rust/src/network/remote_transfer_handler.rs:166-221 | after any run with fewer than 2^31 buffers accepted per channel, the steps without pushes are bounded, and where they stop every accepted buffer of every remote channel has been read and every queue is empty |
| `TransferHandler.PassIsRun` | rust/src/network/remote_transfer_handler.rs:166-189 | a turn of the output loop over all channels is a stretch of such a run |
| `TransferHandler.RemoteTransferHandler.OutputTurn` | rust/src/network/remote_transfer_handler.rs:174-187 | the loop over the channels has the effect of forwarding one buffer of each, where there is one and room for it |
| `TransferHandler.RemoteTransferHandler.TakeNext` | rust/src/network/remote_transfer_handler.rs:206-210 | receives the next buffer and looks up its channel; the lookup fails exactly when the model panics, which is never in a run |
| `TransferHandler.RemoteTransferHandler.SendOn` | rust/src/network/remote_transfer_handler.rs:211-215 | the received buffer goes to its local queue, or waits while that is full |
| `TransferHandler.RemoteTransferHandler.InputTurn` | rust/src/network/remote_transfer_handler.rs:203-219 | a turn of the input loop is these two steps |
| `Packing.SerializeMsgBytes` | volga/streaming/runtime/network_deprecated/buffer/serialization/buffer_serializer.py:39-60 | header, buffer id, payload size and message, or the error for a long channel id or a buffer above the size; without header, the message alone |
| `Packing.GetPayload` | volga/streaming/runtime/network_deprecated/buffer/serialization/buffer_serializer.py:83-95 | the loop over the offset reads the messages that the recursive parser reads, for any bytes |
| `Packing.PayloadRoundTrip` | volga/streaming/runtime/network_deprecated/buffer/serialization/buffer_serializer.py:39-95 | get_payload returns exactly the ids and bytes packed, in order |
| `Packing.PackLayout` | volga/streaming/runtime/network_deprecated/buffer/serialization/buffer_serializer.py:69-81 | every packed buffer starts with the channel id, padded with blanks to 16 bytes, and the header getters find buffer id and payload size in it |
| `Packing.AppendIsPack` | volga/streaming/runtime/network_deprecated/buffer/serialization/buffer_serializer.py:98-108 | appending in place to a packed buffer gives the packed buffer of one more message with the same header |
| `Packing.AppendLengthBound` | volga/streaming/runtime/network_deprecated/buffer/serialization/buffer_serializer.py:98-108 | the length after an append is at most buffer_size + len(varint(buffer_size)) - 1 |
| `PackedQueue.AppendKeeps` | volga/streaming/runtime/network_deprecated/buffer/buffer_queues.py:46-82 | appending, into the last buffer or a new one, keeps the queue invariant and never touches a scheduled buffer |
| `PackedQueue.AppendIs` | volga/streaming/runtime/network_deprecated/buffer/buffer_queues.py:46-82 | a message joins the last buffer exactly if the policy fills buffers, that one was not cut and has room; else it starts a buffer if there is memory and it fits, and otherwise which of the two refusals it gets; the new queue in each case |
| `PackedQueue.ScheduleKeeps` | volga/streaming/runtime/network_deprecated/buffer/buffer_queues.py:84-107 | scheduling never finds its index past the end and hands out the next buffer id |
| `PackedQueue.ScheduleIff` | volga/streaming/runtime/network_deprecated/buffer/buffer_queues.py:84-107 | a buffer is handed out if and only if one is left and another is left too, or the policy is per message, or it is quiet; the buffer is cut exactly if it is the last and the policy fills buffers |
| `PackedQueue.EverythingIsHandedOut` | volga/streaming/runtime/network_deprecated/buffer/buffer_queues.py:84-107 | as many quiet schedules as buffers are left hand out every message appended, in order |
| `PackedQueue.PopPrefix` | volga/streaming/runtime/network_deprecated/buffer/buffer_queues.py:109-123 | out-of-order pops remove exactly the longest requested prefix and give back its memory |
| `PackedQueue.PopRaisesIff` | volga/streaming/runtime/network_deprecated/buffer/buffer_queues.py:109-123 | a pop raises an error if and only if the requested prefix reaches beyond the buffers handed out, or no memory was ever acquired |
| `PackedQueue.PopSafe` | volga/streaming/runtime/network_deprecated/buffer/buffer_queues.py:109-123 | pops of handed-out buffers raise nothing |
| `PackedQueue.RunKeeps` | volga/streaming/runtime/network_deprecated/buffer/buffer_queues.py:46-123 | the invariant holds after every interleaving of append, schedule and pop |
| `PackedQueue.ScheduledIsAPrefix` | volga/streaming/runtime/network_deprecated/buffer/buffer_queues.py:46-123 | under both policies a scheduled buffer is never modified, and the messages of the scheduled buffers are a prefix of those appended, numbered 0, 1, 2, ... |
| `PackedQueue.BuffersStaySmall` | volga/streaming/runtime/network_deprecated/buffer/buffer_queues.py:46-82 | in every run no buffer outgrows buffer_size + len(varint(buffer_size)) - 1 |
| `BufferQueues.BufferMemoryTracker.TryAcquire` | volga/streaming/runtime/network_deprecated/buffer/buffer_memory_tracker.py:62-75 | succeeds exactly if enough remains, where a new key starts with the capacity of its kind, and then takes it |
| `BufferQueues.BufferMemoryTracker.Release` | volga/streaming/runtime/network_deprecated/buffer/buffer_memory_tracker.py:77-83 | gives back to a known key, fails on an unknown one |
| `BufferQueues.ChannelQueue.AppendMsg` | volga/streaming/runtime/network_deprecated/buffer/buffer_queues.py:46-82 | on bytes: the outcome, queue, counters and memory of the queue of packs, and the bytes are those of the packs |
| `BufferQueues.ChannelQueue.ScheduleNext` | volga/streaming/runtime/network_deprecated/buffer/buffer_queues.py:84-107 | on bytes: the buffer handed out, index, cut flag and error of the queue of packs |
| `BufferQueues.ChannelQueue.Pop` | volga/streaming/runtime/network_deprecated/buffer/buffer_queues.py:109-123 | on bytes: the loop pops what the queue of packs pops, or stops with its error |
| `RetryingWriter.AppendConservesIff` | volga/streaming/runtime/network_deprecated/buffer/buffer_queues.py:46-82 | an append keeps queue length plus remaining capacity if and only if it does not leak: have to start a buffer, find memory for it, and be too big |
| `RetryingWriter.StepKeeps` | volga/streaming/runtime/network_deprecated/transfer/local/data_writer.py:111-186 | writes, sends, resends and any acks keep the writer invariant and raise none of its errors |
| `RetryingWriter.SendIff` | volga/streaming/runtime/network_deprecated/transfer/local/data_writer.py:111-153 | a buffer goes into flight if and only if the limit is not exceeded and the queue has one to hand out; it is the next one |
| `RetryingWriter.InFlightBounded` | volga/streaming/runtime/network_deprecated/transfer/local/data_writer.py:111-153 | in every run at most one buffer more than the limit is in flight |
| `RetryingWriter.AcksTakeEffect` | volga/streaming/runtime/network_deprecated/transfer/local/data_writer.py:155-186 | after a batch of acks exactly the buffers it does not name are still in flight |
| `RetryingWriter.AllAckedAllFreed` | volga/streaming/runtime/network_deprecated/transfer/local/data_writer.py:155-186 | when nothing is in flight, everything handed out has left the queue, in whatever order acks came |
| `RetryingWriter.NoFaultAndMemoryConserved` | volga/streaming/runtime/network_deprecated/transfer/local/data_writer.py:111-186 | in every run no internal error is reachable, and queue, remaining capacity and capacity lost to refused messages make up the channel capacity |
| `RetryingWriter.MemoryConservedIfAllFit` | volga/streaming/runtime/network_deprecated/buffer/buffer_queues.py:46-123 | if every message written fits a buffer, with ids as large as the run is long, queue length plus remaining capacity is the channel capacity |
| `RetryingWriter.MemoryConservedIff` | volga/streaming/runtime/network_deprecated/buffer/buffer_queues.py:46-123 | for any run, it is if and only if no write of the run leaks in the state it meets |
| `RetryingWriter.OversizedWriteLeaks` | volga/streaming/runtime/network_deprecated/buffer/buffer_queues.py:68-73 | on a fresh channel any message too big for the buffers loses a unit of capacity |
| `RetryingWriter.LeakingRun` | volga/streaming/runtime/network_deprecated/buffer/buffer_queues.py:68-73 | a concrete run that ends with an empty queue and no capacity |
| `RetryingDataWriter.DataWriter.WriteMessage` | volga/streaming/runtime/network_deprecated/transfer/local/data_writer.py:82-109 | one append attempt, as the model says |
| `RetryingDataWriter.DataWriter.Send` | volga/streaming/runtime/network_deprecated/transfer/local/data_writer.py:111-153 | sends a buffer that has timed out again and renews its time, or below the limit sends the next one of the queue as its bytes and puts it in flight with the time; the duplicate-id error is never raised |
| `RetryingDataWriter.DataWriter.Rcv` | volga/streaming/runtime/network_deprecated/transfer/local/data_writer.py:155-186 | for any batch of acks, those in flight are landed and popped, others ignored; neither the id mismatch nor any queue error is raised |
| `GraphBuilder.JobGraphBuilder.ProcessStream` | volga/streaming/api/job_graph/job_graph_builder.py:32-95 | the recursion adds the stream and everything upstream of it, with their edges, and keeps what was there |
| `GraphBuilder.JobGraphBuilder.Build` | volga/streaming/api/job_graph/job_graph_builder.py:27-31 | the graph has exactly the streams upstream of the sinks and exactly their input edges; it is well formed |
| `GraphBuilder.BuiltGraph` | volga/streaming/api/job_graph/job_graph_builder.py:32-95 | built graphs meet what the optimiser needs: edges go from smaller to larger ids, at most one between two vertices, sources are the vertices without inputs |
| `GraphBuilder.StreamIsVertex` | volga/streaming/api/job_graph/job_graph_builder.py:32-95 | type, parallelism and operator of the vertex of each kind of stream |
| `GraphBuilder.InputsAreEdges` | volga/streaming/api/job_graph/job_graph_builder.py:32-95 | a stream has one edge for each input, with the partition of the input; the right input of a join is marked unless it is the left one too |
| `Chains.ChainIsPath` | volga/streaming/api/job_graph/job_graph_optimizer.py:46-95 | a chain is a path of chainable edges that cannot be prolonged |
| `Chains.ChainedIff` | volga/streaming/api/job_graph/job_graph_optimizer.py:87-95 | an edge is chained if and only if it is forward, joins equal parallelism and is the only edge out of its source and into its target |
| `Chains.ChainsPartitionVertices` | volga/streaming/api/job_graph/job_graph_optimizer.py:46-95 | every vertex lies in exactly one chain, once |
| `Chains.UnchainedEdge` | volga/streaming/api/job_graph/job_graph_optimizer.py:73-95 | an edge that is not chained goes from the tail of a chain to the head of a chain |
| `GraphOptimizer.JobGraphOptimizer.DivideVertices` | volga/streaming/api/job_graph/job_graph_optimizer.py:46-85 | the recursion terminates, completes the chain of its head, records its tail edges and finishes every chain it opens |
| `GraphOptimizer.JobGraphOptimizer.Optimize` | volga/streaming/api/job_graph/job_graph_optimizer.py:27-44 | all chains of the graph are found, and the result is the graph merged along them |
| `GraphOptimizer.JobGraphOptimizer.MergeVertices` | volga/streaming/api/job_graph/job_graph_optimizer.py:115-136 | one vertex per chain, with the operators of the chain |
| `GraphOptimizer.JobGraphOptimizer.ResetEdges` | volga/streaming/api/job_graph/job_graph_optimizer.py:97-113 | the tail edges of all chains, stably sorted so that join-right edges come last |
| `GraphOptimizer.EveryHeadReached` | volga/streaming/api/job_graph/job_graph_optimizer.py:27-65 | the traversal from the sources reaches every chain head |
| `GraphOptimizer.EdgesCorrespond` | volga/streaming/api/job_graph/job_graph_optimizer.py:73-113 | the new edges are exactly the images of the edges not chained: tail to head, join-right flag kept, forward turned to round robin and other partitions kept |
| `GraphOptimizer.RewireInjective` | volga/streaming/api/job_graph/job_graph_optimizer.py:97-113 | different unchained edges have different images |
| `GraphOptimizer.OptimizedGraph` | volga/streaming/api/job_graph/job_graph_optimizer.py:27-143 | the result has one vertex per chain head, is acyclic with edges that increase ids, at most one between two vertices |
| `GraphOptimizer.ChainsAreForward` | volga/streaming/api/job_graph/job_graph_optimizer.py:87-95 | neighbours in a chain have equal parallelism and are joined by a forward edge that is the only one out of the first and into the second |
| `GraphOptimizer.ForwardPairsAreMerged` | volga/streaming/api/job_graph/job_graph_optimizer.py:46-136 | conversely, the ends of every forward edge between equal parallelisms that is the only one out of the first and into the second are neighbours among the operators of one new vertex, and its target is no vertex any more |
| `GraphOptimizer.OtherEdgesStay` | volga/streaming/api/job_graph/job_graph_optimizer.py:73-113 | every other edge leads to a vertex of the new graph and has an edge there |
| `GraphOptimizer.NewEdgeIs` | volga/streaming/api/job_graph/job_graph_optimizer.py:97-143 | field by field, what a new edge is: it starts at the vertex whose last operator is the old source, keeps target, operators and join-right flag, and turns forward to round robin |
| `GraphOptimizer.SortIsStable` | volga/streaming/api/job_graph/job_graph_optimizer.py:97-113 | sorting by the join-right flag loses no edge and keeps the order within each kind |
| `Chaining.ChainingPreservesMeaning` | volga/streaming/api/operators/chained.py:21-30 | pushing records one by one depth first through any stateful operators gives the outputs and final states of running each operator over the whole output of the one before |
| `Chaining.ChainedOperator.Process` | volga/streaming/api/operators/chained.py:87-93 | the nested calls between collectors compute the depth-first push |
| `GraphMeaning.ChainMeaning` | volga/streaming/api/operators/chained.py:12-93 | a chain on the input of its first vertex emits what its last vertex emits in the unchained graph |
| `GraphMeaning.OptimizerPreservesMeaning` | volga/streaming/api/job_graph/job_graph_optimizer.py:27-143 | every vertex of the optimised graph emits what the tail of its chain emits in the original graph, for any deterministic operators with state |
| `ExecutionGraph.FromJobGraph` | volga/streaming/runtime/core/execution_graph/execution_graph.py:122-146 | the nested loops produce every source and target instance pair of every job edge, in order, forward turned to round robin for several targets |
| `ExecutionGraph.GroupChannels` | volga/streaming/runtime/worker/task/stream_task.py:99-107 | the grouping loop collects per target operator its channels in order, and the partition of the last of its edges |
| `ExecutionGraph.PartitionOfEdge` | volga/streaming/runtime/core/execution_graph/execution_graph.py:131-141 | that partition is the one of the single job edge to the target, with forwarding to several instances turned to round robin |
| `ExecutionGraph.ChannelsInOrder` | volga/streaming/runtime/core/execution_graph/execution_graph.py:122-146 | each source instance has channels to all instances of a target operator, once, by instance index |
| `ExecutionGraph.SameKeySameInstance` | volga/streaming/runtime/worker/task/stream_task.py:99-113 | in any graph with at most one edge between two vertices, all source instances route a key to the same target instance, the one that differs from its hash, or from minus a negative hash, by a multiple of their number |
| `Routing.KeyEdgeSurvives` | volga/streaming/api/context/streaming_context.py:97-104 | in the optimised graph every key edge is there, from the chain of its source, and its instances send over it by key to the instance that differs from the hash by a multiple of their number |
| `Routing.ReceivedIsRouted` | volga/streaming/runtime/core/collector/output_collector.py:21-36 | whatever the instances of a vertex send by key, each over its own channels, a target instance receives of all of it what the key partition routes to it |
| `Routing.JoinInGraph` | volga/streaming/runtime/core/execution_graph/execution_graph.py:122-146 | a join in the execution graph, fed by the instances of both inputs over their channels and in any interleaving, emits the equi-join of all their records |
| `Distribution.RoundRobin.Next` | volga/streaming/api/partition/partition.py:49-52 | the n-th record goes to instance n modulo the number of instances |
| `Distribution.RoundRobinIsEven` | volga/streaming/api/partition/partition.py:49-52 | how many of n records each instance gets: the quotient, and the first instances from 1 on one more |
| `Distribution.DealtSplits` | volga/streaming/api/partition/partition.py:33-63 | under the key, round-robin and forward partitions every record goes to exactly one instance |
| `Splitting.StatelessSplits` | volga/streaming/api/operators/operators.py:233-256 | the outputs of a map, filter, flat map or key-by do not depend on the order of its inputs and add up over any division of them |
| `JoinSplitting.JoinMaySplit` | volga/streaming/api/operators/operators.py:317-352 | the outputs of a join do not depend on the order of its inputs and add up over any division of them by key |
| `ParallelMeaning.ExecutesOptimized` | volga/streaming/runtime/core/execution_graph/execution_graph.py:99-146 | the executions spoken of are those of the optimised and expanded graph: its chains, parallelism and partitions |
| `ParallelMeaning.ParallelPreservesMeaning` | volga/streaming/api/context/streaming_context.py:97-104 | for every such execution of a job whose operators may be split, the instances of every vertex of the optimised graph together emit, as a multiset, what the last operator of its chain emits in the original graph with one instance each |
| `ParallelJobs.JobsRunInParallel` | volga/streaming/api/context/streaming_context.py:97-104 | so do all jobs of maps, filters, flat maps, key-bys and joins behind key edges |
| `KeyedRouting.KeyedInGraph` | volga/streaming/runtime/core/execution_graph/execution_graph.py:122-146 | a keyed operator in the execution graph, reduce and windows included: if the records of a key come from one instance, the instance of the key emits for it what a single instance would, in order, however the channels are merged |
| `KeyedRouting.KeyedInOptimizedGraph` | volga/streaming/api/context/streaming_context.py:97-104 | the same over a key edge of the optimised graph whose source has one instance |
| `KeyedRouting.ReduceDependsOnOrder` | volga/streaming/api/operators/operators.py:269-279 | if they come from two instances, two arrival orders make a reduce emit different multisets, whatever its function |
| `KeyedJoin.JoinOperator.ProcessElement` | volga/streaming/api/operators/operators.py:317-352 | stores the record on its side and emits its pairs with the other side, in order |
| `KeyedJoin.JoinEmitsInOrder` | volga/streaming/api/operators/operators.py:317-352 | after any records, a record is emitted once with each record of its key from the other side, in the order of their arrival and with the left time |
| `KeyedJoin.JoinIsEquiJoin` | volga/streaming/api/operators/operators.py:317-352 | for any interleaving of left and right records the emitted values and times are, as a multiset, the equi-join with the left time |
| `KeyedJoin.KeyPartitionSelects` | volga/streaming/api/partition/partition.py:33-39 | a key goes to an instance if and only if that differs from its hash by a multiple of the number of instances, a negative hash counted backwards |
| `KeyedJoin.EveryInstanceSelected` | volga/streaming/api/partition/partition.py:33-39 | every instance is selected by some positive and some negative hash |
| `KeyedJoin.ParallelJoinIsEquiJoin` | volga/streaming/api/partition/partition.py:33-39 | with any number of instances behind a partition by key and any interleaving at each, the union of what they emit is the equi-join of the whole inputs |
| `KeyedJoin.EquiJoinCounts` | volga/streaming/api/operators/operators.py:339-352 | an output occurs in the equi-join once for every pair of positions with equal keys that gives it |
| `KeyedOperators.KeysAreIndependent` | volga/streaming/api/operators/operators.py:269-279 | a keyed operator treats the records of a key as if there were no others |
| `KeyedOperators.ParallelIsSequential` | volga/streaming/api/partition/partition.py:33-39 | behind a partition by key, the instance of a key emits for it what a single instance would, in order; other instances emit nothing for it |
| `KeyedOperators.RoutedGetsKey` | volga/streaming/api/partition/partition.py:33-39 | routing by key delivers all records of a key, in order, to one instance |
| `KeyedOperators.ReduceEmitsFolds` | volga/streaming/api/operators/operators.py:269-279 | the first output for a key is its first record, the i-th the fold of its first i values with the time of the i-th record |
| `KeyedOperators.ReduceOperator.ProcessElement` | volga/streaming/api/operators/operators.py:269-279 | the dictionary and the emitted records are those of the keyed run on all records so far |
| `SlidingWindows.InsertRightAt` | volga/streaming/api/operators/window_operator.py:67-68 | sorted insertion puts the record behind all that are not newer |
| `SlidingWindows.EvictIs` | volga/streaming/api/operators/window_operator.py:70-72 | eviction keeps exactly the records within the length of the newest, in order, and never empties the window |
| `SlidingWindows.StepKeepsWindow` | volga/streaming/api/operators/window_operator.py:65-72 | one more record, early or late, keeps the window what it should be |
| `SlidingWindows.WindowHoldsRecent` | volga/streaming/api/operators/window_operator.py:65-72 | after any records in any order of event time, the window holds the records within its length of the newest, sorted by time, equal times in order of arrival |
| `WindowAggregates.Accumulator.Add` | volga/streaming/api/function/aggregate_function.py:58-95 | the branches update the accumulator as specified |
| `WindowAggregates.FoldIsAggregate` | volga/streaming/api/function/aggregate_function.py:58-95 | folding any values gives their count, total, mean, least or greatest value |
| `WindowAggregates.Apply` | volga/streaming/api/function/window_function.py:21-26 | the loop returns the direct aggregate of the records given |
| `WindowAggregates.WindowIsRecent` | volga/streaming/api/operators/window_operator.py:65-72 | the window is, as a multiset, the records seen within its length of the newest |
| `WindowAggregates.EmitsAggregateOfRecent` | volga/streaming/api/operators/window_operator.py:65-77 | what is emitted is the direct aggregate of those records |
| `WindowOperator.InsortRight` | volga/streaming/api/operators/window_operator.py:67-68 | the binary search inserts where the simple insertion does |
| `WindowOperator.UpdateWindow` | volga/streaming/api/operators/window_operator.py:67-72 | insertion and the popping loop compute the next window |
| `WindowOperator.AdvanceAll` | volga/streaming/api/operators/window_operator.py:64-77 | all windows are advanced and emit the aggregates of their recent records; the duplicate-name error is raised if and only if two names are equal, with the windows up to the repeated one already advanced |
| `WindowOperator.MultiWindowOperator.ProcessElement` | volga/streaming/api/operators/window_operator.py:55-83 | the same for the windows of the key of the record; without an output function the aggregates go out under the time of the record, with one they are what it makes of them; other keys are untouched |
| `WindowOperator.EmittedUnderName` | volga/streaming/api/operators/window_operator.py:55-83 | each aggregate is under the name given to its window, or else under the default name |
| `NodeAssignment.ResourcesConserved` | volga/streaming/runtime/master/resource_manager/resource_manager.py:37-49 | for any placements that each fit what is left: initial equals remaining plus assigned, for every node and resource, and nothing falls below zero |
| `NodeAssignment.AcquireConserves` | volga/streaming/runtime/master/resource_manager/resource_manager.py:37-49 | where there is enough, the assertions of an acquisition hold |
| `NodeAssignment.EnoughIff` | volga/streaming/runtime/master/resource_manager/node_assign_strategy.py:16-28 | a node has enough if and only if all that is asked for is there and acquiring it leaves nothing below zero; an exact fit is enough |
| `NodeAssignment.RoundsListAll` | volga/streaming/runtime/master/resource_manager/node_assign_strategy.py:53-69 | round by round every instance is listed once if and only if there are as many rounds as the largest parallelism |
| `NodeAssignment.RowsListAll` | volga/streaming/runtime/master/resource_manager/node_assign_strategy.py:104-113 | operator by operator every instance is listed once |
| `NodeAssignment.RoundsInOrder` | volga/streaming/runtime/master/resource_manager/node_assign_strategy.py:53-69 | the first strategy goes by instance index, and for one index by operator |
| `NodeAssignment.RowsInOrder` | volga/streaming/runtime/master/resource_manager/node_assign_strategy.py:104-113 | the second goes by operator, and for one operator by index |
| `NodeStrategies.Node.AllocateExecutionVertex` | volga/streaming/runtime/master/resource_manager/resource_manager.py:37-49 | fails exactly if a requested resource is absent; otherwise each requested one is reduced |
| `NodeStrategies.ParallelismFirst.FindMatchedNode` | volga/streaming/runtime/master/resource_manager/node_assign_strategy.py:38-45 | moves the cursor to the first node from it on that has enough |
| `NodeStrategies.ParallelismFirst.AssignResources` | volga/streaming/runtime/master/resource_manager/node_assign_strategy.py:47-71 | places the instances round by round, each on the first node with enough left from the node of the one before on, and leaves exactly the rest; on failure the next instance fits no node ahead |
| `NodeStrategies.NodesInOrder` | volga/streaming/runtime/master/resource_manager/node_assign_strategy.py:38-45 | so no node is returned to once it was passed |
| `NodeStrategies.OperatorFirst.FindMatchedNode` | volga/streaming/runtime/master/resource_manager/node_assign_strategy.py:80-93 | finds the first node that has enough and is free or the operator's own, and records the owner |
| `NodeStrategies.OperatorFirst.AssignResources` | volga/streaming/runtime/master/resource_manager/node_assign_strategy.py:95-115 | places the instances operator by operator, each on the first node with enough left among those free or the operator's own; no node serves two operators; on failure the next instance fits no node it may use |
| `NodeStrategies.EveryInstanceOnce` | volga/streaming/runtime/master/resource_manager/node_assign_strategy.py:62-71 | on success of either strategy every instance has exactly one node, and the answer names it |
| `SplitEnumerator.WordCountSplitEnumerator.constructor` | volga/streaming/runtime/sources/wordcount/source.py:12-15 | every word of the dictionary once, with its count |
| `SplitEnumerator.WordCountSplitEnumerator.PollNextSplit` | volga/streaming/runtime/sources/wordcount/source.py:24-46 | terminates; end of input exactly when nothing is left; otherwise a split of min(limit, remaining) messages taken from the words in rounds and from the counts |
| `SplitEnumerator.WordsConserved` | volga/streaming/runtime/sources/wordcount/source.py:24-46 | after any polls, what is left of a word and what was handed out of it make up its count |
| `SplitEnumerator.PollsTakeTheLimit` | volga/streaming/runtime/sources/wordcount/source.py:30-44 | p polls take p times the limit, or everything |
| `SplitEnumerator.AllHandedOut` | volga/streaming/runtime/sources/wordcount/source.py:24-46 | polling until nothing is left hands out each word exactly as often as it was counted |
| `SplitEnumerator.NoLimitTakesAll` | volga/streaming/runtime/sources/wordcount/source.py:24-46 | with a negative limit one poll takes everything |
| `SplitEnumerator.SplitIsEven` | volga/streaming/runtime/sources/wordcount/source.py:30-44 | of two words a split has at most one more of the earlier one, unless the other is used up |
| `SplitEnumerator.SkipIsCloser` | volga/streaming/runtime/sources/wordcount/source.py:30-37 | skipping a used-up word comes closer to one that is left, going round; this is why a poll ends |

## Left out

- ZeroMQ sockets, threads, monitors, Ray actors, metrics and statistics: input and output or reporting only.
- Clocks: timeouts, flush periods and quiet times are parameters or free choices of a run; the blocking retry loops of `write_bytes` and `_write_message` are repeated attempts in a run.
- msgpack, JSON and bincode: batches, messages and ack bodies are opaque values.
- Wrap-around of the 32-bit buffer id sequence at 2^32, and wrapping arithmetic of a build without overflow checks: beyond 2^31 accepted buffers the reader loses buffers anyway.
- Dispatcher.DataReader.DispatchChannel: handles one channel at a time, the loop over the channels is any sequence of such calls; acks are their ids, framing them is `Framing.SerializeAck`.
- Multiplexing.ChannelsStayApart: one peer link and one direction; every channel belongs to one peer and links do not share queues. Both directions together are `RemoteTheorems`.
- BufferQueues.ChannelQueue.Pop: after an error only the error is stated, not the half-changed queue; a queue without a memory tracker and channel ids longer than the 16-byte header are not modelled.
- BufferQueues.ChannelQueue.AppendMsg: the buffer id in the answer is the one the code returns, which for an append in place is the id of the next buffer.
- RetryingDataWriter.DataWriter.Send: which of several timed-out buffers is sent again is left open; a failed send is not told from a successful one, as in the code's state.
- GraphMeaning.OptimizerPreservesMeaning: one instance per vertex, each run to the end of its input; how a vertex interleaves several inputs is an arbitrary function of them, told apart by sending operator. Parallel instances are `ParallelMeaning.ParallelPreservesMeaning`.
- ParallelMeaning.ParallelPreservesMeaning: for operators whose outputs, as a multiset, do not depend on the order of inputs. A reduce or a window emits what its order of arrival makes it emit (`KeyedRouting.ReduceDependsOnOrder`), and `KeyedRouting.KeyedInGraph` covers these where the records of a key come from one instance. Broadcast and user-defined partitions copy records and are excluded.
- Union streams: the builder's recursion on them revisits the first input, unfinished in the original.
- The choice of the left and right stream name of a two-input task: it follows the iteration order of a set; the events of the join carry their side.
- The dataset-level join function, which changes its inputs: the join function is pure.
- WindowOperator.MultiWindowOperator.ProcessElement: the text of a default name is given with the configuration; durations are not negative, as the duration parser guarantees.
- NodeStrategies.ParallelismFirst.AssignResources: vertices always have resources, as `set_resources` sees to; the combined totals are only for the error message.
- SplitEnumerator.WordCountSplitEnumerator.constructor: the count per word is a number that is not negative; without a count, or with a negative one, the original fails or never ends.
- Progress of the Rust protocol under loss or reordering: nothing is resent, and draining waits for a new buffer.
- Broadcast and user-defined routing, key indexes and storage, port generation and configuration: they would only add easy members.
- The abandoned variants under network_deprecated/experimental and network_deprecated/deprecated.
