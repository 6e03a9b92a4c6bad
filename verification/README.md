# nonchalant: a verified model of the media path

nonchalant takes live media over RTMP, fans it out through an in-memory stream bus, and serves it
as FLV over HTTP and WebSocket. This Dafny project models that path and proves what it promises.
`dafny verify dfyconfig.toml` checks all of it.

Each component is modelled in the form the code has: objects that change in place are classes,
loops are loops with invariants, and pure code is functions. Concurrent code is modelled twice, as
whole operations and as a step machine whose steps are single atomic loads, stores, adds and
swaps; a theorem about a step machine ranges over every schedule.

| files | part of the system |
|---|---|
| `Bits`, `Bytes` | power-of-two rings, masks, wrapped counters, fixed-width integers |
| `LogSteps`, `LogReads`, `RingSteps`, `LateJoin`, `Wake`, `Storage`, `ReadPath` | the bus under interleaving |
| `RingBuffer`, `Bus`, `Stream`, `Publish` | the bus with whole operations, and its publisher |
| `Chunks`, `ChunkParser` | the chunk parser, on values and in place |
| `ChunkFlow`, `Demux`, `Conversation`, `SizeChanges`, `Deltas`, `ExtTime`, `Session`, `Acks`, `Interleaved` | chunk writer, demultiplexing, in-band size changes, deltas, extended timestamps, acknowledgement |
| `Amf0`, `Amf0Command`, `Amf0Codec` | AMF0 values and commands, and the loops that read and write them |
| `Flv`, `Pipeline`, `FlvSubscribers` | FLV muxing, and the gate and rebase of the two subscriber loops |
| `WireFormat`, `Payloads` | the formats and payload tests as literal bytes |
| `Commands`, `Clients`, `ClientRuns`, `Relay` | the parts composed, from an RTMP client's messages and commands to an FLV player's tags |

## Main results

- A shared-log read under any interleaving returns one of three things, and the intended publish
  exactly when its store has landed and has not been lapped (`LogSteps.ExactReadIff`); a reader skips only
  when more than the log behind, and then to the oldest message held (`LogReads.SkipsOnlyWhenBehind`).
- Recycled message and payload storage never aliases inside the log window, iff the slab is larger
  than the log (`Storage.NeverAliasesIff`), and a message read there stays intact for a known number
  of further acquisitions, and no longer (`Storage.GracePeriod`, `Storage.GraceEnds`). Both together: a
  pointer fetched from the log says what its publish said until its slot is acquired again
  (`ReadPath.DereferenceHolds`).
- No interleaving leaves a late joiner without codec configuration, unless a publisher detached in between
  (`LateJoin.LateJoinersAreConfigured`, `LateJoin.ConfiguredUnlessDetached`).
- Wake channels close once; of the messages a parked subscriber has not read, exactly those whose swap
  fell between its empty read and its channel load were announced unheard (`Wake.MissedIff`).
- The older ring buffer is a lossless FIFO under interleaving iff it drops the newest
  (`RingSteps.LosslessIffDropNewest`), and a bounded queue past counter wrap when operations are atomic.
- Chunks of interleaved senders are separated exactly, for conformant senders in all formats
  (`Demux.DemuxFlows`) and for the server's own writer (`Conversation.Demultiplex`), in-band size
  changes are followed (`SizeChanges.DeliversTheList`), and the writer's own output reads back
  under an exact condition (`ExtTime.ReadsBackIff`).
- The acknowledgements a client reads back carry the bytes counted so far, one for each full window
  (`Acks.AcksReadBack`).
- AMF0 decoding undoes encoding iff the value is representable, whatever order maps yield
  (`Amf0.RoundTripIff`), and a command cut anywhere decodes to its whole values (`Amf0Command.CommandPrefix`).
- Both FLV loops write one closed form of the messages read (`FlvSubscribers.HttpSubscriber.ProcessMessages`,
  `FlvSubscribers.SameBytes`), which a player reads back (`FlvSubscribers.PlayerReads`).
- For any client, what is on the air follows from the list of its messages (`ClientRuns.LifeOfClient`,
  `ClientRuns.AirsNext`), and for one that connects, publishes and sends media, from its bytes
  (`Relay.PublishingClient`).
- Composed: whatever bytes a client sends and however the server's and a subscriber's turns interleave,
  what a player receives is the closed form of what went on the air, less what was counted as dropped,
  cut at what it accepts and not before; the order of turns bounds the drops (`Relay.EndToEnd`,
  `Relay.NothingLost`).

## Differences between code and documentation

The model follows the code. Each case below has a concrete run or an exact condition.

- `SharedLog.Publish` claims a sequence number before it stores the slot, so a reader can see nil or a
  message `size` older (`LogSteps.EmptySlotIsObservable`, `LogSteps.StaleSlotIsObservable`). A nil read
  before the first keyframe is dereferenced (`FlvSubscribers.PanicIff`).
- `ProcessMessages` loads the wake channel after its empty read, so a publish in between is not
  signalled until the next one (`Wake.LostWakeup`).
- Drop-oldest lets both sides move the read position and can lose a message (`RingSteps.RaceLoses`).
- `WriteChunk` omits the extended timestamp on continuation chunks while the parser expects it
  (`ExtTime.NeverDelivered`); it writes nothing for an empty body.
- `GetBytesReadForChunk` returns a running total, so a message in several chunks is counted at more
  than its length (`Sessions.CountedExactlyIff`).
- A message-starting format 3 after a format 0 reuses the older delta, and takes a repeated extended
  field as an absolute timestamp (`Deltas.RepeatAfterFull`, with a run in `Deltas.RepeatRun`).
- AMF0 strings and keys are cut to 16-bit lengths, an empty key reads as the end of an object, and
  strict arrays are written but not read (`Amf0.RoundTripIff`).
- A command that does not decode ends the connection, so media behind it is never read
  (`Commands.RejectedEnds`, with a run in `Commands.RejectedRun`).
- The doubling loop of the ring buffer ends iff the capacity is at most 2^31 (`Bits.DoublingEndsIff`),
  and the chunk writer's loop iff the chunk size is positive or the body empty (`Conversation.WriterEndsIff`).

## Model

| member | source | states |
|---|---|---|
| `Bits.MaskIsMod` | internal/core/bus/sharedlog.go:59-60 | `pos & (size-1)`, computed bit by bit, is the remainder by a power-of-two size |
| `Bits.RoundUpPow2` | internal/core/bus/sharedlog.go:39-49 | the doubling loop returns the least power of two not below the capacity, and terminates |
| `Bits.DoublingEndsIff` | internal/core/bus/ringbuffer.go:42-47 | in uint32 arithmetic the doubling loop ends iff the capacity is at most 2^31 |
| `LogSteps.RunKeepsInv` | internal/core/bus/sharedlog.go:54-97 | over every schedule of producer and reader atomics, each slot holds the last store that landed on it and every recorded read is explained by the stores landed at its slot load |
| `LogSteps.Occupant` | internal/core/bus/sharedlog.go:58-60 | which position occupies a slot after any number of stores: the position itself for one lap, the one `size` earlier before its own store, nothing on the first lap |
| `LogSteps.LapOccupant` | internal/core/bus/sharedlog.go:58-60 | a slot passed over holds the message a positive multiple of `size` later |
| `LogSteps.ExactStoreIff` | internal/core/bus/sharedlog.go:58-60 | which publish a slot shows, from the number of stores landed alone |
| `LogSteps.ReadOutcomes` | internal/core/bus/sharedlog.go:81-97 | every completed read of every interleaving returns the exact message, or nil or the message `size` earlier when claimed and not stored, or one a positive multiple of `size` later; told apart by the stores landed |
| `LogSteps.ExactReadIff` | internal/core/bus/sharedlog.go:81-97 | in every interleaving and for every history, recycled pointers included, a read at position `a` saw the store of that very publish iff the store had landed and no later one had hit the slot |
| `LogSteps.CursorConserved` | internal/core/bus/subscriber.go:43-60 | under every interleaving cursor minus attach position equals deliveries plus drops, delivered positions strictly increase, and no cursor passes the published end; which positions are skipped is `LogReads.SkipsOnlyWhenBehind` |
| `LogSteps.EmptySlotIsObservable` | internal/core/bus/sharedlog.go:54-61 | for every log size, a schedule in which a reader is handed nil, because the sequence number is claimed before the slot is stored |
| `LogSteps.StaleSlotIsObservable` | internal/core/bus/sharedlog.go:54-61 | for every log size, a schedule in which a reader is handed the message `size` older |
| `LogReads.EveryReaderTold` | internal/core/bus/sharedlog.go:81-97 | read off the schedule alone: where every reader attached, and at every delivery which load it made, what end it saw there and from which cursor |
| `LogReads.SkipsOnlyWhenBehind` | internal/core/bus/sharedlog.go:86-93 | over every schedule each delivery is at the cursor if the end claimed when it loaded was at most `size` further on, and otherwise exactly `size` before that end; the reads follow each other without a gap of their own |
| `LogReads.DroppedIsSkipped` | internal/core/bus/subscriber.go:43-60 | what is counted as dropped is the sum of what those reads passed over |
| `LogReads.NeverBehind` | internal/core/bus/sharedlog.go:86-93 | a reader never more than `size` behind at its loads drops nothing and reads every position in turn |
| `RingBuffers.WrappedDistance` | internal/core/bus/ringbuffer.go:66-71 | the uint32 difference of the two free-running counters is the true number of held messages, past any number of wraps |
| `RingBuffers.WrappedIndex` | internal/core/bus/ringbuffer.go:85-86 | a wrapped counter names the same slot as the unwrapped one, because a power-of-two size divides 2^32 |
| `RingBuffers.WrappedEqual` | internal/core/bus/ringbuffer.go:94-97 | wrapped counters are equal iff the ring is empty |
| `RingBuffers.NextWrapped` | internal/core/bus/ringbuffer.go:75-86 | the atomic add wraps exactly like the unbounded counter |
| `RingBuffers.WindowPush` | internal/core/bus/ringbuffer.go:85-86 | storing at the write position extends the window and spares every held message |
| `RingBuffers.PushAllKeeps` | internal/core/bus/ringbuffer.go:61-88 | writing any list with nobody reading leaves its last `size` messages under drop-oldest and its first `size` under drop-newest |
| `RingBuffers.RingBuffer.constructor` | internal/core/bus/ringbuffer.go:42-55 | capacity is rounded up to a power of two; the queue starts empty |
| `RingBuffers.RingBuffer.Write` | internal/core/bus/ringbuffer.go:61-88 | the held queue becomes the bounded-queue push under either strategy, the flag says whether the message was accepted, and the drop counter moves exactly when the ring was full |
| `RingBuffers.RingBuffer.Place` | internal/core/bus/ringbuffer.go:82-87 | the slot and position stores append exactly one message |
| `RingBuffers.RingBuffer.Read` | internal/core/bus/ringbuffer.go:93-105 | returns and removes the oldest held message, or reports empty iff none is held |
| `RingBuffers.RingBuffer.Available` | internal/core/bus/ringbuffer.go:113-118 | free plus held is the size, and accepted = read + held + evicted |
| `RingSteps.StepRefinesFifo` | internal/core/bus/ringbuffer.go:61-105 | with drop-newest, each atomic step of a reachable state is one bounded-queue step or invisible; a write is refused, and counted, iff the queue is full as it checks, a read turns away iff it is empty, and every other step moves its side on |
| `RingSteps.RunKeepsInv` | internal/core/bus/ringbuffer.go:61-105 | the refinement invariant holds in every interleaving of one producer and one consumer |
| `RingSteps.DropNewestIsFifo` | internal/core/bus/ringbuffer.go:61-105 | over every schedule the i-th read returns the i-th accepted write: none lost, repeated or overwritten |
| `RingSteps.UndisturbedWrite` | internal/core/bus/ringbuffer.go:61-88 | under either strategy the atomic steps of a write that nobody interrupts are one push of the bounded queue, counted as a drop iff it was full |
| `RingSteps.RaceLoses` | internal/core/bus/ringbuffer.go:71-76 | with drop-oldest both sides add to the read position: for every size there is a schedule that passes over an accepted message, neither delivered nor dropped |
| `RingSteps.LosslessIffDropNewest` | internal/core/bus/ringbuffer.go:61-105 | no interleaving loses a message iff the strategy is drop-newest |
| `LateJoin.RunKeepsInv` | internal/core/bus/stream.go:190-254 | with caching, log claim, cursor load and cache snapshot as separate steps, the cache holds the newest uncleared init message of each kind and every subscriber stays configured |
| `LateJoin.LateJoinersAreConfigured` | internal/core/bus/stream.go:190-254 | in every run each init message is, for each subscriber, ahead of its cursor, in its pending queue, superseded there by a newer one of its kind, or older than the last publisher detach before that subscriber's snapshot, as the schedule itself tells |
| `LateJoin.ConfiguredUnlessDetached` | internal/core/bus/stream.go:190-254 | in a schedule without a detach no subscriber is left without configuration that was published |
| `LateJoin.ClearedIsDetached` | internal/core/bus/stream.go:169-176 | over every schedule, how much of what was issued a detach has cleared is told by the last detach that found the lock free, and is nothing if there was none |
| `LateJoin.SubscribedAt` | internal/core/bus/stream.go:190-212 | over every schedule, each subscriber has the cursor of its own attach, and the cache and the clearance at its own snapshot |
| `LateJoin.OnlyDetachClears` | internal/core/bus/stream.go:169-176 | no step but a detach removes a cache entry |
| `LateJoin.PendingIsCurrent` | internal/core/bus/stream.go:190-212 | what is pending is configuration issued since the last detach before the snapshot, at most one of each kind, in the order metadata, video, audio |
| `LateJoin.PublishThenAttach` | internal/core/bus/stream.go:190-238 | undisturbed, a publish is issued and claimed, and who attaches next starts behind it with the message in hand if it is configuration |
| `LateJoin.AtMostOneSeenTwice` | internal/core/bus/stream.go:190-212 | only the one init message in flight at attach can be both pending and ahead of the cursor |
| `Wake.RunKeepsInv` | internal/core/bus/stream.go:112-125 | channel ownership and wait positions are invariant over every race of publishers and subscribers |
| `Wake.RunKeepsAnnounced` | internal/core/bus/stream.go:119-125 | over every schedule each claimed position has exactly one swap, made or still to come |
| `Wake.EveryChannelClosesOnce` | internal/core/bus/stream.go:119-125 | in every reachable state a channel has been closed at most once, the current one never, and every open retired channel has exactly one publisher that will close it |
| `Wake.ParkedChannelIsNextRetired` | internal/core/bus/stream.go:112-125 | the channel a subscriber loaded is the one the first later swap retires, and it is closed or about to be |
| `Wake.MissedIff` | internal/svc/httpflv/subscriber.go:92-101 | publish by publish, for a subscriber parked on the current channel: the broadcast of an unread message was missed iff its swap fell between the empty read and the load; every other one is still to come |
| `Wake.StrandedIff` | internal/svc/httpflv/subscriber.go:92-101 | a parked subscriber has an unread message that nobody is going to announce iff no swap followed its load and one for an unread message fell between its empty read and the load |
| `Wake.NextBroadcastReleases` | internal/core/bus/stream.go:119-125 | the next broadcast closes the channel of a parked subscriber and wakes it |
| `Wake.ReleasedByNextBroadcast` | internal/core/bus/stream.go:119-125 | in every reachable state, once the broadcast that swapped after its load has closed its channel, a parked subscriber can run, however others interleave |
| `Wake.LostWakeup` | internal/svc/httpflv/subscriber.go:92-101 | from any caught-up state there is a schedule that parks the subscriber with unread data |
| `Wake.ParkedUntilClosed` | internal/svc/httpflv/subscriber.go:92-101 | over every schedule, as long as its channel is open a parked subscriber reads nothing |
| `Wake.CatchesUp` | internal/svc/httpflv/subscriber.go:92-101 | a released subscriber reads to the end of what is published, one message a step |
| `Storage.RunKeepsInv` | internal/core/bus/stream.go:140-148 | the slab, arena and log invariant holds after every step of the acquire, describe, buy, fill, emit discipline, for any number of wraps |
| `Storage.NoAliasingInWindow` | internal/svc/rtmp/publish.go:33-82 | with more slab slots than log slots, every message in the log window reads back type, timestamp, flag and bytes as published, between any two steps |
| `Storage.GracePeriod` | internal/core/bus/arena.go:51-60 | a message read in the window, at any point of a publish, stays intact for `arenaSlots - logSize` further acquisitions, wherever the producer then is |
| `Storage.IntactUntilReused` | internal/core/bus/stream.go:140-148 | a message the slab still holds stays intact until the acquisition that reuses its slot |
| `Storage.GraceEnds` | internal/core/bus/stream.go:140-148 | that acquisition blanks it: it then reads back iff it was published blank |
| `Storage.NeverAliasesIff` | internal/core/bus/stream.go:94-106 | no run aliases iff the log is smaller than the slab |
| `Storage.SmallSlabAliases` | internal/core/bus/stream.go:140-148 | with a slab no larger than the log, a concrete run shows a reader a blanked message |
| `Storage.RunKeepsTickets` | internal/core/bus/arena.go:51-60 | over every schedule arena tickets are handed out in order, exactly one to each payload that fits a slot and none to any other |
| `ReadPath.RunKeepsInv` | internal/svc/rtmp/publish.go:33-47 | log and storage as one machine, the claim and the slot store of a publish as separate steps: what has landed in the log is what storage has issued, whatever readers do |
| `ReadPath.DereferenceHolds` | internal/core/bus/subscriber.go:43-60 | on every schedule and at every moment, a pointer some read returned says what the publish at the stored position said, as long as that publish's slab slot has not been acquired again |
| `ReadPath.DereferenceEnds` | internal/core/bus/stream.go:140-148 | the acquisition that reuses the slot blanks the message behind it |
| `Bus.SharedLog.constructor` | internal/core/bus/sharedlog.go:39-49 | size is the rounded capacity; history empty |
| `Bus.SharedLog.Publish` | internal/core/bus/sharedlog.go:54-61 | appends to the unbounded history (nil is ignored) and keeps the ring equal to its last `size` entries |
| `Bus.SharedLog.ReadAt` | internal/core/bus/sharedlog.go:81-97 | reads exactly like a cursor over the whole history that skips forward only when more than `size` behind |
| `Bus.ReadRule` | internal/core/bus/sharedlog.go:86-96 | a cursor at most `size` behind reads on where it is; one further behind is moved to the message `size` before the end and what it passes over is counted |
| `Bus.Arena.constructor` | internal/core/bus/arena.go:35-45 | slot count rounded up to a power of two; zeroed slab |
| `Bus.Arena.Acquire` | internal/core/bus/arena.go:51-60 | an empty view of the next slot in rotation, or a private buffer without moving the cursor when the size does not fit |
| `Bus.Arena.Append` | internal/svc/rtmp/publish.go:39-40 | writes the payload into its own slot and no other byte of the slab |
| `Bus.Subscriber.constructor` | internal/core/bus/subscriber.go:25-31 | starts at the log end with the cached messages pending |
| `Bus.Subscriber.Read` | internal/core/bus/subscriber.go:43-60 | pending messages first, then the history reader; cursor minus attach equals deliveries plus drops, and positions strictly increase |
| `StreamBus.Stream.constructor` | internal/core/bus/stream.go:94-106 | the storage invariant holds initially, for any log size and at least one slab slot |
| `StreamBus.Stream.AcquireMessage` | internal/core/bus/stream.go:140-148 | hands out the next slab slot blanked, as the storage machine says, without disturbing the window |
| `StreamBus.Stream.SetFields` | internal/svc/rtmp/publish.go:34-37 | sets type, timestamp and flag on the acquired slot only |
| `StreamBus.Stream.AcquirePayload` | internal/core/bus/stream.go:131-133 | takes one arena ticket, or none for an oversized payload |
| `StreamBus.Stream.FillPayload` | internal/svc/rtmp/publish.go:39-40 | hangs the filled buffer on the message; window intact |
| `StreamBus.Stream.CacheInit` | internal/core/bus/stream.go:242-254 | replaces the cached configuration of that kind only |
| `StreamBus.Stream.Publish` | internal/core/bus/stream.go:227-238 | caches a clone if it is configuration, appends the message to the log, and closes the wake channel in favour of a fresh one; window intact |
| `StreamBus.Stream.BroadcastReady` | internal/core/bus/stream.go:119-125 | exactly the current channel is closed, and a fresh one is current |
| `StreamBus.Stream.WaitChan` | internal/core/bus/stream.go:112-114 | the channel handed out is open |
| `StreamBus.Stream.AttachPublisher` | internal/core/bus/stream.go:155-165 | succeeds iff no publisher is attached |
| `StreamBus.Stream.DetachPublisher` | internal/core/bus/stream.go:169-176 | clears publisher and all cached configuration |
| `StreamBus.Stream.AttachSubscriber` | internal/core/bus/stream.go:190-212 | a fresh cursor at the log end, with cached metadata, video and audio pending in that order |
| `StreamBus.Stream.DetachSubscriber` | internal/core/bus/stream.go:215-219 | removes exactly that subscriber |
| `Bits.SumWithout` | internal/core/bus/stream.go:296-304 | removing a subscriber removes exactly its counter from the sum, so visiting order is irrelevant |
| `StreamBus.Stream.TotalDropped` | internal/core/bus/stream.go:296-304 | the sum of the drop counters of the current subscribers |
| `StreamBus.Stream.Deliver` | internal/core/bus/subscriber.go:43-60 | following a read to its bytes yields the next message of the publish history, exactly as published |
| `Publishing.StripsOneValue` | internal/svc/rtmp/publish.go:88-106 | on every payload the hand-written prefix parser removes a leading AMF0 string that says `@setDataFrame`, as the AMF0 decoder sees it, and nothing else |
| `Publishing.StrippedCommand` | internal/svc/rtmp/publish.go:84-106 | `@setDataFrame` followed by any values is republished as bytes that decode to exactly those values |
| `Payloads.StripsLiteral` | internal/svc/rtmp/publish.go:88-106 | the prefix, byte for byte, and what is left of a payload that starts with it |
| `Payloads.VideoPayload` | internal/core/protocol/flv/constants.go:46-50 | keyframe iff the upper four bits of the first byte are 1; AVC sequence header iff the lower four are 7 and the second byte is 0; shorter payloads are neither |
| `Payloads.AudioPayload` | internal/svc/rtmp/publish.go:117-121 | AAC sequence header iff the upper four bits of the first byte are 10 and the second byte is 0 |
| `Payloads.PublishedAs` | internal/svc/rtmp/server.go:113-130 | types 8, 9 and 18 and no others are published, as the FLV tag of the same number, with their own timestamp and bytes; data always as configuration |
| `Payloads.OpensIff` | internal/svc/httpflv/subscriber.go:103-111 | a published message opens the gate iff it is type 9, of frame type 1, and no AVC sequence header |
| `Payloads.KeptIff` | internal/svc/httpflv/subscriber.go:103-116 | of the three known kinds, configuration always plays, and the rest iff a keyframe has come by then |
| `Publishing.Publisher.constructor` | internal/svc/rtmp/publish.go:22-29 | bound to its stream |
| `Publishing.Publisher.Send` | internal/svc/rtmp/publish.go:33-47 | the discipline the three kinds share appends exactly one message to what was published, keeps the window intact, and caches it iff it is configuration |
| `Publishing.Publisher.PublishAudio` | internal/svc/rtmp/publish.go:33-47 | one audio message appended; marked and cached iff it is an AAC sequence header |
| `Publishing.Publisher.PublishVideo` | internal/svc/rtmp/publish.go:51-65 | one video message appended; marked and cached iff it is an AVC sequence header |
| `Publishing.Publisher.PublishMetadata` | internal/svc/rtmp/publish.go:70-82 | one metadata message appended with its prefix stripped; always marked and cached |
| `Chunks.PayloadFits` | internal/core/protocol/rtmp/chunk.go:114-118 | within the invariant the uint32 comparison that sizes a chunk never wraps |
| `Chunks.HeaderKeepsInv` | internal/core/protocol/rtmp/chunk.go:150-274 | every header format keeps the stream invariant, on error exits too |
| `Chunks.ReadChunkKeepsInv` | internal/core/protocol/rtmp/chunk.go:72-135 | over every byte input, failed reads included: buffer length = bytes read ≤ message length |
| `Chunks.TakeKeepsInv` | internal/core/protocol/rtmp/chunk.go:278-297 | a completed body has exactly the announced length and the stream is ready for the next |
| `Chunks.ReassemblyInvariant` | internal/core/protocol/rtmp/chunk.go:114-134 | the invariant holds over every run of reads, takes and size changes up to the maximum |
| `ChunkFlow.BasicRoundTrip` | internal/core/protocol/rtmp/chunk.go:73-97 | the one-, two- and three-byte basic header read back for every identifier in 2..65599 |
| `ChunkFlow.FullRoundTrip` | internal/core/protocol/rtmp/chunk.go:165-193 | a format-0 header, extended timestamp included, read back |
| `ChunkFlow.NewLengthRoundTrip` | internal/core/protocol/rtmp/chunk.go:196-224 | a format-1 header adds its delta once and sets length and type |
| `ChunkFlow.NewDeltaRoundTrip` | internal/core/protocol/rtmp/chunk.go:227-246 | a format-2 header adds its delta once and inherits the rest |
| `ChunkFlow.LeadRoundTrip` | internal/core/protocol/rtmp/chunk.go:150-162 | any message-starting header of format 0, 1 or 2 is read as the sender meant it |
| `ChunkFlow.RepeatRoundTrip` | internal/core/protocol/rtmp/chunk.go:255-274 | a format-3 header, with or without the extended field: the field or the delta is applied between messages, and nothing inside one |
| `ChunkFlow.ReadsNextChunk` | internal/core/protocol/rtmp/chunk.go:72-135 | a parser in step with a sender consumes exactly its next chunk, whatever follows, and changes no other stream |
| `ChunkFlow.TakesWhenComplete` | internal/core/protocol/rtmp/chunk.go:278-297 | a message is handed out exactly when its sender has sent its last chunk |
| `Demux.OneTurn` | internal/svc/rtmp/server.go:81-101 | one turn of the read loop on the next chunk of a sender keeps parser and sender in step and delivers exactly at completion |
| `Demux.DemuxFlows` | internal/core/protocol/rtmp/chunk.go:72-135 | for any interleaving of chunks of conformant senders, in all four formats and with extended fields repeated on format-3 chunks, each chunk stream yields exactly its messages in order |
| `Conversation.WriteChunk` | internal/core/protocol/rtmp/message.go:66-149 | the loop writes a format-0 chunk and format-3 continuations that cover the body exactly |
| `Conversation.WriterEndsIff` | internal/core/protocol/rtmp/message.go:70-141 | short of overflow the writer's loop ends iff the chunk size is positive or the body is empty |
| `Conversation.OneChunk` | internal/core/protocol/rtmp/message.go:132-140 | one turn writes the chunk at its offset and advances to min(offset + size, length) |
| `Conversation.ChunkHeader` | internal/core/protocol/rtmp/message.go:73-130 | basic header, and on the first chunk the eleven-byte header and its extension |
| `Conversation.WrittenIsChunks` | internal/core/protocol/rtmp/message.go:70-141 | the bytes of a message are its chunks end to end |
| `Conversation.Demultiplex` | internal/core/protocol/rtmp/chunk.go:72-135 | for every chunk-level interleaving of written messages on distinct identifiers, each identifier yields exactly its messages (type, timestamp, stream, body) in order and the input ends cleanly |
| `Conversation.DrainMessage` | internal/svc/rtmp/server.go:81-112 | reading one written message delivers it once, counts its running totals, and leaves the parser ready with the size then in force |
| `Conversation.FollowsSizeChanges` | internal/svc/rtmp/server.go:81-112 | any message sequence whose writer switches size right after each Set Chunk Size message is decoded to the same sequence |
| `Conversation.SetChunkSizeRoundTrip` | internal/core/protocol/rtmp/message.go:21-37 | a created size parses back iff it does not exceed the maximum |
| `SizeChanges.SwitchIsNextSize` | internal/svc/rtmp/server.go:104-112 | the parser's next size is the one a writer's list gives: four big-endian bytes of a type 1 from 1 to 2^24-1, and the old size after any other message |
| `SizeChanges.AnnouncedSize` | internal/core/protocol/rtmp/message.go:21-37 | the message that announces n, and only n, switches to n, for every n from 1 to 2^24-1 |
| `SizeChanges.DeliversTheList` | internal/svc/rtmp/server.go:81-112 | of a writer with an explicit list of messages and chunk sizes, each message written in its own size and the size changing only as announced, the loop delivers exactly that list |
| `WireFormat.ByteOrder` | internal/core/protocol/rtmp/message.go:104-130 | fields of two, three and four bytes start with the most significant, the stream identifier with the least |
| `WireFormat.BasicHeaderForms` | internal/core/protocol/rtmp/message.go:73-102 | the one-, two- and three-byte basic header, byte for byte |
| `WireFormat.MessageHeaderForms` | internal/core/protocol/rtmp/chunk.go:165-246 | the headers of formats 0, 1 and 2, byte for byte |
| `WireFormat.ExtendedHeaderForms` | internal/core/protocol/rtmp/chunk.go:177-186 | the same with a time of four bytes behind an all-ones mark |
| `WireFormat.WrittenForms` | internal/core/protocol/rtmp/message.go:66-149 | a message in one chunk and in two, byte for byte |
| `ExtTime.TurnPays` | internal/core/protocol/rtmp/chunk.go:72-135 | one read of any bytes pays for what it consumed: progress of a stream towards a body of given length is bounded by the bytes consumed |
| `ExtTime.Undeliverable` | internal/core/protocol/rtmp/chunk.go:255-274 | a stream that owes more header and body bytes than are left delivers no body of that length |
| `ExtTime.NeverDelivered` | internal/core/protocol/rtmp/message.go:104-130 | a multi-chunk message with an extended timestamp is never delivered: continuations omit the field the parser expects |
| `ExtTime.OnlyAddressable` | internal/core/protocol/rtmp/chunk.go:72-135 | whatever the bytes, delivered identifiers are in 2..65599, bodies under 2^24 bytes and timestamps under 2^32 |
| `ExtTime.ReadsBackIff` | internal/core/protocol/rtmp/message.go:66-149 | for every message, identifier and chunk size: the writer's output reads back iff the identifier is in 2..65599, the body has 1 to 2^24-1 bytes, and the timestamp is under 0xFFFFFF or the body fits one chunk |
| `Deltas.ExpectedInClosedForm` | internal/core/protocol/rtmp/chunk.go:196-274 | messages led by formats 1, 2 and 3 carry the sum of the deltas so far modulo 2^32, and inherit type and stream |
| `Deltas.DeltaOncePerMessage` | internal/core/protocol/rtmp/chunk.go:196-274 | in any interleaving and any chunking, message i of a stream is delivered with every delta counted exactly once |
| `Deltas.RepeatAfterFull` | internal/core/protocol/rtmp/chunk.go:255-274 | in any interleaving, a message led by format 3 right after one led by format 0 is delivered with the older delta, or with the repeated extended field as its timestamp; that is what section 5.3.1.2.4 of RTMP 1.0 prescribes iff that delta equals the format-0 timestamp, or the field says twice it |
| `Deltas.RepeatedFieldIsNotPrescribed` | internal/core/protocol/rtmp/chunk.go:255-266 | a sender that repeats an extended field unchanged is never given the prescribed timestamp |
| `Deltas.RepeatRun` | internal/core/protocol/rtmp/chunk.go:263-271 | a concrete byte sequence: both messages arrive at 1000 where the second is due at 2000 |
| `ChunkParsers.Conn.ReadFull` | internal/core/protocol/rtmp/chunk.go:120-124 | all the bytes asked for, or the short-read error that consumes what was there |
| `ChunkParsers.ReadExtended` | internal/core/protocol/rtmp/chunk.go:177-186 | the four-byte field is read iff the mark is all ones |
| `ChunkParsers.ReadFormat0` | internal/core/protocol/rtmp/chunk.go:165-193 | same stream record and error as the function on values |
| `ChunkParsers.ReadFormat1` | internal/core/protocol/rtmp/chunk.go:196-224 | same stream record and error as the function on values |
| `ChunkParsers.ReadFormat2` | internal/core/protocol/rtmp/chunk.go:227-246 | same stream record and error as the function on values |
| `ChunkParsers.ReadFormat3` | internal/core/protocol/rtmp/chunk.go:255-274 | same stream record and error as the function on values |
| `ChunkParsers.ReadMessageHeader` | internal/core/protocol/rtmp/chunk.go:150-162 | dispatch on the format, record updated in place |
| `ChunkParsers.ReadBasicHeader` | internal/core/protocol/rtmp/chunk.go:73-97 | the three forms of basic header |
| `ChunkParsers.ChunkParser.constructor` | internal/core/protocol/rtmp/chunk.go:42-52 | no streams, default size |
| `ChunkParsers.ChunkParser.SetChunkSize` | internal/core/protocol/rtmp/chunk.go:56-60 | changes the size only |
| `ChunkParsers.ChunkParser.GetOrCreate` | internal/core/protocol/rtmp/chunk.go:99-107 | the stream record of the identifier, created blank if missing, others untouched |
| `ChunkParsers.ChunkParser.ReadChunk` | internal/core/protocol/rtmp/chunk.go:72-135 | the in-place parser ends in the state, and with the result, of the function on values, on every input and every error exit |
| `ChunkParsers.ChunkParser.GetBytesRead` | internal/core/protocol/rtmp/chunk.go:139-147 | the running total of the current message |
| `ChunkParsers.ChunkParser.GetCompleteMessage` | internal/core/protocol/rtmp/chunk.go:278-297 | the completed message, if any, and the record reset for the next |
| `Sessions.RecordKeepsInv` | internal/core/protocol/rtmp/session.go:112-136 | no uint32 wrap, last ≤ total below the reset mark, less than a window outstanding after an error-free call, and an acknowledgement goes out iff a window is full |
| `Sessions.CountAllKeepsInv` | internal/core/protocol/rtmp/session.go:112-136 | the counters stay in order over any sequence of counts and send failures |
| `Sessions.AckSafe` | internal/svc/rtmp/server.go:90-96 | whatever bytes a client sends, the counters keep their invariant |
| `Sessions.TotalsAt` | internal/core/protocol/rtmp/chunk.go:139-147 | the i-th count of a message is min(i·c, L): a running total, not the increment |
| `Sessions.TotalIsSum` | internal/core/protocol/rtmp/session.go:112-136 | below the reset mark the counter is the sum of what was counted, whatever was acknowledged and whichever sends failed |
| `Sessions.CountsPerMessage` | internal/svc/rtmp/server.go:90-96 | a body of L bytes in chunks of c is counted once for each of its ceil(L/c) chunks |
| `Sessions.CountedExactlyIff` | internal/svc/rtmp/server.go:90-96 | what one written message adds to the counter is the sum of min(i·c, L) over its ceil(L/c) chunks, and its own length iff it fits one chunk |
| `Interleaved.SameInBand` | internal/svc/rtmp/server.go:104-112 | where no delivered message changes the chunk size, obeying such messages makes no difference |
| `Interleaved.CountsAddUp` | internal/svc/rtmp/server.go:90-96 | over any interleaving of conformant senders the counts add up to the running totals of every message |
| `Interleaved.ServesInterleaved` | internal/svc/rtmp/server.go:81-112 | the server's loop on interleaved conformant senders: each one's messages in order, and below the reset mark the counter grows by the sum of min(i·c, L) over all chunks of all messages |
| `Sessions.CountedPerMessage` | internal/svc/rtmp/server.go:90-96 | the counts a written message causes are exactly its running totals |
| `Sessions.Session.constructor` | internal/core/protocol/rtmp/session.go:40-48 | default chunk size and zero counters |
| `Sessions.Session.WriteMessage` | internal/core/protocol/rtmp/session.go:81-86 | appends the message in chunks of the current write size |
| `Sessions.Session.SetWriteChunkSize` | internal/core/protocol/rtmp/session.go:90-94 | changes the write size only |
| `Sessions.Session.SetAckSize` | internal/core/protocol/rtmp/session.go:104-108 | sets the window and nothing else |
| `Sessions.Session.RecordBytesReceived` | internal/core/protocol/rtmp/session.go:112-136 | the counters move as the counting function says, and an acknowledgement carrying the total is written iff it says so |
| `Acks.CallIs` | internal/core/protocol/rtmp/session.go:112-136 | one counted chunk in plain arithmetic: the new total, what has been told, and the bytes written |
| `Acks.CountedIsSum` | internal/core/protocol/rtmp/session.go:112-136 | below the reset mark the counter after any k counts is their sum |
| `Acks.AcksReadBack` | internal/core/protocol/rtmp/session.go:112-136 | a client that reads what the counter wrote finds, on chunk stream 2 and in order, one message of type 3 for each call with a window's worth untold whose send went through, and in it the bytes counted by that call |
| `Sessions.Session.Obey` | internal/svc/rtmp/server.go:104-112 | a type 1 of at least four bytes that say at most 2^24-1 sets the read size to exactly that; a shorter or larger one, and every other type, leaves it |
| `Sessions.Session.AfterChunk` | internal/svc/rtmp/server.go:90-112 | counts the chunk, writes the acknowledgement that falls due, hands out and obeys the message it finished |
| `Sessions.Session.Turn` | internal/svc/rtmp/server.go:81-112 | one turn of the loop contributes the first item, count and acknowledgement of the trace, or ends it |
| `Sessions.Session.MessageLoop` | internal/svc/rtmp/server.go:81-112 | the connection loop delivers, counts, acknowledges and ends exactly as the trace of the whole input says |
| `Amf0.StringRoundTrip` | internal/core/protocol/amf0/decode.go:72-85 | a string of at most 65535 bytes reads back and leaves the suffix |
| `Amf0.RoundTrip` | internal/core/protocol/amf0/encode.go:13-96 | for arbitrarily nested objects in any key order, decoding an encoding followed by any suffix returns the value and exactly the suffix |
| `Amf0.FieldsRoundTrip` | internal/core/protocol/amf0/encode.go:75-96 | the field loop rebuilds the object, later duplicates winning |
| `Amf0.DecodesRepresentable` | internal/core/protocol/amf0/decode.go:19-41 | whatever the bytes, only values without arrays, empty keys or long strings are ever decoded |
| `Amf0.RoundTripIff` | internal/core/protocol/amf0/decode.go:19-116 | the round trip holds iff every string and key fits 16 bits, no key is empty and there is no strict array |
| `Amf0Command.DecodeExtends` | internal/core/protocol/amf0/decode.go:19-41 | the decoder is incremental on every input: more bytes change neither a decoded value nor a rejection |
| `Amf0Command.FieldsExtend` | internal/core/protocol/amf0/decode.go:88-116 | the same for the field loop |
| `Amf0Command.CutValueIsShort` | internal/core/protocol/amf0/decode.go:131-148 | a proper prefix of an encoding fails with an end-of-input error and nothing else |
| `Amf0Command.CutPoint` | internal/core/protocol/amf0/encode.go:118-127 | every cut of a command falls after some number of whole values |
| `Amf0Command.CommandPrefix` | internal/core/protocol/amf0/decode.go:131-148 | any byte prefix of an encoded command decodes without error to exactly the values wholly inside it |
| `Amf0Command.CommandRoundTripIff` | internal/core/protocol/amf0/decode.go:131-148 | a whole command survives iff each of its values does |
| `Amf0Command.OneBytePerValue` | internal/core/protocol/amf0/decode.go:131-148 | decoding ends on every input: no more values than bytes |
| `Amf0Command.LongerInputKeepsValues` | internal/core/protocol/amf0/decode.go:131-148 | on any bytes, a longer input decodes to an extension of what the shorter one gave |
| `Amf0Codec.EncodeValue` | internal/core/protocol/amf0/encode.go:13-34 | writes one encoding of the value, in the key order the object loops met |
| `Amf0Codec.EncodeObject` | internal/core/protocol/amf0/encode.go:75-96 | the loop over a map in arbitrary order writes every field once |
| `Amf0Codec.EncodeArray` | internal/core/protocol/amf0/encode.go:99-113 | writes count and items in order |
| `Amf0Codec.EncodeCommandBytes` | internal/core/protocol/amf0/encode.go:118-127 | the values one after another, without an array wrapper |
| `Amf0Codec.ReadString` | internal/core/protocol/amf0/decode.go:72-85 | same result and reader position as the function on bytes |
| `Amf0Codec.ReadValue` | internal/core/protocol/amf0/decode.go:19-41 | same result and reader position as the function on bytes |
| `Amf0Codec.ReadObject` | internal/core/protocol/amf0/decode.go:88-116 | the field loop computes the function on bytes, on every input |
| `Amf0Codec.ReadCommand` | internal/core/protocol/amf0/decode.go:131-148 | the command loop terminates and computes the function on bytes, on every input |
| `Amf0Codec.SendAndReceive` | internal/core/protocol/amf0/encode.go:118-127 | encoding and then decoding a command returns it iff each value is representable, whatever order the maps yield |
| `WireFormat.EncodedForms` | internal/core/protocol/amf0/encode.go:13-73 | numbers, booleans, strings and null, byte for byte |
| `WireFormat.NestedForms` | internal/core/protocol/amf0/encode.go:75-113 | an object and an array, byte for byte |
| `WireFormat.DecodedForms` | internal/core/protocol/amf0/decode.go:19-68 | any byte but 0 is true, undefined is null, an ECMA array is the object behind its count, an object ends in 9 or is refused, and every other marker is refused |
| `Flv.SizeFields` | internal/core/protocol/flv/tag.go:28-45 | uint32 arithmetic on the payload size changes no byte of either size field |
| `Flv.AppendTag` | internal/core/protocol/flv/tag.go:28-45 | dst followed by the tag's bytes, for every payload |
| `Flv.TagArray` | internal/core/protocol/flv/tag.go:68-102 | the index-assigned buffer holds the same bytes |
| `Flv.HeaderArray` | internal/core/protocol/flv/header.go:14-43 | the nine header bytes with both flags |
| `Flv.ReadsBack` | internal/core/protocol/flv/tag.go:28-45 | an independent reader gets a tag back from its bytes and leaves the rest |
| `Flv.FileReadsBackIff` | internal/core/protocol/flv/tag.go:28-45 | header, zero and any tag list read forward to the same flags and tags iff every payload is under 2^24 bytes and every timestamp under 2^32 |
| `Flv.WalksBackIff` | internal/core/protocol/flv/tag.go:97-99 | the trailing sizes lead backward over every tag to the opening zero iff each tag size fits 32 bits |
| `WireFormat.PrologueForm` | internal/core/protocol/flv/header.go:14-43 | the header and the zero size, byte for byte |
| `WireFormat.TagForm` | internal/core/protocol/flv/tag.go:68-102 | a tag byte for byte: the low three bytes of the time before its high one |
| `Pipeline.FirstKey` | internal/svc/httpflv/subscriber.go:103-111 | the least position of a video keyframe that is not configuration, or the end |
| `Pipeline.KeptExactly` | internal/svc/httpflv/subscriber.go:103-116 | the output positions are, in strictly increasing order, exactly the configuration messages and everything of known kind from the first keyframe on |
| `Pipeline.ShownSays` | internal/svc/httpflv/subscriber.go:113-144 | each tag carries its own message: the FLV type of its kind, its bytes, and time zero or max(0, ts minus first keyframe ts) |
| `Pipeline.OrderKept` | internal/svc/httpflv/subscriber.go:132-144 | rebasing preserves timestamp order among messages that are not configuration |
| `Pipeline.StartsAtZero` | internal/svc/httpflv/subscriber.go:103-144 | the opening keyframe is shown at time zero, preceded only by configuration at time zero |
| `Pipeline.KeySnoc` | internal/svc/httpflv/subscriber.go:103-111 | where the gate opens is settled once it has opened |
| `Pipeline.ShownSnoc` | internal/svc/httpflv/subscriber.go:103-144 | one more message adds its one tag to the output or nothing, and changes nothing already shown |
| `Pipeline.ShownGrows` | internal/svc/httpflv/subscriber.go:87-127 | more messages only ever add tags at the end |
| `Pipeline.Passes` | internal/svc/httpflv/subscriber.go:113-118 | a message that passes the gate adds exactly its rebased tag, and fields and closed form stay in agreement |
| `Pipeline.PassesOver` | internal/svc/httpflv/subscriber.go:105-116 | a message that is gated, of unknown kind, or nil after the gate opened adds nothing |
| `Pipeline.ConcatFrames` | internal/svc/wsflv/subscriber.go:112-125 | the frames of a tag list concatenate to its bytes |
| `FlvSubscribers.HttpSubscriber.constructor` | internal/svc/httpflv/subscriber.go:45-57 | nothing written, gate closed |
| `FlvSubscribers.HttpSubscriber.Write` | internal/svc/httpflv/subscriber.go:120-125 | appends what the connection still accepts; succeeds iff that is all of it |
| `FlvSubscribers.HttpSubscriber.WriteHeader` | internal/svc/httpflv/subscriber.go:61-73 | the header and zero size are written once |
| `FlvSubscribers.HttpSubscriber.RebaseTimestamp` | internal/svc/httpflv/subscriber.go:132-144 | configuration at zero; the first other timestamp becomes the base; never below zero |
| `FlvSubscribers.HttpSubscriber.Handle` | internal/svc/httpflv/subscriber.go:93-126 | one turn keeps what was written equal to the closed form cut at what the connection accepted, and dereferences nil iff the gate is closed |
| `FlvSubscribers.HttpSubscriber.ProcessMessages` | internal/svc/httpflv/subscriber.go:87-127 | over any sequence of reads, unless a nil before the first keyframe ends it: the connection receives the closed form of all of them cut at what it accepts, and the loop ends with an error iff that is less than all |
| `FlvSubscribers.WsSubscriber.constructor` | internal/svc/wsflv/subscriber.go:40-45 | no frames, gate closed |
| `FlvSubscribers.WsSubscriber.WriteMessage` | internal/svc/wsflv/subscriber.go:122-129 | one more frame, or a refusal |
| `FlvSubscribers.WsSubscriber.WriteHeader` | internal/svc/wsflv/subscriber.go:49-73 | header and zero size as one frame, once |
| `FlvSubscribers.WsSubscriber.RebaseTimestamp` | internal/svc/wsflv/subscriber.go:136-148 | as for HTTP-FLV |
| `FlvSubscribers.WsSubscriber.Handle` | internal/svc/wsflv/subscriber.go:89-130 | one turn keeps the frames equal to the closed form, one frame per tag |
| `FlvSubscribers.WsSubscriber.ProcessMessages` | internal/svc/wsflv/subscriber.go:83-131 | over any sequence of reads, as for HTTP-FLV, frame by frame |
| `FlvSubscribers.PanicIff` | internal/svc/httpflv/subscriber.go:93-105 | short of a write error, the loop crashes iff a nil message comes before the first keyframe |
| `FlvSubscribers.SameBytes` | internal/svc/wsflv/subscriber.go:83-131 | after the same reads the HTTP-FLV bytes are the concatenation of the WS-FLV frames |
| `FlvSubscribers.PlayerReads` | internal/svc/httpflv/subscriber.go:61-127 | a reader of the HTTP-FLV body finds the header flags and exactly the tags of the closed form, iff each fits FLV's fields |
| `FlvSubscribers.Next` | internal/svc/httpflv/subscriber.go:93-101 | one read takes the first message due, or reports nothing iff nothing is due |
| `FlvSubscribers.ReadOne` | internal/svc/httpflv/subscriber.go:92-126 | one read, shown: what is seen is what was read; the cursor moves one further, past exactly what the log no longer holds, and that is what is counted as dropped |
| `FlvSubscribers.Watch` | internal/svc/httpflv/subscriber.go:87-127 | draining a stream shows its cached configuration and then the published history from the cursor, byte for byte, cut exactly at what the peer accepts; it never crashes, and a write error says iff it was cut |
| `Commands.AiredConcat` | internal/svc/rtmp/server.go:81-130 | what goes on the air is determined in order: by the messages so far and the session they leave |
| `Commands.RejectedEnds` | internal/svc/rtmp/server.go:121-125 | nothing after a command that does not decode goes on the air, whatever it is |
| `Commands.AiredWithoutCommands` | internal/svc/rtmp/session.go:118-133 | without commands, a publishing session airs all its media and any other none |
| `Commands.RejectedRun` | internal/svc/rtmp/server.go:139-144 | a concrete command of one byte that keeps the keyframe behind it off the air |
| `Clients.NamesAreAscii` | internal/svc/rtmp/server.go:150-181 | the command names, byte for byte |
| `Clients.BareIsBeforeQuery` | internal/svc/rtmp/auth.go:30-35 | a stream name is what stands before the question mark, or all of it |
| `Clients.OtherCommands` | internal/svc/rtmp/server.go:150-181 | which commands other than publish end the connection, and that only connect changes the session |
| `Clients.PublishCommand` | internal/svc/rtmp/commands.go:69-119 | a publish takes effect iff it names something, its key is allowed, an application is set and the stream named takes the publisher; this client then publishes here iff application and name are this stream's |
| `Clients.PublisherIsAired` | internal/svc/rtmp/server.go:81-130 | from the encoded commands: a client that connects, creates a stream, publishes and then sends media has all of it on the air iff the key is allowed, application and name are not empty and are this stream's, and the replies are sent |
| `ClientRuns.LifeOfClient` | internal/svc/rtmp/server.go:81-181 | for every list of messages, from the list alone: the connection has ended iff one of them ends it, and until then the publisher is this client iff its last publish named this stream |
| `ClientRuns.PublishedTwiceIsOver` | internal/svc/rtmp/commands.go:100-104 | publishing a stream a second time ends the connection |
| `ClientRuns.AirsNext` | internal/svc/rtmp/server.go:81-130 | each message adds its media to what is on the air iff the connection has not ended before it and the last publish before it named this stream |
| `Relay.PublishingClient` | internal/svc/rtmp/server.go:81-130 | the same from the client's bytes, in chunks of whatever sizes it announces on the way |
| `Relay.ServiceSession.constructor` | internal/svc/rtmp/session.go:25-32 | a fresh session that publishes nowhere |
| `Relay.ServiceSession.HandleConnect` | internal/svc/rtmp/session.go:40-91 | sets application, an acknowledgement window of 5,000,000 and a write size of 4096; too few values or a failed reply end the connection |
| `Relay.ServiceSession.HandlePublish` | internal/svc/rtmp/commands.go:69-121 | needs a name, an allowed key and an application; publishes here iff the name is this stream's and no publisher is attached |
| `Relay.ServiceSession.HandleCommand` | internal/svc/rtmp/server.go:139-181 | decodes the command and changes the session, or ends it, exactly as the judgement on its bytes says |
| `Relay.ServiceSession.HandleMediaMessage` | internal/svc/rtmp/session.go:118-133 | audio, video and data are published as their kind if a publisher is attached here; otherwise nothing changes |
| `Relay.ServiceSession.HandleMessage` | internal/svc/rtmp/server.go:103-130 | the switch on the type: commands are judged, media published, the rest ignored |
| `Relay.ServiceSession.Turn` | internal/svc/rtmp/server.go:81-130 | one turn of the loop conserves the broadcast: what is published plus what is still to be aired stays the same, in order |
| `Relay.ServiceSession.Close` | internal/svc/rtmp/session.go:136-145 | a publisher that is here leaves its stream and its cached configuration goes |
| `Relay.ServerTurn` | internal/svc/rtmp/server.go:81-130 | a turn of the connection loop beside a subscriber: the broadcast is conserved, at most one message is published, and the subscriber's standing is no worse than one server turn makes it |
| `Relay.ReaderTurn` | internal/svc/httpflv/subscriber.go:92-126 | a turn of the subscriber's loop: its standing is no worse than one read makes it |
| `Relay.NextTurn` | internal/svc/httpflv/subscriber.go:87-127 | whose turn it is takes it, unless its loop has ended; either way the broadcast is conserved and the standing no worse than the turn allows |
| `Relay.InStepLosesNothing` | internal/core/bus/sharedlog.go:87-93 | a reader whose server is never more than a log ahead loses nothing |
| `Relay.NothingLost` | internal/core/bus/sharedlog.go:87-93 | and none at all if what is left over when the turns run out fits the log too |
| `Relay.AlternatingLosesNothing` | internal/core/bus/sharedlog.go:87-93 | a reader that answers every turn of the server loses nothing, however long the broadcast and small the log |
| `Relay.Serve` | internal/svc/rtmp/server.go:81-135 | the whole connection loop publishes exactly what the delivered messages put on the air, up to the first command that ends it, and no more messages than there are chunks |
| `Relay.Follow` | internal/svc/httpflv/subscriber.go:87-127 | the subscriber's loop to its end on a stream that stays put: it drops exactly what the log has let go of at most |
| `Relay.Live` | internal/svc/httpflv/subscriber.go:87-127 | turns of both loops in any order: the subscriber has seen exactly what it has read, has read whatever the log still holds as far as it has come, and has lost no more than the order of turns allows at worst |
| `Relay.Broadcast` | internal/svc/httpflv/subscriber.go:87-127 | any such order, then each loop to its end: everything is aired, the subscriber is at the end or was cut off by its peer, and it has lost no more than the order of turns allows |
| `Relay.Play` | internal/svc/httpflv/handler.go:121-136 | a new HTTP-FLV client receives header and closed form of what is due, cut exactly at what it accepts; a refused header ends it |
| `Relay.FileIsRead` | internal/core/protocol/flv/tag.go:28-45 | whatever bytes a client sends, the FLV of any selection of what goes on the air is readable: sizes and timestamps always fit |
| `Relay.WrittenIsDelivered` | internal/svc/rtmp/server.go:81-112 | of a writer that changes chunk size in band the loop gets every message |
| `Relay.InterleavedIsDelivered` | internal/svc/rtmp/server.go:81-112 | of interleaved conformant senders the loop gets each one's messages in order |
| `Relay.NothingSkipped` | internal/core/bus/subscriber.go:43-60 | if nothing was dropped, what was read is a prefix of what went on the air |
| `Relay.BroadcastEnds` | internal/svc/httpflv/subscriber.go:87-127 | the two loops at their end: the peer received the closed form of rising positions of what went on the air, none further ahead than what was dropped, all that the log holds among them, and positions and drops add up |
| `Relay.EndToEnd` | internal/svc/rtmp/server.go:61-135 | from any bytes of a client to the player's tags, for every order of the two loops and every bound on what the player takes: it receives exactly that much of the FLV of a selection, in order, of what went on the air; the selection holds whatever the log held at the end; what is missing was counted as dropped, no more than the order of turns allows; and all of it parses back |

## Left out

- Network, HTTP, WebSocket framing, handshake and deadlines: connections are byte sequences; a peer that stops accepting is a bound on what it takes.
- ffmpeg processes, relay, packaging and transcoding: process plumbing.
- Pooled allocation: a pooled buffer is a fresh empty one; only the deep copy kept for late joiners matters.
- The Go memory model: atomics are sequentially consistent steps, and a section under a mutex is one step or an explicit lock.
- 64-bit counters (log sequence, slab and arena cursors, drop counters) are unbounded naturals; 32-bit ones wrap as in the code.
- The meaning of IEEE doubles: AMF0 numbers are eight opaque bytes.
- Conformance of the three-byte basic header to section 5.3.1.1 of RTMP 1.0: both sides put the high byte first (`WireFormat.BasicHeaderForms`); only the code's own round trip is stated.
- Values of other Go types given to the AMF0 encoder, which it writes as null, and writers that fail in the middle of an encoding.
- `DecodeString` with its own type marker, and the small Parse and Create functions for other control messages: easy.
- Partial WebSocket frames: a refused frame leaves no bytes.
- FlvSubscribers.HttpSubscriber.WriteHeader: called before any tag is shown, or after a first success.
- FlvSubscribers.WsSubscriber.WriteHeader: the same, as its comment demands.
- RingSteps.RaceLoses: drop-oldest under interleaving is only told apart from drop-newest; what a racing reader then sees is not described further.
- Sessions.Session.SetWriteChunkSize: size at least 1, and small enough that a four-byte acknowledgement cannot overflow the uint32 offset sum.
- Sessions.Session.WriteMessage: body plus chunk size under 2^32, for the same reason.
- StreamBus.Stream.constructor: at least one slab slot; with none the code divides by zero on the first message.
- StreamBus.Stream.Deliver: demands a slab larger than the log, as the default sizes give; `Storage.NeverAliasesIff` covers the other case.
- Registry and publisher ownership: other streams appear only as the answer whether they took a publisher, and the log has a single producer by assumption, as its comments demand.
- The bytes of command replies, and what query strings of stream names say: whether a reply was sent and whether a key is allowed are parameters.
- Conversation.WriteChunk: needs a chunk size of at least 1, since `Conversation.WriterEndsIff`, and no uint32 overflow of offset plus chunk size; the writer's connection accepts everything.
- Conversation.OneChunk: the same.
- RingBuffers.RingBuffer.constructor: capacity at most 2^31, since `Bits.DoublingEndsIff`.
- Sessions.Session.MessageLoop: the loop of a connection on which no command ends it and none writes a reply; `Relay.Serve` has the commands.
- FlvSubscribers.Watch: drains a stream that nobody publishes to meanwhile; `Relay.Live` has both loops.
- Relay.Play: drains once, like `Watch`.
- Relay.EndToEnd: a turn of either loop is one step; what happens between the atomics inside is `LogSteps`, `Wake`, `LateJoin` and `ReadPath`.
