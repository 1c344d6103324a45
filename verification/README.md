# Verification of the ipc channel, router, control descriptor and poll

A Dafny model of the inter-process communication layer under `torrent/system`: a ring buffer in shared
memory with one writer and one reader, the routers that multiplex messages over two such rings, the
protocol by which a sleeping reader is woken, the announcement of new message ids between a parent and a
child process, the framing of control messages on a stream socket, and the bookkeeping of the kqueue poll.

`dafny verify dfyconfig.toml` checks everything.

## Structure

- `Bytes`, `Ring`, `Placement`: bytes, the record layout, the queue of records that two offsets denote, and
  the decisions of `Channel::write`, `available_write` and `can_write`, on values.
- `SharedChannel`: `Channel` as a class over an `array<Byte>` that its methods update in place.
- `Interleaving`, `Runs`: one writer and one reader that alternate after every access to shared memory, each
  acting on the copies of the offsets it loaded; a forward simulation of a FIFO queue, and what follows for
  every run.
- `Draining`: what the loop in `process_reads` hands over, and exactly when it ends, without and with handlers.
- `Handlers`, `Router`: the handler map and the loop of `process_reads`, on values and as a class.
- `Wakeup`: a ring together with the consumer state, the wakeup tokens and the program counters of both sides.
- `Announce`: two rings and two routers; the parent announces ids that the child registers.
- `ControlFraming`: `ControlFd` over sockets that transfer as little as they like.
- `KqueuePoll`: `Poll`, its table of shared poll events, the change buffer, and dispatch with callbacks that
  call back into the poll; beside it the same on values, as a map from events to descriptor and interest.

## The boundary of the queue

The writer may leave the write offset at `m_size`, where the reader's offset never stands: the reader wraps
it to 0. If the reader consumes the last record before the end while the write offset is parked there, the
offsets become `(0, m_size)`, which means "everything is unread" again, and old records are handed over once
more. The model keeps this. Every theorem about the queue and its contents says what happens if no consume
does this (`Parks`, `WouldPark`, `NeverParks`), and the project proves that this is the exact condition:

- `Ring.ConsumeBoundary` and `Runs.StepBoundary`: a consume, or any step, keeps the queue if and only if it
  does not park.
- `Runs.ReplayRun`: for every buffer size, write `m_size - 8` bytes, read, consume, read: the record comes twice.
- `Draining.DrainEnds`, `Draining.ParkedReplays` and `Draining.ParkedLoopEnds`: with the writer at rest and
  handlers that succeed `process_reads` ends if and only if the write offset is below `m_size`; otherwise it
  hands over the writer's last lap until a handler fails.
- The wakeup protocol does not need the guard: `Wakeup.NoLostWakeup` holds in every run.
- `SharedChannel.Channel.ConsumeHeader` says what the queue is after every consume, parked or not.

The parameters are those for which `write` cannot raise an internal error: the buffer size `n` is a multiple
of 64 with `192 <= n < 2^31`, and the write threshold `t` is in `1..n - 80`. `Placement.ThresholdBoundIsTight`
shows that the upper bound cannot be raised, and `SharedChannel.DefaultThreshold` that the default meets it.

## Where the code and its comments disagree

The model follows the code.

- `torrent/system/ipc/channel.h:12-13` and `:28` say that a write is split only if `split_threshold` bytes
  remain at the end of the buffer. `write` splits whenever a message needs both parts; only `available_write`
  looks at `split_threshold`.
- `torrent/system/ipc/channel.h:48-52` and `torrent/system/ipc/channel.cc:116-121` describe zero-sized writes
  and when `wake_reader` is set. `write` throws on size 0 and only ever sets `wake_reader` to false.
- `torrent/system/ipc/channel.h:38` says that one cache line always stays free. In the state with read offset
  0 and write offset `m_size` none is.
- `torrent/system/ipc/channel.h:40` calls `available_write` a rough estimate; `Placement.AvailableWriteBounds`
  says how rough.

## Assumptions

- Atomic operations are single, sequentially consistent steps, and a record is stored in one step.
- Words are little-endian and a cache line has 64 bytes.
- A callback of a router either takes its bytes or registers an id, as the handlers of parent and child do;
  a callback of the poll, or of its thread between entries, runs any list of poll operations and returns
  normally.
- A failed announcement leaves the id registered at the parent and unannounced, and the parent may go on; in
  `parent.cc:50-51` it throws, so the model allows more runs.
- The socket of a wakeup descriptor holds up to `room` tokens, at least one; a token that does not fit is dropped.
- What `send`, `recv` and `kevent` do is given by arbitrary scripts. So a frame that is still being sent is a
  frame on the stream for which some calls receive less or would block. `InvalidShutdown` stands for the
  internal error that a malformed shutdown message raises. A change list may add only absent filters
  and delete only present ones, which is stricter than the kernel and is proved of the code.
- A descriptor does not change while its event is open in the poll, and an event knows one poll only. Masks
  are sets of flags; the three insert and the three remove functions are one method each, with the flag as a
  parameter.

## Model

| member | source | states |
|---|---|---|
| Ring.StoreRoundTrip | torrent/system/ipc/channel.cc:44-52 | a record stored at an offset is what a reader finds there: its id, its size and its bytes, inside its cache lines |
| Ring.InvFrame | torrent/system/ipc/channel.cc:238-272 | the queue of unread records depends on the unread bytes alone |
| Ring.HeadRecord | torrent/system/ipc/channel.cc:238-272 | the queue is empty exactly if the offsets are equal; otherwise the record at the read offset is its head and lies in the buffer |
| Ring.ConsumePops | torrent/system/ipc/channel.cc:274-289 | a consume that does not park removes exactly the head of the queue, keeps the invariant, and frees that record's aligned bytes |
| Ring.ConsumeBoundary | torrent/system/ipc/channel.cc:285-288 | a consume removes exactly the head if and only if it does not wrap to 0 under a parked write offset |
| Placement.WriteVerdict | torrent/system/ipc/channel.cc:144-202 | a write is refused exactly if less than min(size, threshold) fits into the free gaps, and otherwise takes all that fits; it is never an internal error |
| Placement.EmptyChannelAccepts | torrent/system/ipc/channel.cc:178-184 | a write into an empty channel goes through |
| Placement.ThresholdBoundIsTight | torrent/system/ipc/channel.cc:178-180 | no empty channel makes a write fail hard if and only if min(size, threshold) is at most n - 80 |
| Placement.PlanShape | torrent/system/ipc/channel.cc:168-206 | every accepted write makes aligned records inside the buffer, a second one only at 0 behind one that ends the buffer, and stays a line away from the read offset it saw |
| Placement.EndChecks | torrent/system/ipc/channel.cc:188-221 | none of the internal errors that write checks for after storing can be raised, whatever old read offset it used |
| Placement.AvoidsLive | torrent/system/ipc/channel.cc:137-206 | what is planned on an old read offset touches no byte that is unread now |
| Placement.SmallWriteIsWhole | torrent/system/ipc/channel.cc:144-206 | a message of at most 56 bytes is one record or refused |
| Placement.ShortWriteSaturates | torrent/system/ipc/channel.cc:152-202 | after a short write every further write is refused until a consume |
| Placement.PublishAppends | torrent/system/ipc/channel.cc:186-224 | storing the write offset appends the one or two records to the queue, also if the reader has consumed since |
| Placement.StreamOfRecords | torrent/system/ipc/channel.cc:186-206 | the records of a write have its id and together carry exactly the accepted prefix |
| Placement.CanWriteStaysSound | torrent/system/ipc/channel.cc:83-114 | if can_write says yes, a write takes the whole message however much was consumed in between |
| Placement.CanWriteMeans | torrent/system/ipc/channel.cc:83-114 | can_write says yes if and only if the record and one or two lines fit the gaps as described, case by case |
| Placement.AvailableWriteAligned | torrent/system/ipc/channel.cc:83-109 | what available_write reports is a number of whole lines |
| Placement.CanWriteRefuses | torrent/system/ipc/channel.cc:111-114 | if can_write says no, less than two cache lines more than the message are free, or at most twice that in two parts |
| Placement.AvailableWriteBounds | torrent/system/ipc/channel.cc:83-109 | what available_write reports is at most 16 bytes above what write can take and at most 56 below, or at least half if the space is in two parts that it does not add up |
| SharedChannel.Channel.Initialize | torrent/system/ipc/channel.cc:61-79 | an address off a line, or a size of 0 or off a line, is an error that changes nothing; otherwise the channel is valid and empty over any bytes, its threshold an eighth of its size rounded up to a line |
| SharedChannel.Channel.SetWriteThreshold | torrent/system/ipc/channel.h:56 | the channel stays valid exactly for thresholds in 1..n - 80 |
| SharedChannel.Channel.AvailableWriteBytes | torrent/system/ipc/channel.cc:83-109 | no uint32_t overflow; the split branch never reports 0; equals the specified space |
| SharedChannel.Channel.CanWriteBytes | torrent/system/ipc/channel.cc:110-114 | a yes means that a write of that size is accepted whole if and only if the size is below 2^32 - 135; from there on the sum in the code wraps, and what it asks for instead is given |
| SharedChannel.Channel.WriteToHeader | torrent/system/ipc/channel.cc:44-52 | the buffer afterwards is the old one with the record in it, byte for byte, and the result is the aligned offset behind it |
| SharedChannel.Channel.Decide | torrent/system/ipc/channel.cc:137-202 | the branches of write, in uint32_t, never reach the internal error and accept the lesser of the size and the free payload |
| SharedChannel.Channel.StoreAndPublish | torrent/system/ipc/channel.cc:186-224 | storing and publishing an accepted plan appends its records to the queue that the state denotes, and keeps it valid |
| SharedChannel.Channel.Write | torrent/system/ipc/channel.cc:123-236 | on a valid channel: an error exactly for id 0, null data or size 0; refused exactly if less than min(size, threshold) fits, and then nothing changes; otherwise the queue grows by one or two records that carry the accepted prefix |
| SharedChannel.Channel.VerifyReadHeader | torrent/system/ipc/channel.cc:33-42 | true exactly if the header is at the read offset and its payload ends inside the buffer |
| SharedChannel.Channel.ReadHeader | torrent/system/ipc/channel.cc:238-272 | in every state: no data exactly if the offsets are equal, a padding mark moves the reader to 0 exactly if there is data, and a record is accepted exactly if it fits; on a valid channel no error and no padding, and a header whose record is the head of the queue |
| SharedChannel.Channel.ConsumeHeader | torrent/system/ipc/channel.cc:274-289 | accepted exactly at the read offset and inside the buffer; the queue loses its head, or, if it parks, becomes all records since the writer last wrapped |
| SharedChannel.WriteEffect | torrent/system/ipc/channel.cc:186-224 | both stores and the publication keep the invariant, append to the queue, and keep the records since the last wrap tiling the buffer from 0 |
| SharedChannel.ConsumeEffect | torrent/system/ipc/channel.cc:274-289 | what is unread after a consume from any valid state, parked or not |
| SharedChannel.ConsumeArithmetic | torrent/system/ipc/channel.cc:276-283 | for a size that fits the buffer the offset arithmetic does not wrap around |
| SharedChannel.MaskRounds | torrent/system/ipc/channel.cc:17-22 | rounding with the mask is rounding by division, for all 32-bit values |
| SharedChannel.DefaultThreshold | torrent/system/ipc/channel.cc:74 | the default threshold is within the bounds for every buffer size |
| Interleaving.StoreOneKeeps | torrent/system/ipc/channel.cc:186 | storing the first record while the reader runs changes nothing that is unread |
| Interleaving.StoreTwoKeeps | torrent/system/ipc/channel.cc:204-206 | storing the second record changes neither the unread records nor the first one |
| Interleaving.PublishKeeps | torrent/system/ipc/channel.cc:208-224 | publishing on an old snapshot passes every check and appends to the queue |
| Interleaving.DeliverKeeps | torrent/system/ipc/channel.cc:250-271 | the header that the reader finds after its two loads is sound and is the head of the queue |
| Interleaving.ConsumeKeeps | torrent/system/ipc/channel.cc:274-289 | a consume under the guard removes the delivered record, and a write in progress stays safe |
| Interleaving.StepRefines | torrent/system/ipc/channel.cc:123-289 | every step of either side, on whatever snapshots, keeps the invariant and is a step of a FIFO queue or none, unless it parks |
| Interleaving.WriterMoves | torrent/system/ipc/channel.cc:123-236 | in every reachable state an idle writer can begin any legal message, and one that is not idle can go on |
| Interleaving.WriterEnds | torrent/system/ipc/channel.cc:123-236 | every step of a writer brings its message nearer to an end |
| Interleaving.ReaderTakesHead | torrent/system/ipc/channel.cc:238-289 | an idle reader that finds the channel not empty is handed exactly the head of the queue, and can consume it |
| Runs.RunRefines | torrent/system/ipc/channel.cc:123-289 | every interleaved run under the guard is a run of a FIFO queue |
| Runs.DeliveredIsPrefix | torrent/system/ipc/channel.cc:123-289 | in every run from initialize under the guard no internal error is raised, delivered records are a prefix of published ones, and per id the delivered bytes are a prefix of the accepted bytes |
| Runs.MessageIsSettled | torrent/system/ipc/channel.cc:123-236 | from every reachable state, whatever the reader does meanwhile: if min(size, threshold) bytes fitted when a message was begun, as much as fitted is accepted and published, under its id and in order; if not, nothing changes |
| Runs.WriteShort | torrent/system/ipc/channel.cc:123-236 | a message of at most 56 bytes goes whole into an empty channel |
| Runs.StepBoundary | torrent/system/ipc/channel.cc:285-288 | a step keeps the invariant if and only if it is not a parking consume |
| Runs.ReplayRun | torrent/system/ipc/channel.cc:152-159 | for every buffer size a run of write, read, consume, read hands over one published record twice |
| Runs.WriterSparesUnread | torrent/system/ipc/channel.cc:137-206 | no writer step on any snapshot changes a byte of an unread record |
| Runs.HeldRecordStays | torrent/system/ipc/channel.cc:238-288 | the record that read_header returned keeps its bytes until its consume, whatever steps come in between |
| Runs.CanWriteHolds | torrent/system/ipc/channel.cc:110-114 | can_write's yes stays right over any reader steps under the guard |
| Draining.HandedInOrder | torrent/system/ipc/router.cc:214-261 | with the writer at rest the turns of process_reads hand over the unread records first, once each and in order |
| Draining.DrainEnds | torrent/system/ipc/router.cc:220-261 | the loop ends if and only if the write offset is below the buffer size, having handed over exactly the unread records |
| Draining.ParkedReplays | torrent/system/ipc/channel.cc:285-286 | with a parked write offset the loop hands over the unread records and then the writer's last lap any number of times |
| Draining.NextTurn | torrent/system/ipc/router.cc:220-260 | each turn hands the next record, in order, to the handlers; the loop goes on or ends as that record's turn succeeds or fails |
| Draining.GuardedLoopEnds | torrent/system/ipc/router.cc:214-261 | the loop ends if the write offset is not parked, or if a turn fails before the last unread record is consumed |
| Draining.GuardedLoopReads | torrent/system/ipc/router.cc:214-261 | it has then read each unread record once, in order, up to the one that failed |
| Draining.ParkedLoopEnds | torrent/system/ipc/router.cc:214-261 | with a parked write offset the loop ends if and only if some turn fails, at one of the records or of their replays |
| Handlers.DrainConcat | torrent/system/ipc/router.cc:214-261 | reading in two goes is reading at once, and a failed turn leaves its record unconsumed |
| Handlers.DrainPlain | torrent/system/ipc/router.cc:228-239 | records for open handlers are all passed on, in order and unchanged, and change nothing else |
| Handlers.DrainStops | torrent/system/ipc/router.cc:228-232 | a record for an unknown id ends the loop at exactly that record |
| Handlers.CloseErases | torrent/system/ipc/router.cc:243-258 | after a close message the handler is not called again, whatever comes for it and for other ids, and a second close message removes it and nothing else |
| Router.Router.TryRegisterHandler | torrent/system/ipc/router.cc:83-101 | no registered id ever has a reserved bit; only a new id with both closures changes the map |
| Router.Router.RegisterHandler | torrent/system/ipc/router.cc:62-75 | terminates with the least unused id from the next one on, leaves the other handlers alone, and fails, changing nothing, exactly if all ids up to 0x0FFFFFFF are taken |
| Router.Router.Write | torrent/system/ipc/router.cc:129-165 | refused exactly if less than min(size, threshold) fits; else all that fits is accepted, the stream of the id grows by exactly that and the streams of other ids stay; a token is sent exactly if the reader polls and nobody interrupted it |
| Router.Router.ProcessReads | torrent/system/ipc/router.cc:214-261 | whenever the loop ends at all: how many records it consumed, where the offset is, and that the handlers saw exactly those records up to a failing one; under the guard these are the unread records, and on success the offsets are equal |
| Router.Router.TakeRecord | torrent/system/ipc/router.cc:220-260 | in every valid state a turn handles the head of the queue and consumes it, which may park, unless the turn failed |
| Router.Router.Dispatch | torrent/system/ipc/router.cc:226-258 | the turn computed on the bytes in memory is the one specified on the record |
| Wakeup.LinkStepKeeps | torrent/system/ipc/router.cc:200-212 | every step of reader, writer and poll, parking or not, keeps the invariant that explains why a blocked reader will be woken |
| Wakeup.NoLostWakeup | torrent/system/ipc/router.cc:137-162 | in every reachable state, for any parameters and without a guard: if the reader is blocked and the channel is not empty, a token is pending or the writer is still to send one; once write has returned a token is pending |
| Wakeup.WakeupEconomy | torrent/system/ipc/wakeup_fd.cc:87-137 | in every run tokens sent never exceed the announcements of a poll; if polls report pending tokens, at most two are pending or in flight when a poll is announced |
| Wakeup.FallsAsleep | torrent/system/ipc/router.cc:200-205 | from the start of its loop with an empty channel the reader gets into the poll by its own steps, its announcement made, whatever the writer is about |
| Wakeup.GetsUp | torrent/system/ipc/router.cc:207-212 | when the poll returns, its own steps take it through the drains and the clearing back to the start |
| Wakeup.MessageWakes | torrent/system/ipc/router.cc:137-162 | a message for a sleeping reader sends one token, the poll reports it, and the reader is handed the message |
| Wakeup.SleepsAndWakes | child.cc:179-197 | there is a run from the start in which the reader sleeps, is woken by a message and gets it |
| Wakeup.BothMove | torrent/system/ipc/router.cc:129-212 | in every state with a sound ring writer and reader each have a step to make |
| Wakeup.SilentArrival | torrent/system/ipc/router.cc:200-205 | a run in which a message arrives after the first drain and no token is sent for it, so the drain after the announcement is needed |
| Announce.ChildFollows | child.cc:30-52 | a child that reads a history of announcements and messages to announced ids refuses nothing and registers exactly the announced ids |
| Announce.DuplexStepKeeps | parent.cc:35-53 | every step of parent, child and both channels keeps the invariant of the announcement protocol |
| Announce.NobodyRefuses | child.cc:30-52 | in every run under the guard neither side refuses a record: none comes for an unregistered id, the child never registers an id twice, and every announcement is one four-byte record; the child's ids are exactly those announced to it, and all are registered at the parent |
| Announce.HandlersGetPrefixes | torrent/system/ipc/router.cc:129-261 | in both directions the bytes passed to an id's handler are a prefix of the bytes that the other side's write accepted for it |
| Announce.ChannelIsCreated | parent.cc:35-53 | from every reachable state with nothing under way to the child, a new id is announced, arrives and is registered |
| Announce.ChildIsReached | torrent/system/ipc/router.cc:129-261 | a message to an announced id that the child knows reaches its handler |
| Announce.ParentIsReached | torrent/system/ipc/router.cc:129-261 | a message from the child to an id it knows reaches the parent's handler |
| Announce.ChannelWorks | child.cc:30-52 | there is a run from the start in which a channel is created and the child answers on it |
| ControlFraming.ClassifyMeans | torrent/system/ipc/control_fd.cc:205-215 | a message is understood as it was meant if and only if it is not text that starts with SHUTDOWN: |
| ControlFraming.ListIsUnderstood | torrent/system/ipc/control_fd.cc:205-215 | a list of messages is understood as meant if and only if that holds for each of them |
| ControlFraming.FramesDecode | torrent/system/ipc/control_fd.cc:101-216 | decoding the frames of any list of messages gives one event per message, in order |
| ControlFraming.LostHeaderMisreads | torrent/system/ipc/control_fd.cc:156-158 | if the length of a frame is lost and its body starts like a frame, the next thing on the stream is a message that was never sent, for all such messages |
| ControlFraming.ControlFd.SendMessageInternal | torrent/system/ipc/control_fd.cc:101-132 | succeeds if and only if the message is not too long and none of the calls of send it takes fails; success appends the frame, failure a proper prefix of it, and an oversized message nothing |
| ControlFraming.ControlFd.ReadFully | torrent/system/ipc/control_fd.cc:136-182 | for every stream and every outcome of recv: the bytes taken are the first ones of the stream, and how many and with what result is as specified |
| ControlFraming.PullCompletes | torrent/system/ipc/control_fd.cc:136-182 | a part that is on the stream is completed if and only if the calls it takes pass |
| ControlFraming.PassesMeans | torrent/system/ipc/control_fd.cc:145-176 | calls pass if and only if none closes or fails and none would block, unless on Linux after a first byte |
| ControlFraming.PullAbandons | torrent/system/ipc/control_fd.cc:155-158 | a part is given up silently if and only if its first uninterrupted call would block |
| ControlFraming.PullBreaks | torrent/system/ipc/control_fd.cc:145-176 | for every stream and every outcome of recv: the peer is taken for gone if and only if a call made before the part is complete closes, fails or, off Linux, would block after a first byte |
| ControlFraming.ControlFd.EventRead | torrent/system/ipc/control_fd.cc:134-216 | for every stream and every outcome of recv: what is reported and how many bytes are taken is as specified |
| ControlFraming.FrameOutcome | torrent/system/ipc/control_fd.cc:134-216 | a frame on the stream is reported, left alone, robbed of its length, or taken for the end of the peer, each if and only if the calls of recv are of the kind described |
| ControlFraming.LengthIsLost | torrent/system/ipc/control_fd.cc:156-158 | for every stream: bytes are taken and nothing is reported if and only if a legal, non-zero length arrives and the first uninterrupted call for the body would block |
| ControlFraming.TookMeans | torrent/system/ipc/control_fd.cc:134-216 | for every stream: a message is reported if and only if a whole frame of legal length is there and none of its calls stops it |
| ControlFraming.GoneMeans | torrent/system/ipc/control_fd.cc:134-216 | for every stream: the end of the peer is reported if and only if a part breaks or the length is too long |
| ControlFraming.EmptyIsGone | torrent/system/ipc/control_fd.cc:148-151 | with an empty stream the end of the peer is reported if and only if the first uninterrupted call closes or fails |
| ControlFraming.OversizedIsGone | torrent/system/ipc/control_fd.cc:198-201 | a length above the limit is answered by taking the peer for gone as soon as it arrives, with nothing else taken |
| ControlFraming.OnlyTheNext | torrent/system/ipc/control_fd.cc:134-216 | whatever recv does, nothing is ever reported but the next whole message or that the peer is gone |
| ControlFraming.LossThenMisread | torrent/system/ipc/control_fd.cc:134-216 | a read that loses a length makes the next read report a message that was never sent, if the body starts like one |
| ControlFraming.SmoothTakesFrame | torrent/system/ipc/control_fd.cc:134-182 | calls that are only cut short or interrupted take every frame |
| ControlFraming.ReadBoundary | torrent/system/ipc/control_fd.cc:134-216 | an event_read leaves what was reported and what is on the stream in step with what was sent if and only if it is fine: before a frame recv blocks at once or nothing stops the frame, before nothing the socket is not closed or broken |
| ControlFraming.ReadsCatchUp | torrent/system/ipc/control_fd.cc:134-216 | as many reads that do not block at once as there were messages leave none unread |
| ControlFraming.Session | torrent/system/ipc/control_fd.cc:101-216 | for any interleaving of sends and reads in which every call is fine, what is reported is the messages sent so far, in order, up to the number of reads, and the rest is on the stream |
| KqueuePoll.WantedWithFlag | torrent/system/poll_kqueue.cc:395-432 | setting an unset flag asks for one more filter, which is absent before; the error flag asks for none |
| KqueuePoll.WantedWithoutFlag | torrent/system/poll_kqueue.cc:434-471 | clearing a set flag gives up one filter, which is present before |
| KqueuePoll.Poll.constructor | torrent/system/poll_kqueue.cc:153-177 | a new poll has no events, no changes and no filters |
| KqueuePoll.Poll.Flush | torrent/system/poll_kqueue.cc:105-116 | passing the changes on empties the buffer and leaves the filters that the kernel will have unchanged |
| KqueuePoll.Poll.Modify | torrent/system/poll_kqueue.cc:118-129 | one change is added to the filters that the kernel will have, with the index in bounds |
| KqueuePoll.Poll.EventMask | torrent/system/poll_kqueue.cc:79-95 | succeeds exactly for events that are open in the poll, and then gives their mask |
| KqueuePoll.Poll.OpenEvent | torrent/system/poll_kqueue.cc:316-332 | succeeds exactly for a closed event with a free descriptor; the table gets one entry without interest, and the wanted filters stay |
| KqueuePoll.Poll.InsertFlag | torrent/system/poll_kqueue.cc:395-432 | the flag is in the mask afterwards, and the kernel's filters after the buffered changes are still exactly those the masks name |
| KqueuePoll.Poll.RemoveFlag | torrent/system/poll_kqueue.cc:434-471 | the same for taking a flag out |
| KqueuePoll.Poll.CloseEvent | torrent/system/poll_kqueue.cc:353-378 | succeeds exactly for events without interest; event and poll event let go of each other, and during dispatch the poll event is kept alive |
| KqueuePoll.Poll.RemoveAndCloseEvent | torrent/system/poll_kqueue.cc:473-482 | an open event always ends up closed, with its filters gone |
| KqueuePoll.Poll.FetchEvents | torrent/system/poll_kqueue.cc:208-239 | the buffer is empty afterwards, also after a signal, the kernel has exactly the wanted filters, and what is fetched is exactly the user event and the filters that open events want, among what became ready and in order |
| KqueuePoll.Poll.RunOp | torrent/system/poll_kqueue.cc:316-482 | each operation, also one out of place, has exactly its effect on the interests of all events, keeps the poll consistent, and lets an entry of the batch go exactly if it closes its event |
| KqueuePoll.Poll.TakeTurn | torrent/system/poll_kqueue.cc:285-299 | an entry is dispatched exactly if its poll event still has the flag, and then to the event that owns it and is open under it |
| KqueuePoll.Poll.TakeEntry | torrent/system/poll_kqueue.cc:260-299 | the same with callbacks of the thread run before the entry, with the interests that both leave |
| KqueuePoll.Poll.DoPoll | torrent/system/poll_kqueue.cc:194-206 | an interrupted wait dispatches nothing; any other dispatches what it fetched, entry by entry as the batch says |
| KqueuePoll.Poll.Loop | torrent/system/poll_kqueue.cc:194-482 | over any sequence of operations, waits and callbacks: every EV_ADD is of an absent filter, every EV_DELETE of a present one, the buffer index stays in bounds, the kernel's filters after the buffered changes are those the masks name, and the masks are what the operations that were made add up to |
| KqueuePoll.Poll.Process | torrent/system/poll_kqueue.cc:252-309 | an entry is dispatched exactly if its event was not closed since the fetch and still wants the flag, and then to that event, never to a new owner of its descriptor; one that was fetched and not dispatched had its flag taken out by a callback; the interests afterwards are those the callbacks leave |
| KqueuePoll.ReadyIsCalled | torrent/system/poll_kqueue.cc:285-299 | an event that is opened, asks for a filter and becomes ready is called |
| KqueuePoll.CalledTurnsCounts | torrent/system/poll_kqueue.cc:254-308 | what process returns is the number of entries that were dispatched |

## Left out

- ControlFraming.ControlFd.ReadFully: on Linux the wait for bytes that never come ends here, with a result of its own, when the script is used up; endless EINTR is not modelled.
- KqueuePoll.Poll.Process: EV_ERROR entries are not modelled; the kernel makes them of changes that it refuses, and every change here is one that it accepts. Nor are callbacks that throw.
- Weak memory: the release and acquire orderings and fences are taken as sequentially consistent steps.
- `Router::close`: it calls `Channel::write` with size 0 and a null pointer, which always throws, so there is no handshake to prove; receiving close messages is modelled.
- `write_padding_header`, which has no caller, the commented-out `wake_reader` logic and `available_read`, which has no definition.
- Mapping memory, fork, creating sockets, close-on-exec and timeouts: system-call plumbing (`segment.cc`, `factory.cc`, `fd.cc`).
- `torrent/net/socket_address.cc`: predicates and orderings on socket addresses, on which nothing modelled here depends.
- Signal handling, shutdown timers and console output of the programs, and the exceptions that their handlers throw on purpose.
- The eventfd variant and the exit after five seconds in `wakeup_fd.cc`; `thread.h`, `event.cc`, `exceptions.cc`.
- `Poll::do_interrupt` and the polling state of the poll; the user event appears as an entry without a poll event.
