# Verified model of aeron-go

This project models the parts of aeron-go, a Go client for the Aeron messaging transport and its cluster, in which
the difficulty lies in interleavings, modular arithmetic and composition, and proves what they promise. It is written
in Dafny 4.11 and needs nothing but the files here: `dafny verify dfyconfig.toml` checks all of it.

| files | what they model |
|---|---|
| `Bits`, `Memory` | int32 narrowing, alignment, the de Bruijn trailing-zero table, `FastMod3`; `Memcpy` on one flat memory |
| `CircularBuffer` | records and words of a ring buffer; positions and indexes |
| `ManyToOneRingBuffer`, `ManyToOneProof`, `ManyToOneTheorems`, `ManyToOneStall` | the many-producer ring buffer as a transition system with one atomic access per step and any number of producers |
| `Broadcast`, `BroadcastProof`, `BroadcastLap` | the broadcast receiver, one shared read per step while the transmitter may lap it |
| `Rotation`, `RotationProof`, `RotationStall` | any number of publishers offering, appending and rotating the three partitions of a log |
| `Positions` | how publisher, subscriber and frame header compute positions, and where they agree |
| `LogFrames`, `Image`, `ImageProof` | polling an image: position accounting for every frame layout and every handler |
| `Assembler`, `ExactlyOnce` | fragment reassembly with and without rollback, and exactly-once delivery through controlled polls of several images |
| `LogLayout`, `Polling` | how a log lies in the three term buffers, what an image sees of it from its byte position, and images polled through one assembler as objects |
| `ClusterAgent`, `AckProtocol`, `ServiceContainer` | the clustered service container, its acknowledgements over every run, and the container as an object |
| `Snapshot`, `Recovery`, `LogAdapter` | taking and loading snapshots, recovery by replay, consumption of the log up to the commit position |
| `ChannelUri`, `ChannelUriProof` | the channel URI parser and printer |
| `Sbe`, `RecordingDescriptor` | the shared marshaller and the recording descriptor codec |
| `Linger` | the conductor's queue of lingering resources |
| `RoundRobin` | round-robin polling of a subscription's images |

Code that updates objects in place is modelled by classes and methods, each proved equal to a specification function
or to a declarative outcome; protocols are transition systems, and their theorems are about every run. A handler is a
function from its state and a frame to its new state and answer, so a claim about a handler covers every handler and
every sequence of answers. Integers are unbounded and every narrowing the code performs is written out.

## Where the code does not do what one would expect

For each of these one lemma says exactly when the code does what one would expect, and another gives an input or a
reachable run for which it does not.

- The ring buffer narrows `tail - head` to 32 bits. A producer that sleeps between reading the head and caching it while
  more than 2^31 bytes go by makes a full ring look almost empty, and an unread record is overwritten
  (`LongStallOverwritesUnreadRecord`). The claims of a run stay within the buffer if and only if no winning claim
  reaches past the released space (`RunKeepsInvIff`). A producer that is not interrupted makes such a claim if and only
  if the narrowing misleads it and the claim does not fit behind the true head (`UninterruptedClaimOverrunsIff`,
  `CheckWrongIff`, `CapacityCheckSoundIff`).
- A publisher that passed the term check and stalled for three terms appends to a later term, and rotates for it. When
  that term is not active yet, a partition still in use is reset (`EarlyTripIsReachable`, `RotationIsHarmlessIff`). The
  partitions stay right throughout a run if and only if no rotator in it wins the next tail for a term that is not
  active yet (`RunKeepsInvIff` of `RotationProof`).
- `Offer` computes the position it returns from values read before the append; it is right if and only if the partition
  had not moved on in between (`OfferedPositionRightIff`, `WrongPositionIsReachable`).
- The broadcast receiver validates a position before it reads the header there, and afterwards only the position it has
  gone on to. If the transmitter laps it in between, payload can look like padding, and a later message is delivered out
  of sequence without a panic (`SkipsWithoutPanic`); the constructor's scrolling loop does not validate afterwards at
  all. The receiver stays on the track of entries if and only if it is never fooled like that, which takes a position
  that no longer validates when its type word, or the length word past padding, is read (`StaysOnTrackIff`).
- `BoundedPoll` stops moving when the distance to the limit plus the term offset reaches 2^31 (`PollCanMoveIff`,
  `CommittedButStuck`), and takes a limit more than 2^31 behind the start of the term for one ahead
  (`LimitOffsetSafeIff`, `LimitFarBehindIsUnsafe`).
- A message of several fragments whose first one is empty is never delivered by the assemblers (`MessageDeliveredIff`,
  `EmptyFirstFragmentIsLost`).
- A session whose response channel cannot be opened while a snapshot is loaded leaves the table incomplete, and nobody
  looks at the loader's error (`LoadRestoresIff`, `SessionSilentlyLost`).
- Taking a snapshot reports success for a record that was never offered, when its timeout leaves no time for an attempt
  (`Take` of `SnapshotTaker` says exactly when the snapshot is whole, `SuccessWithoutSnapshot`).
- `Memcpy` is wrong when the destination starts inside the source, unless the length is 4 or 8 (`MemcpyCopiesIff`,
  `OverlapLoses`).
- The positions that leadership, action and membership events carry themselves are taken as they are, so the agent stays
  within the commit position if and only if they do (`AgentStaysWithinIff`, `OwnPositionPasses`).
- Parsing a URI widens every byte above 127 to two, and printing escapes nothing (`RoundTripIff` of `ChannelUriProof`,
  `RoundTripFails`).
- A variable-length field of 2^32 bytes or more loses its length (`RoundTripIff` of `RecordingDescriptor`,
  `TooLongFieldIsLost`).
- A check of lingering resources can block the conductor for ever when the channel is full
  (`BlockedCheckIsReachable`, `ConductorBlockedIff`).
- Round robin polls the first image first twice in every cycle of n + 1 polls, and every other image once
  (`FirstExactly`, which is about every starting index).

## Model

| member | source | states |
|---|---|---|
| `Bits.AlignInt32` | aeron/util/bits.go:39-41 | for every power of two, the next multiple of it and nothing smaller, as long as it fits in an int32 |
| `Bits.TrailingZeroesCorrect` | aeron/util/bits.go:44-58 | for every non-zero word the multiplication and the 32-entry table give the index of the lowest set bit |
| `Bits.FoldKeepsResidue` | aeron/util/bits.go:61-72 | each folding step keeps the residue modulo 3 and every 32-bit value ends inside the 62-entry table |
| `Bits.FastMod3` | aeron/util/bits.go:61-72 | equals the remainder modulo 3 for every value below 2^32 |
| `Memory.Memcpy` | aeron/util/bits.go:81-109 | the three batch loops, in place, on any two stretches of one memory |
| `Memory.MemcpyCopiesIff` | aeron/util/bits.go:81-109 | for every length exactly the bytes of the source end up in the destination and no other byte changes, whatever memory holds, if and only if the destination does not start inside the source or the length is 4 or 8 |
| `Memory.OverlapLoses` | aeron/util/bits.go:81-109 | for every other overlap and length, a memory that is copied wrongly |
| `CircularBuffer.RequiredIsHeaderPlusChunks` | aeron/ringbuffer/recorddesc.go:25-59 | a record's aligned length is its header plus its payload words |
| `CircularBuffer.IndexInjective` | aeron/ringbuffer/manytoone.go:105-145 | positions less than a capacity apart never share an index |
| `CircularBuffer.ReadBack` | aeron/ringbuffer/manytoone.go:156-175 | once all payload words are in place a reader gets the payload back byte for byte |
| `ManyToOneProof.AvailableExact` | aeron/ringbuffer/manytoone.go:105-115 | the narrowed difference gives the true free space when the head is at most 2^31 + capacity behind |
| `ManyToOneProof.CheckWrongIff` | aeron/ringbuffer/manytoone.go:105-115 | exactly when the narrowed check lets a claim through that does not fit |
| `ManyToOneProof.WrappedClaimFits` | aeron/ringbuffer/manytoone.go:120-138 | a wrapping claim checked only against a stale head index still ends before the head's next lap |
| `ManyToOneProof.ClaimIsShaped` | aeron/ringbuffer/manytoone.go:98-146 | a claim that wins the compare-and-set is 8-aligned, does not cross the buffer end, and its padding, if any, reaches exactly to it |
| `ManyToOneProof.FittingClaimIsNoOverrun` | aeron/ringbuffer/manytoone.go:98-146 | while every checked claim fits behind the head its producer holds, no claim that wins touches an unread byte, however stale that head and whether or not the claim wraps |
| `ManyToOneProof.ReadSeesNextRegion` | aeron/ringbuffer/manytoone.go:156-175 | any positive length the consumer sees is the finished header of the next region, and decoding it gives that region's message |
| `ManyToOneProof.ReleasedSpaceIsEmpty` | aeron/ringbuffer/manytoone.go:96-147 | space is zero before it is released for the next lap |
| `ManyToOneProof.StepKeepsInvIff` | aeron/ringbuffer/manytoone.go:96-175 | a step keeps headCache <= head <= tail <= head + capacity, the tiling of positions by claims, and no positive length before its payload, if and only if it is not a winning claim that reaches past the released space |
| `ManyToOneTheorems.StepRefinesQueue` | aeron/ringbuffer/manytoone.go:96-175 | every step is a step of an unbounded FIFO queue, or none, linearised at the compare-and-set of the tail |
| `ManyToOneTheorems.RunKeepsInvIff` | aeron/ringbuffer/manytoone.go:96-175 | the tail stays within a capacity of the head in all states of a run if and only if no winning claim in it reaches past the released space, and then all of the invariant holds throughout |
| `ManyToOneTheorems.NobodyMisledNoOverrun` | aeron/ringbuffer/manytoone.go:98-146 | a run in which no producer is misled by the narrowed check has no such claim, so the capacity check protects every interleaving |
| `ManyToOneTheorems.RunIsFifo` | aeron/ringbuffer/manytoone.go:96-175 | over every run without an overrun the consumer decodes exactly the claimed messages, whole, in compare-and-set order |
| `ManyToOneTheorems.StepFinishes` | aeron/ringbuffer/manytoone.go:156-175 | a message becomes finished exactly when its `Write` returns true |
| `ManyToOneTheorems.RunAttended` | aeron/ringbuffer/manytoone.go:156-175 | in a run without an overrun no claim is ever abandoned: an unfinished one is being worked on by its owner |
| `ManyToOneTheorems.QuiescentRunDeliversAllWrites` | aeron/ringbuffer/manytoone.go:156-175 | in a run without an overrun, with no write in progress and the consumer caught up, it has read exactly the messages of the successful writes |
| `ManyToOneStall.CapacityCheckSoundIff` | aeron/ringbuffer/manytoone.go:107-112 | for which distances between tail and held head the narrowed check is sound for every record size |
| `ManyToOneStall.UninterruptedClaimOverrunsIff` | aeron/ringbuffer/manytoone.go:98-146 | a producer that runs from reading the tail to its swap without interruption claims more than is free if and only if its held head misleads it and the claim, padding included, does not fit behind the true head |
| `ManyToOneStall.LongStallOverwritesUnreadRecord` | aeron/ringbuffer/manytoone.go:107-116 | a reachable state in which a claim was granted over a finished, unread record |
| `Broadcast.Receiver.ReceiveNextRecord` | aeron/broadcast/receiver.go:102-135 | what the object becomes and answers, for whatever values its six reads return |
| `BroadcastProof.ReadsMakeReceiveNext` | aeron/broadcast/receiver.go:102-135 | the steps of the transition system, one read each, add up to that `receiveNext`, and `Receive` goes on unless it found nothing or counted a lap |
| `BroadcastProof.StoreKeepsIntact` | aeron/broadcast/receiver.go:82-84 | no store behind the announced intent damages an entry that still validates |
| `BroadcastProof.LandOnEntry` | aeron/broadcast/receiver.go:116-130 | landing on an intact entry finds its record, past padding, and the start of the next entry |
| `BroadcastProof.LatestValidates` | aeron/broadcast/receiver.go:111-115 | the latest counter is the position of the last record, which the transmitter cannot have reached again when it is read |
| `BroadcastProof.ReceiveNextLands` | aeron/broadcast/receiver.go:102-135 | an uninterrupted `receiveNext` stands on the next transmitted entry, or on the last one if it had been lapped, and counts a lap exactly then |
| `BroadcastProof.StepKeepsInvIff` | aeron/broadcast/copyreceiver.go:32-70 | a step of the transmitter, which may write anything where it announced, or of the receiver keeps the invariant, and the receiver on the track of entries, if and only if it does not fool the receiver |
| `BroadcastProof.StaysOnTrackIff` | aeron/broadcast/copyreceiver.go:32-70 | throughout a run the next record is the start of an entry, and a cursor that validates is at the record being read, if and only if the receiver is never fooled: never takes overwritten words for padding up to a wrong position that validates, and never scrolls on by them |
| `BroadcastProof.RunKeepsInv` | aeron/broadcast/copyreceiver.go:32-70 | the invariant in every state of every run in which the receiver is never fooled |
| `BroadcastProof.DeliveredIsContiguous` | aeron/broadcast/copyreceiver.go:32-70 | in such a run, with the transmitter acting between any two reads, the delivered messages are a contiguous run of the transmitted ones, each whole |
| `BroadcastProof.CaughtUpMissedNothing` | aeron/broadcast/copyreceiver.go:43-70 | in such a run a receiver that did not panic and finds nothing more has delivered everything since it started |
| `BroadcastLap.SkipsWithoutPanic` | aeron/broadcast/receiver.go:111-130 | a reachable state in which the one message delivered since the second of 17 is the last, without a panic or a counted lap |
| `RotationProof.IdsDistinct` | aeron/logbuffer/descriptor.go:175-181 | terms less than 2^32 apart have different int32 ids, wherever the ids wrap |
| `RotationProof.CountFromId` | aeron/publication.go:184-189 | the check in `Offer` recovers the term number from the id, across the wrap |
| `RotationProof.SwapOnlyForActive` | aeron/logbuffer/descriptor.go:183-201 | a swap by a rotator that is not ahead of the active term resets the next tail only for the active term, and only once |
| `RotationProof.StepKeepsInvIff` | aeron/logbuffer/descriptor.go:183-201 | a step of a publisher keeps the invariant, and the three partitions right, if and only if it is not a rotator winning the next tail for a term not active yet |
| `RotationProof.RunKeepsInvIff` | aeron/logbuffer/descriptor.go:183-201 | in all states of a run the partitions hold terms n, n-1 and n-2 or n+1 for the active term n if and only if no rotator in it wins a swap early, and then all of the invariant, ids included, holds throughout |
| `RotationProof.NoEarlyTripNoEarlySwap` | aeron/publication.go:170-207 | a run in which no append trips in a term not active yet has no early swap |
| `RotationProof.ActiveMovesAfterReset` | aeron/logbuffer/descriptor.go:183-201 | in a run without an early swap the active count moves by one, and only after the next tail carries the next id |
| `RotationProof.LateRotatorChangesNothing` | aeron/logbuffer/descriptor.go:183-201 | a rotator whose term is over changes neither tails nor count |
| `RotationProof.TripsAtMostOneAhead` | aeron/publication.go:170-207 | an append that trips lands at most one term ahead of the active one |
| `RotationProof.EarlyRotationBreaksTerms` | aeron/publication.go:270-281 | rotating after an early trip leaves the partitions wrong |
| `RotationProof.RotationIsHarmlessIff` | aeron/publication.go:270-281 | rotating after a trip keeps the partitions right if and only if the append did not land ahead of the active term |
| `RotationStall.WrongPositionIsReachable` | aeron/publication.go:270-281 | a reachable state with an append that is enabled, fits, and returns a position exactly three terms too low |
| `RotationStall.EarlyTripIsReachable` | aeron/publication.go:170-207 | a run of ten publishers that reaches such an early rotation |
| `Positions.AcceptedLengthsIff` | aeron/logbuffer/descriptor.go:141-155 | the accepted term lengths are exactly the powers of two from 2^16 to 2^30 |
| `Positions.ShiftOfTermLength` | aeron/util/bits.go:44-58 | for each of them the trailing-zero table gives the true shift |
| `Positions.NarrowingKeepsOffset` | aeron/image_impl.go:79-96 | narrowing a position to int32 keeps its offset in the term |
| `Positions.PublisherAndSubscriberAgree` | aeron/image_impl.go:281-284 | for every term below 2^31 the publisher's tail and the subscriber's position give the same partition and offset, however often ids wrapped |
| `Positions.HeaderPositionIsNextPosition` | aeron/logbuffer/header.go:41-44 | `Header.Position` is the position the image holds after consuming the frame |
| `Positions.PositionRoundTrip` | aeron/publication.go:331-335 | position to term id and offset and back is the identity |
| `Positions.TermAndOffsetRoundTrip` | aeron/image_impl.go:281-284 | term id and offset to position and back is the identity, for every term below 2^31 |
| `Positions.OfferedPositionRightIff` | aeron/publication.go:270-281 | exactly when the position `Offer` returns is the end of the message |
| `Image.LogImage.ControlledLoop` | aeron/image_impl.go:182-221 | the loop consumes a prefix of the frames ahead for the stated reason and stores exactly the stated positions |
| `Image.LogImage.ControlledPoll` | aeron/image_impl.go:165-222 | ends at the start plus the aligned lengths of exactly the skipped padding and accepted frames, and returns the number of accepted frames |
| `Image.LogImage.ReadLoop` | aeron/logbuffer/term/reader.go:29-55 | frames are taken in order, each starting below the bound, until the limit, the bound or a gap |
| `Image.LogImage.BoundedPoll` | aeron/image_impl.go:106-155 | the same outcome with the bound computed through int32 |
| `Image.LogImage.Poll` | aeron/image_impl.go:79-96 | the same outcome up to the end of the term |
| `ImageProof.StoresNeverMoveBack` | aeron/image_impl.go:165-222 | the positions stored during a controlled poll never decrease and the last is the new position |
| `ImageProof.AdvancedPosition` | aeron/image_impl.go:191-220 | where an advanced position lies: further in the term, or at the start of the next partition |
| `ImageProof.AbortedFrameIsNext` | aeron/image_impl.go:201-207 | an aborted frame is the first one the next poll sees |
| `ImageProof.LimitOffsetSafeIff` | aeron/image_impl.go:116-127 | the narrowed limit is not beyond the true one if and only if the limit is at most 2^31 behind the start of the term |
| `ImageProof.LimitFarBehindIsUnsafe` | aeron/image_impl.go:116-127 | at position 2^31 + 2^16 a limit of 0 becomes the end of the term |
| `ImageProof.PollCanMoveIff` | aeron/image_impl.go:116-127 | for every distance to the limit, exactly when the poll can move |
| `ImageProof.CommittedButStuck` | aeron/image_impl.go:116-127 | with 2^31 - 32 bytes committed ahead and 32 bytes into the term it cannot |
| `ImageProof.CommitBound` | aeron/image_impl.go:106-155 | no frame that ends beyond the limit position reaches the handler |
| `ImageProof.CommittedFramesAreDelivered` | aeron/image_impl.go:106-155 | when it fits, every frame below the limit in the term is delivered, up to the fragment limit |
| `Assembler.FragmentAssembler.OnFragment` | aeron/fragmentassembler.go:66-99 | builders and deliveries as the specification function says |
| `Assembler.ControlledFragmentAssembler.OnFragment` | aeron/controlledfragmentassembler.go:51-93 | the same for the controlled assembler, truncating the builder on Abort |
| `Assembler.ControlledVersusPlain` | aeron/controlledfragmentassembler.go:51-93 | without Abort it does what the plain assembler does; Abort leaves builders and accepted messages as they were |
| `Assembler.PollAgrees` | aeron/image_impl.go:165-222 | a controlled poll over any window keeps the controlled assembler equal to the plain one fed each consumed frame once |
| `ExactlyOnce.PollKeepsInv` | aeron/image_impl.go:165-222 | the agreement is kept across polls of several images through one assembler |
| `ExactlyOnce.SessionsAreIndependent` | aeron/controlledfragmentassembler.go:51-93 | what the assembler holds and has delivered for a session depends on that session's frames only |
| `ExactlyOnce.WholeMessagesInOrder` | aeron/fragmentassembler.go:66-99 | feeding c messages and i chunks delivers the payloads of those that can be delivered, whole and in order, and holds the i chunks |
| `ExactlyOnce.MessageDeliveredIff` | aeron/fragmentassembler.go:66-99 | from any state of a session, a message is delivered if and only if it has one fragment or a non-empty first one, and otherwise nothing is |
| `ExactlyOnce.EmptyFirstFragmentIsLost` | aeron/fragmentassembler.go:84-97 | a message of an empty and a one-byte fragment is dropped |
| `ExactlyOnce.ExactlyOncePerSession` | aeron/controlledfragmentassembler.go:51-93 | for every run of polls and every sequence of answers the messages not aborted are, per session, exactly the deliverable messages consumed, none lost and none repeated |
| `LogLayout.HeaderGivesNextPosition` | aeron/logbuffer/header.go:41-44 | what a frame header says about its term and offset gives, through `Header.Position`, the start of the next frame of the log |
| `LogLayout.ChainIsLog` | aeron/image_impl.go:185-199 | walking a term buffer from the offset of a frame finds exactly the frames of the log up to the gap or the end of the term |
| `LogLayout.AheadIsLog` | aeron/image_impl.go:165-183 | from the byte position of a frame an image derives a partition and an offset at which it finds exactly the log from that frame on, in any term |
| `LogLayout.ResumesAt` | aeron/image_impl.go:216-221 | the stored position after consuming frames is the start of the next frame, also across the end of a term |
| `Polling.Subscriber.ControlledPoll` | aeron/image_impl.go:165-222 | polls of images that hold nothing but byte positions make up a run of `ExactlyOnce`, and every image is left at the start of its next frame |
| `Polling.AcceptedExactlyOnce` | aeron/controlledfragmentassembler.go:51-93 | at any time the application has accepted, per session, exactly the deliverable messages below its image's byte position |
| `AckProtocol.ApplyOk` | cluster/clustered_service_agent.go:314-356 | every operation keeps the acknowledgement invariant |
| `AckProtocol.RunKeepsInv` | cluster/clustered_service_agent.go:314-356 | the invariant over every sequence of operations |
| `AckProtocol.AcksInOrderAndOnTime` | cluster/clustered_service_agent.go:706-710 | over every run ack ids are 0, 1, 2, ...; a position is acted on at most as often as it was asked for, counting what is pending, and never before the log reaches it; the service is told to terminate exactly for such positions and QUITs that name this member |
| `AckProtocol.HistoryIsReceived` | cluster/clustered_service_agent.go:681-689 | the requests, termination positions and own QUITs on record are, in order and number, those received until a crash |
| `AckProtocol.RequestsAreCounted` | cluster/clustered_service_agent.go:685-689 | a position is on record as often as it was asked for, exactly so without a crash |
| `AckProtocol.TerminationsAreCounted` | cluster/clustered_service_agent.go:681-683 | the same for termination positions |
| `ServiceContainer.PollActsOnReached` | cluster/clustered_service_agent.go:314-343 | polling answers exactly the pending positions the log has reached, each once, and leaves the others pending |
| `ServiceContainer.ClusteredServiceAgent.RecoverState` | cluster/clustered_service_agent.go:193-227 | the service is active, the restored position is acknowledged once with the next gap-free id, and nothing pending is answered by it |
| `ServiceContainer.ClusteredServiceAgent.PollServiceAdapter` | cluster/clustered_service_agent.go:314-343 | the same of the object, which also joins the log exactly when a pending join, the image and the log agree on the position, and remains the outcome of everything that happened to it |
| `ServiceContainer.ClusteredServiceAgent.OnSessionOpen` | cluster/clustered_service_agent.go:480-512 | panics exactly on a clash or a channel that cannot be opened; otherwise the session is in the table and the service was told |
| `ServiceContainer.ClusteredServiceAgent.OnSessionClose` | cluster/clustered_service_agent.go:514-531 | the session is gone, every other one is as it was, and the service was told if it was there |
| `ServiceContainer.ClusteredServiceAgent.OnMembershipChange` | cluster/clustered_service_agent.go:612-623 | a QUIT that names this member ends the service with one acknowledgement; nothing else does |
| `ServiceContainer.ClusteredServiceAgent.CloseLog` | cluster/clustered_service_agent.go:450-459 | the log position never moves back, the node is a follower, and the service hears of it once |
| `ServiceContainer.ContainerKeepsPromises` | cluster/clustered_service_agent.go:314-356 | at any time the object's acknowledgements are numbered without gap, on time, and answer only what was asked |
| `Snapshot.SnapshotTaker.Offer` | cluster/snapshot_taker.go:89-107 | a record is published at most once, and exactly when an attempt returned a position |
| `Snapshot.SnapshotTaker.Take` | cluster/clustered_service_agent.go:644-655 | succeeds exactly when no offer fails; what it then published is begin marker, every session once in some order and end marker if and only if every record was offered at least once |
| `Snapshot.SuccessWithoutSnapshot` | cluster/snapshot_taker.go:89-107 | with no time for any attempt, success is reported and nothing was published |
| `Snapshot.SnapshotLoader.OnFragment` | cluster/snapshot_loader.go:47-118 | the loader's state machine |
| `Snapshot.SnapshotLoader.LoadAll` | cluster/clustered_service_agent.go:274-278 | polls fragments until the loader is done, and where the image is left |
| `Recovery.LoadsTheRest` | cluster/snapshot_loader.go:47-118 | with all channels available the whole table is loaded and the image is left after the END marker |
| `Recovery.LoadStopsEarly` | cluster/snapshot_loader.go:47-118 | the first channel that cannot be opened ends the load with that session missing |
| `Recovery.LoadRestoresIff` | cluster/clustered_service_agent.go:274-291 | loading restores the table and stops after END if and only if every session's channel can be opened, whatever the order of the sessions |
| `Recovery.SessionSilentlyLost` | cluster/clustered_service_agent.go:274-278 | a snapshot of one session whose channel cannot be opened is loaded without it |
| `Recovery.ReplayDependsOnCore` | cluster/clustered_service_agent.go:480-623 | containers with the same core go through the same states and tell the service the same things |
| `Recovery.SnapshotPlusSuffixIsFullReplay` | cluster/clustered_service_agent.go:193-291 | snapshot at any point of any log, in any order, plus replay of the rest equals replay of the whole log; the image is left at the service's own data |
| `LogAdapter.BoundedLogAdapter.OnMessage` | cluster/bounded_log_adapter.go:77-182 | hands the decoded event, stamped with the header position where the code does so, to the agent, and drops what is too short or cannot be decoded |
| `LogAdapter.BoundedLogAdapter.OnFragment` | cluster/bounded_log_adapter.go:48-75 | the single builder, the handed messages and the agent as the specification function says |
| `LogAdapter.FoldReplays` | cluster/bounded_log_adapter.go:48-75 | after any frames the agent is where replaying the events of the handed messages takes it |
| `LogAdapter.CycleIsBounded` | cluster/clustered_service_agent.go:358-374 | a duty cycle hands over only messages that end at or below the commit position it read |
| `LogAdapter.RunConsumesInOrder` | cluster/bounded_log_adapter.go:44-75 | over every run the adapter is where feeding it the consumed prefix at once would take it |
| `LogAdapter.AssemblesLikeOneSession` | cluster/bounded_log_adapter.go:48-75 | the single builder behaves as the per-session one does on one session |
| `LogAdapter.OnlyCommittedMessagesInOrder` | cluster/bounded_log_adapter.go:44-75 | over every run the agent was handed exactly the deliverable messages of the consumed frames, whole and in order, each within the commit position of its cycle |
| `LogAdapter.AgentStaysWithinIff` | cluster/bounded_log_adapter.go:77-182 | the agent's log position stays within a bound on the messages it was handed if and only if the positions that events carry themselves do |
| `LogAdapter.OwnPositionPasses` | cluster/bounded_log_adapter.go:134-162 | for every decoder, any message that decodes to an event naming a position beyond the end of the message takes the agent there |
| `LogAdapter.LogConsumer.Poll` | cluster/clustered_service_agent.go:358-374 | duty cycles over an image that holds nothing but a byte position make up a run of committed polls, and leave it at the start of the next frame |
| `LogAdapter.AgentSawExactlyCommitted` | cluster/clustered_service_agent.go:358-374 | at any time the agent is where the events of exactly the deliverable messages below the image's byte position take it, each within the commit position of its cycle |
| `ChannelUri.ParseChannelUri` | aeron/channeluri.go:91-151 | the loop computes the specification parser, errors included |
| `ChannelUri.String` | aeron/channeluri.go:212-234 | prints prefix, media and the parameters in sorted order |
| `ChannelUri.SortedUnique` | aeron/channeluri.go:222-228 | a set of keys has one sorted order, so printing is deterministic |
| `ChannelUriProof.ParseText` | aeron/channeluri.go:91-151 | the text of any known prefix, media and parameter list is read as meant |
| `ChannelUriProof.AcceptedIff` | aeron/channeluri.go:91-151 | the parser accepts exactly such texts |
| `ChannelUriProof.LastValueWins` | aeron/channeluri.go:129-147 | a repeated parameter has the value given last |
| `ChannelUriProof.RoundTripIff` | aeron/channeluri.go:212-234 | parsing a printed URI gives it back if and only if the prefix is empty or aeron-spy, no part holds its terminator, and all is ASCII |
| `ChannelUriProof.RoundTripFails` | aeron/channeluri.go:212-234 | two URIs that do not survive printing and parsing |
| `ChannelUriProof.CanonicalIff` | aeron/channeluri.go:91-234 | for an accepted string the URI survives printing and parsing, and its printed form is a fixed point, if and only if it is ASCII, as it is when the string is |
| `Sbe.Marshaller.WriteInt32` | archive/codecs/SbeMarshalling.go:135-142 | appends the four little-endian bytes |
| `Sbe.Marshaller.WriteInt64` | archive/codecs/SbeMarshalling.go:144-155 | appends the eight little-endian bytes |
| `Sbe.Marshaller.ReadUint32` | archive/codecs/SbeMarshalling.go:202-209 | reads four bytes or fails |
| `Sbe.Marshaller.ReadInt32` | archive/codecs/SbeMarshalling.go:238-245 | reads a two's complement int32 or fails |
| `Sbe.Marshaller.ReadInt64` | archive/codecs/SbeMarshalling.go:247-256 | reads a two's complement int64 or fails |
| `Sbe.SignedOfBytes` | archive/codecs/SbeMarshalling.go:135-256 | writing then reading an integer gives it back exactly when it fits the width |
| `Sbe.BytesOfSigned` | archive/codecs/SbeMarshalling.go:135-256 | reading then writing gives the same bytes |
| `RecordingDescriptor.Encode` | archive/codecs/RecordingDescriptor.go:31-95 | writes the fixed block and the three variable fields, or nothing when the range check fails |
| `RecordingDescriptor.Decode` | archive/codecs/RecordingDescriptor.go:97-240 | succeeds exactly when the specification does, with its descriptor and its rest |
| `RecordingDescriptor.BlockIff` | archive/codecs/RecordingDescriptor.go:97-188 | the thirteen integers at their offsets determine the fixed block and are determined by it |
| `RecordingDescriptor.ReadVarIff` | archive/codecs/RecordingDescriptor.go:193-204 | a variable field is read back if and only if its length fits in 32 bits |
| `RecordingDescriptor.DecodedIff` | archive/codecs/RecordingDescriptor.go:97-240 | exactly which bytes decode to a descriptor and leave a given rest, for every acting version and block length |
| `RecordingDescriptor.RoundTripIff` | archive/codecs/RecordingDescriptor.go:31-240 | decoding an encoding gives it back and consumes exactly its bytes if and only if every variable field is shorter than 2^32 |
| `RecordingDescriptor.TooLongFieldIsLost` | archive/codecs/RecordingDescriptor.go:76-81 | a field of 2^32 bytes does not survive |
| `RecordingDescriptor.LaterVersionDecodes` | archive/codecs/RecordingDescriptor.go:189-191 | a later version's longer block decodes to the same known fields, as section 5 (Schema Extension Mechanism) of FIX Simple Binary Encoding 1.0 requires |
| `RecordingDescriptor.TruncatedIsRejected` | archive/codecs/RecordingDescriptor.go:97-240 | no proper prefix of an encoding decodes |
| `Linger.ClientConductor.OnCheckManagedResources` | aeron/clientconductor.go:1132-1159 | while others enqueue, closes exactly the expired front of what was queued or arrived and moves the first young entry behind the rest |
| `Linger.ClientConductor.ForceCloseResources` | aeron/clientconductor.go:330-347 | closes everything queued, in order, and leaves the queue empty |
| `Linger.StepKeepsInv` | aeron/clientconductor.go:475-477 | every step of the conductor and of releasing goroutines keeps everything sent in exactly one place |
| `Linger.EachClosedOnce` | aeron/clientconductor.go:330-347 | over every run nothing is retired more often than it was sent, and at the end of the drain exactly as often; a check retires only what has expired |
| `Linger.ExpiredClosedWithin` | aeron/clientconductor.go:1132-1159 | an expired entry with i in front of it is closed once more by the time i + 1 checks have ended, although checks break the order of the queue |
| `Linger.ConductorBlockedIff` | aeron/clientconductor.go:1151-1153 | the conductor cannot go on exactly when it holds an entry to send and the channel is full |
| `Linger.BlockedCheckIsReachable` | aeron/clientconductor.go:1132-1159 | a reachable state in which a check is blocked for ever |
| `RoundRobin.Subscription.Poll` | aeron/subscription.go:163-190 | polls a rotation of the images from the round-robin index until the limit is used up, and moves the index |
| `RoundRobin.EachImageAtMostOnce` | aeron/subscription.go:163-190 | a poll visits no image twice, misses none unless the limit is used up, and never reads more than the limit |
| `RoundRobin.IndexCycles` | aeron/subscription.go:169-174 | the index runs through 0 to n and starts again, from any starting value |
| `RoundRobin.FirstExactly` | aeron/subscription.go:163-190 | over any n + 1 polls every image is first exactly once, except the first in the list, which is first exactly twice |
| `RoundRobin.ServedWithin` | aeron/subscription.go:199-227 | an image that has something is served within n + 1 polls, whatever the others have |

## Left out

- Memory mapping, file layout and unsafe addresses: memory is a map from word indexes, a map from term offsets to frames, or a sequence of bytes.
- A power-of-two capacity or term length is used through remainders; the ring buffer's `Init` ignores the result of its own check, so a capacity that is a multiple of 8 is an assumption here.
- The ring buffer's consumer is the media driver: it reads whole records, zeroes them word by word and then moves the head. Correlation ids and the heartbeat word are left out.
- The broadcast transmitter is the media driver: payloads are at most an eighth of a capacity of at least 128 bytes. A panic is final.
- Appends add to the low half of a tail and never carry into the term id. `TryClaim` is left out: it does not check the term count, so the precondition of rotation is not established there.
- A poll sees the frames of the term as they are when it starts; frames that appear meanwhile amount to a poll that starts later.
- ExactlyOnce.ExactlyOncePerSession: a session is carried by one image; messages with an empty first fragment of several are not among those delivered, because the code drops them.
- Image.LogImage.ControlledPoll: header fields other than length, type, flags, session, term id and offset are not modelled.
- ManyToOneTheorems.RunIsFifo: is about the runs without an overrun, which by `RunKeepsInvIff` are exactly those whose claims stay within the buffer.
- ManyToOneTheorems.RunAttended: is about the same runs.
- ManyToOneTheorems.QuiescentRunDeliversAllWrites: is about the same runs.
- BroadcastProof.DeliveredIsContiguous: is about the runs in which the receiver is never fooled, which by `StaysOnTrackIff` are exactly those in which it stays on the track of entries.
- BroadcastProof.CaughtUpMissedNothing: is about the same runs.
- RotationProof.ActiveMovesAfterReset: is about the runs without an early swap, which by `RunKeepsInvIff` are exactly those that keep the partitions right.
- LogAdapter.OnlyCommittedMessagesInOrder: the commit position is a frame boundary, or ahead of what was received, and at most 2^31 behind the image.
- LogLayout.AheadIsLog: that the buffer of the image's term holds the frames the log has there, up to a gap, is what publishers and flow control provide; frames are below 2^31 terms, and each lies in one term.
- LogAdapter.BoundedLogAdapter.OnMessage: the generated decoders of the cluster schema are a parameter; after a panic the model goes on taking frames, which no longer reach the agent.
- Recovery.SnapshotPlusSuffixIsFullReplay: each record of the snapshot is one fragment, and the set of response channels that can be opened does not change; `LoadRestoresIff` covers the case that it does.
- Snapshots that were not written by the snapshot taker.
- ChannelUri.String: `sort.Strings` is insertion into sorted order. The getters and setters read and write one field or one parameter, `Clone` copies the map and `Remove` deletes a key; none of them parses or prints.
- RecordingDescriptor.Decode: every field exists since version 0, so the version tests of single fields are always true and left out; field contents after an error are not specified.
- The other generated codecs, which have the same shape, and the float and 8- and 16-bit integer routines.
- Linger.ClientConductor.OnCheckManagedResources: the channel's capacity is not in the method but in the transition system, where sending can block. Errors from `Close` are only logged by the code.
- `closeAllResources`, `addImage` and `removeImage`: they change slices that are being ranged over or read concurrently.
- RoundRobin.Subscription.Poll: what an image delivers is a function of the image and the limit, which suffices as each image is polled once.
- Archive client, proxies and handshakes, clocks, logging, idle strategies, options and counters.
