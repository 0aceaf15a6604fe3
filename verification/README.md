# KWIK in Dafny

KWIK is a multipath transport: an application's byte streams are cut into frames, the frames packed into numbered packets, the packets written to any of several paths, acknowledged, retransmitted and reassembled. This project models that machinery and proves what it keeps, from the byte codec up to two endpoints over a network that loses, repeats and reorders packets. On top of it stand models of the split file transfer example and of the HTTP printer and parser.

The duties are those of QUIC: ordered delivery (section 2.2 of RFC 9000), packet numbers that are never reused (section 12.3) and ACK ranges (section 19.3.1). The wire format is the program's own.

Run `dafny verify dfyconfig.toml` to check everything.

## How the model is built

- What the program updates in place is a class whose methods have the program's loops: `RecvStream`, `SendStream`, `StreamImpl`, `Packer`, `Multiplexer`, `StreamBuffer`, `ReceptionBuffer`, `HTTPHeaders`. Each method is proved equal to a function on values (`HandleFrame`, `Popped`, `SubmitFrame`, `OnAck`, `Collect`, ...). The theorems about runs are about those functions.
- `Connection` puts the same functions together into a transition system of two endpoints. A submission is one step from popping to writing, and the other steps are single critical sections; a packet that was written once may be received any number of times, at any time, or never. `ConnectionInvariant` states what every step keeps, `ConnectionRuns` draws the conclusions, and `ConnectionWire` shows that the packets of a run are what the bytes on the wire read back as.
- `PackerEffects`, `ConnectionLaws` and `WireImages` say what operations, steps and codecs do in plain fields, numbers and byte positions, independently of the functions they are made of; `FlushLoop` is the loop that works off what submissions leave behind.
- `StreamOpen` and `StreamOpenSync` take each access to a shared map or channel as a step of its own, because the outcome depends on how they interleave.
- Numbers and offsets are unbounded naturals. Where the 64-bit or 32-bit width of a field decides, `Fits` says so.

## Where the program departs from its intent

The program is modelled as it is. Where a promise fails, a lemma gives an input, or a whole family of inputs, on which it fails, and another says exactly when it holds. Two of the departures decide whether a stream arrives at all; for these, `Variant` selects the loop as written or the repaired one, and the theorems are proved for both.

- `stream.go:50` deletes the offset reached, not the one consumed, so the second of two buffered frames that continue the stream is thrown away (`RecvStreams.ThreeFramesOutOfOrder`, `RecvStreams.AsWrittenCompletesExactly`).
- `internal/protocol/packet.go:145-167` never moves its cursor, so a packet of n frames reads as n copies of the first (`Packets.AsWrittenLosesTheSecondFrame`, `Packets.AsWrittenRoundTripExactly`). Such a packet is acknowledged as a whole, so its other frames are gone for good (`ConnectionExample.SecondWriteNeverArrives`, `ConnectionRuns.AsWrittenQuiescence`).
- `internal/transport/packer.go:103-105` breaks out of the switch and not the loop: all queued frames are taken (`Assembly.SubmitFrameExactly`). Nothing is ever queued but behind a stream frame too large by itself, which has every later SubmitFrame on its path refused (`PackerRuns.OversizedFrameBlocks`, `PackerRuns.RefusedExactly`).
- `internal/transport/packer.go:690-712` pops frames before it knows that they fit (`Assembly.SubmissionConservesExactly`, `Assembly.LargeWriteIsLost`).
- `internal/transport/packer.go:777-786` returns on a failed write before it schedules what is left in the buffer, which then waits for the next write (`FlushLoop.SubmissionListsExactly`).
- `internal/transport/packer.go:162-167` with `internal/transport/path.go:755-787` prefix the length twice: a body in the last 4 bytes of the packer's limit stops the receiver's reader (`Framing.FullPacketStopsReader`, `Framing.WireDelivery`).
- `internal/transport/packer.go:415-423` and `465-474` count one drop twice when the last write finds its stream gone (`PackerRuns.OneDropCountsTwice`, `PackerRuns.DroppedCountExactly`). In this program no write does: the error comes only from `CloseStream` (`internal/transport/path.go:842`) and `stream_manager.go:91`, not from `path.WriteStream`, and the loop is only started without a resend function (`internal/transport/packer.go:64`). The branch needs another implementation of a path or a resend function of its own.
- `internal/transport/packer.go:616-624` forgets the numbers of an unregistered path, so they are handed out again when it is registered again (`PackerRuns.NumberHandedOutTwice`, `PackerRuns.NumbersReusedExactly`). In this program such a number never reaches the wire: path identifiers only grow (`internal/transport/path_manager.go:60` and `79`), and a closed path refuses writes (`internal/transport/path.go:755-762`).
- `stream.go:506-534` asks for a flush after every write, so writes are never batched (`SendStreams.EveryWriteIsFlushed`).
- Server and relay agree on offsets only for windows that start at an even chunk or are empty (`Transfer.RelayAgreesExactly`, `Transfer.AllWindowsAgreeExactly`).
- `internal/transport/path.go:503-532` and `619-650` can strand an accept (`StreamOpen.LateStoreStrands`, `StreamOpen.SharedWaiterStrands`, `StreamOpen.StrandedExactly`), and `436-482` with `602-611` can send on a closed channel (`StreamOpenSync.LateResponsePanics`, `StreamOpenSync.SendPanicsExactly`).
- `kwikhttp/server.go:144-149` sets no version: the response never parses (`Http.WriterResponseNeverReadsBack`).

## Model

| member | source | states |
|---|---|---|
| ConnectionRuns.PrefixSafety | stream.go:38-99 | In every run of two endpoints, for both variants and both directions, the bytes returned by Read and those still readable are the first `expected` bytes the other side wrote |
| ConnectionRuns.AckSoundness | internal/transport/multiplexer.go:421-520 | In every run a number is retired as acknowledged only if the peer recorded it, and a recorded number was sent and is still to be acknowledged or covered by a submitted ACK frame, even when packets come in between snapshot and clean-up |
| ConnectionRuns.QuiescenceExactly | internal/transport/packer.go:664-790 | In every run, for a stream with an empty buffer whose own packets were acknowledged and are not being handled, whatever became of other packets: the whole stream has arrived exactly when every frame of it was recorded in a packet that reads back with it and every frame the receiver had to drop came again |
| ConnectionRuns.AsWrittenQuiescence | internal/protocol/packet.go:139-170 | As written: exactly when each frame of the stream was recorded and came first in its packet and every dropped frame came again |
| ConnectionExample.SecondWriteNeverArrives | internal/protocol/packet.go:145-167 | A run as written in which everything is recorded and acknowledged, nothing is dropped, and the second of two bytes never arrives |
| ConnectionRuns.RepairedQuiescence | stream.go:42-61 | With the repaired loops, a stream that existed at the receiver whenever a frame of it was handled is then complete exactly when everything taken from its buffer was recorded, whatever the order, loss and repetition |
| ConnectionRuns.LosslessRecords | internal/transport/packer.go:688-772 | Everything taken from a stream was recorded when no submission of the endpoint took more than it recorded |
| ConnectionRuns.RunKept | internal/transport/multiplexer.go:273-356 | The invariant holds in every state of every run from two new endpoints |
| ConnectionRuns.StepKept | internal/transport/multiplexer.go:273-356 | Each of the fourteen steps of an endpoint keeps the invariant: packet accounting, the table, the tiling of each stream, ACK frames, the prefix at the receiver and the fate of every handled frame |
| ConnectionReception.HandleNextKept | internal/transport/multiplexer.go:273-356 | Dispatching the next frame of a received packet keeps the invariant |
| ConnectionReception.DeliveredFlow | stream.go:38-66 | A frame of the stream leaves a receiver with a prefix of it, holds that frame, and lets go of nothing but what the drain loop as written throws away |
| ConnectionStreams.SubmitKept | internal/transport/packer.go:664-772 | Popping, packing, numbering, recording and writing stream frames keeps the invariant; the frames extend the tiling of the stream |
| ConnectionStreams.ExtendGrows | stream.go:151-199 | Consecutive frames of the stream's next bytes extend its tiling without gap or overlap, and every older tile and boundary stays |
| ConnectionSubmissions.ControlKept | internal/transport/packer.go:77-231 | Submitting a control or ACK frame keeps the invariant |
| ConnectionAcks.AckSubmitKept | internal/transport/multiplexer.go:460-477 | Submitting an ACK frame keeps the invariant, and once it is recorded everything in its ranges has an ACK on the way |
| ConnectionAcks.AckCleanupKept | internal/transport/multiplexer.go:498-520 | The clean-up after a submitted ACK drops only numbers that have an ACK on the way |
| ConnectionAcks.ReceiveKept | internal/transport/multiplexer.go:421-448 | Receiving any packet that was sent, for the first time or again, keeps the invariant |
| ConnectionSteps.CollectKept | internal/transport/packer.go:353-386 | The collecting half of the retransmit loop keeps the invariant |
| ConnectionSteps.UpdateKept | internal/transport/packer.go:407-477 | The write and update of one retransmitted packet keeps the invariant |
| ConnectionSteps.CancelKept | internal/transport/packer.go:629-654 | Cancelling a stream's packets keeps the invariant |
| ConnectionWire.WireCarriesPackets | internal/transport/packer.go:159-167 | In every run, recorded packets written to a path in any order and cut in any way read back one for one with the number and the frames that the receiving steps take up, all of them exactly when every body leaves room for the second length prefix |
| ConnectionLaws.NetExactly | internal/transport/packer.go:404-404 | In every run and for both sides a packet is on the network exactly when an event before put it there: its submission, or a retransmission of it, written without error |
| ConnectionLaws.LossIsRepaired | internal/transport/packer.go:353-404 | From every reachable state: a pending packet that is due and has attempts left is on the network after the next pass whose write succeeds, and the peer, once its reader is free, can receive it and has then recorded it |
| ConnectionLaws.AckRetires | internal/transport/multiplexer.go:450-520 | From every reachable state: when a snapshot is acknowledged and the ACK is written, received and handled, every packet of the snapshot is out of the table as acknowledged, and the clean-up leaves nothing of it |
| ConnectionLaws.CleanUpExactly | internal/transport/multiplexer.go:498-520 | The clean-up step takes what the ranges describe off the list and keeps what was recorded since |
| ConnectionLaws.LargestAcked | internal/transport/multiplexer.go:466-472 | The LargestAcked field is the largest recorded number |
| ConnectionLaws.CancelledExactly | internal/transport/packer.go:629-654 | In every run, closing a stream other than 0 leaves no pending packet with a frame of it, and no packet without one changes its entry or its fate |
| ConnectionLaws.ReadDelivers | stream.go:69-99 | In every run a read hands over the next bytes that are there, as many as there is room for, and touches no other stream |
| ConnectionLaws.ControlIsSent | internal/transport/packer.go:77-231 | In every run a control frame that fits goes out at once in a packet of its own |
| ConnectionLaws.StreamIsSent | internal/transport/packer.go:664-790 | In every run what is buffered on a stream, if it fits, goes out whole in one packet on submission, and the buffer is empty |
| RecvStreams.RecvStream.HandleStreamFrame | stream.go:38-66 | The handler with its drain loop does to the stream's fields exactly what `HandleFrame` as written says |
| RecvStreams.RecvStream.Read | stream.go:69-99 | Read returns the next bytes up to the room given, the end of the stream only when the buffer is empty and Fin was seen, and otherwise waits; the read offset moves by what it returned |
| RecvStreams.RecvStream.SetReadOffset | stream.go:107-114 | Moving the read offset drops everything buffered |
| RecvStreams.ReadOffsetIsDelivered | stream.go:101-105 | With a prefix of the stream read and readable, the read offset is the number of bytes that were read |
| RecvStreams.HandleFrameFaithful | stream.go:38-66 | Every frame that is a slice of the stream, in any order and however often, leaves a prefix of the stream and slices further on |
| RecvStreams.StepsAgreeExactly | stream.go:46-51 | Frame by frame the loop as written delivers no more than the repaired one, and the same exactly when there is no second contiguous entry to throw away |
| RecvStreams.RepairedStep | stream.go:42-61 | Repaired, a frame that arrives is held from then on and nothing held is lost |
| RecvStreams.AsWrittenStep | stream.go:42-61 | As written, a frame that arrives is held, and at most the one discarded entry is lost, at which the stream then waits |
| RecvStreams.RepairedCompletesExactly | stream.go:42-61 | Repaired, a stream cut into non-empty frames is complete exactly when every frame arrived, in any order |
| RecvStreams.AsWrittenCompletesExactly | stream.go:42-61 | As written, it is complete exactly when every frame arrived and every frame thrown away arrived once more afterwards |
| RecvStreams.AsWrittenOnceEach | stream.go:42-61 | When each frame arrives once, it is complete exactly when none was thrown away |
| RecvStreams.ThreeFramesOutOfOrder | stream.go:46-51 | Three one-byte frames arriving as 1, 2, 0 deliver two bytes as written and three repaired |
| RecvStreams.RunFaithful | stream.go:38-99 | Whatever frames arrived, what can be read is the first `expected` bytes of the stream |
| RecvStreams.EndSeenExactly | stream.go:42-61 | The end of the stream is seen exactly when a frame with the mark arrives in its turn |
| SendStreams.SendStream.Write | stream.go:140-149 | Write appends the bytes as one chunk, moves the write offset and asks for a flush |
| SendStreams.SendStream.PopFrames | stream.go:151-199 | The popping loop makes exactly the frames and leaves exactly the chunks that `Popped` says |
| SendStreams.PopFramesSegments | stream.go:151-199 | For any budget the frames carry the first min(budget, buffered) bytes at consecutive offsets from the base, the rest stays buffered in order, the offsets stay consistent and no frame is empty |
| SendStreams.WriteKeepsConsistent | stream.go:140-149 | Write offset = base + buffered bytes and flush flag = non-empty buffer are kept by a write, which appends to the buffered bytes |
| SendStreams.SetWriteOffsetExactly | stream.go:377-391 | Setting the write offset keeps the offsets consistent exactly when nothing is buffered |
| SendStreams.EveryWriteIsFlushed | stream.go:506-534 | After every write the flush decision is yes; with consistent offsets it is yes exactly when something is buffered |
| SendStreams.StreamImpl.Write | stream.go:286-361 | A write to the primary path buffers the bytes; on a failed submission they stay in the send stream while the stream's own offset does not move |
| SendStreams.StreamImpl.AddPath | stream.go:426-471 | Adding a path keeps a primary path that is attached whenever any path is |
| SendStreams.StreamImpl.RemovePath | stream.go:474-495 | Removing a path keeps it too, and replaces the primary path only if it was removed |
| SendStreams.StreamImpl.SetWriteOffset | stream.go:377-391 | Both objects take the new offset, and the buffer keeps its bytes |
| Packers.Packer.RecordPacket | internal/transport/packer.go:141-205 | Numbering, the size check, the path check and the entry in the table, in this order |
| Packers.Packer.Submit | internal/transport/packer.go:77-231 | SubmitFrame with its loop: the queue, the refusal of an oversized stream frame, and the packet of everything queued |
| Packers.Packer.SubmitStream | internal/transport/packer.go:664-790 | SubmitFromSendStream with its loop: what is popped, kept, recorded and left for the flush loop |
| Packers.Packer.Acknowledge | internal/transport/packer.go:235-271 | OnAck with its loops removes exactly the covered pending packets of the path and counts each once |
| Packers.Packer.CollectTasks | internal/transport/packer.go:353-386 | The collecting loop, in any order of the map, takes exactly the due packets with attempts left, adds an attempt to each, and drops and counts exactly the due ones without |
| Packers.Packer.UpdateTask | internal/transport/packer.go:407-477 | The update after one write: dropped, rescheduled or given up |
| Packers.Packer.CancelFramesForStream | internal/transport/packer.go:629-654 | Removes exactly the pending packets that list the stream |
| Packers.Packer.RegisterPath | internal/transport/packer.go:591-613 | Registers the path and starts its numbers at 0 if it has none |
| Packers.Packer.UnregisterPath | internal/transport/packer.go:616-626 | Forgets the path, its numbers and its pending packets |
| PackerEffects.CollectExactly | internal/transport/packer.go:353-386 | A pass leaves alone what is not due, takes what is due with fewer than 12 tries and adds one, and drops the rest |
| PackerEffects.UpdateExactly | internal/transport/packer.go:407-477 | A written packet goes when its stream is gone or at the twelfth try, and is put off by the wait otherwise; no other is touched |
| PackerEffects.AckExactly | internal/transport/packer.go:235-271 | An ACK removes and counts exactly the packets of its path with a number in one of its ranges |
| PackerEffects.CancelExactly | internal/transport/packer.go:629-654 | Cancelling a stream removes exactly the packets with a stream frame of it, and for stream 0 also those with any other frame |
| PackerEffects.SubmissionExactly | internal/transport/packer.go:141-205 | A recorded packet has its path's next number, one try, 200 ms to its retry and the stream it came from |
| PackerEffects.WaitTable | internal/transport/packer.go:432-462 | 400, 800, 1600 and then 3000 ms after a good write; 200, 400, 800, 1600 and then 3000 ms and up to a quarter more after a failed one |
| FlushLoop.FlushRound | internal/transport/packer.go:497-555 | A round of the flush loop goes through the list as it was, in any order, and does to packer and send streams what `Round` says |
| FlushLoop.SubmissionListsExactly | internal/transport/packer.go:783-789 | A submission lists its stream exactly when it was written without error and leaves something behind, and touches no other entry |
| FlushLoop.LeftoversAreListed | internal/transport/packer.go:783-789 | In every run a stream whose last submission was written without error and left something behind is on the list with its path |
| FlushLoop.FlushedExactly | internal/transport/packer.go:520-552 | On a registered path n rounds empty the buffer and take the stream off the list exactly when no more than n times the packet limit was buffered |
| Assembly.EstimateShortfall | internal/transport/packer.go:97-99 | The code's size estimates sum to 21n + L and fall short of the serialised body by 17 + 5n |
| Assembly.FitExactly | internal/transport/packer.go:696-718 | The packing loop keeps a prefix of the frames, and all of them exactly when their estimates fit |
| Assembly.SubmissionConservesExactly | internal/transport/packer.go:688-772 | All popped frames are recorded exactly when the path is registered and 17 + 26n + L is within the limit; otherwise what is recorded is a strict prefix or nothing |
| Assembly.WholeBufferSubmitted | internal/transport/packer.go:688-772 | When everything buffered fits, one submission records exactly those bytes at consecutive offsets, the buffer ends empty and the body has 17 + 26n + L bytes |
| Assembly.LargeWriteIsLost | internal/transport/packer.go:690-712 | A single write within 43 bytes of the limit is popped and never recorded |
| Assembly.SubmitFrameExactly | internal/transport/packer.go:94-170 | A frame goes out exactly when nothing queued is too large by itself, the whole body is within the limit and the path is registered; the packet then carries everything queued |
| Assembly.BlockedQueueStaysBlocked | internal/transport/packer.go:93-102 | A queue that holds an oversized frame refuses every later SubmitFrame and stays so |
| PackerRuns.RunBalanced | internal/transport/packer.go:141-209 | In every run, each number handed out under a registration that stands is pending or acked, dropped, cancelled or rejected, never two of these, the counters equal the class sizes over all registrations up to double counting, and no packet is written more than 12 times |
| PackerRuns.StepBalanced | internal/transport/packer.go:235-271 | Every operation of the packer, unregistering included, keeps this accounting |
| PackerRuns.NumbersAreFresh | internal/transport/packer.go:141-145 | In every run each submission uses the next number of its path, not known under the present registration and larger than all used since the path was last unregistered, whatever became of other paths |
| PackerRuns.DroppedCountExactly | internal/transport/packer.go:415-474 | The drop counter is the number of dropped packets exactly when no write of a last attempt found its stream gone |
| PackerRuns.OneDropCountsTwice | internal/transport/packer.go:415-474 | A run in which one packet is dropped and the counter says two |
| PackerRuns.NumbersReusedExactly | internal/transport/packer.go:141-145 | In every run a number is handed out twice on a path exactly when the path was unregistered between two uses of it |
| PackerRuns.NumberHandedOutTwice | internal/transport/packer.go:591-626 | A run of two registrations in which number 1 is handed out twice |
| PackerRuns.RegisteredExactly | internal/transport/packer.go:591-626 | In every run a path counts as registered exactly when it was registered and not unregistered since |
| PackerRuns.GivenUpAfterTwelve | internal/transport/packer.go:353-474 | In every run in which no write finds its stream gone, a packet is given up only after twelve writes |
| PackerRuns.BlockedForever | internal/transport/packer.go:93-102 | Whatever else the packer does, a path blocked by an oversized frame refuses every SubmitFrame from then on |
| PackerRuns.OversizedFrameBlocks | internal/transport/packer.go:93-102 | One stream frame above the limit is refused, stays in the queue, and has every later SubmitFrame on its path refused |
| PackerRuns.QueueExactly | internal/transport/packer.go:82-139 | In every run the queue of a path is empty, or holds an oversized frame, and this exactly when one was ever submitted on the path |
| PackerRuns.RefusedExactly | internal/transport/packer.go:82-170 | In every run SubmitFrame refuses a frame exactly when it or an earlier one on the path is above the limit; otherwise the frame goes out alone, exactly when its body is within the limit and the path registered |
| Retransmission.WaitBounds | internal/transport/packer.go:432-462 | Waits are at most 3000 ms after a good write, and after a failed one the capped backoff plus a jitter below a quarter of it |
| Retransmission.CollectUsesEffort | internal/transport/packer.go:354-386 | Each pass lowers the attempts left in the table by exactly the number of packets it sends |
| Retransmission.OnlySubmissionsAddEffort | internal/transport/packer.go:354-474 | No operation adds attempts but a submission, which adds 11 |
| Retransmission.GivenUpInTime | internal/transport/packer.go:354-474 | In every run in which the loop updates a packet it collected before it collects again and keeps to its slack, with any submissions, ACKs, cancellations and other updates in between, a packet is out of the table before the first pass that begins after a deadline computed from its next retry and its attempts left |
| Retransmission.FreshPacketGivenUpBy | internal/transport/packer.go:58-60 | In such a run a packet submitted at `now` is out of the table before the first pass after now + 37.69 s and 21 times the slack |
| Retransmission.NotBeforeFirstRetry | internal/transport/packer.go:357-360 | In every run the first pass that takes up a packet submitted at t begins at t + 200 ms or later |
| Retransmission.NotBeforeNextRetry | internal/transport/packer.go:357-360 | In every run the next pass that takes it up after an update at t begins no earlier than t plus the wait chosen there |
| Retransmission.RetriesApart | internal/transport/packer.go:357-360 | Two passes that take up the same packet are at least 200 ms apart when times grow |
| AckRanges.Multiplexer.RecordReceivedPacket | internal/transport/multiplexer.go:421-448 | Records the number on its path and asks for an urgent ACK from 16 numbers on |
| AckRanges.Multiplexer.GetAckRanges | internal/transport/multiplexer.go:522-567 | The ranges are ascending, non-empty, disjoint and non-adjacent, and cover exactly the recorded numbers |
| AckRanges.Multiplexer.CleanupAckedPackets | internal/transport/multiplexer.go:498-520 | Deletes the covered numbers of the path, and the path when none is left |
| AckRanges.DescriptionIsUnique | internal/transport/multiplexer.go:522-567 | A set of numbers has only one such list of ranges |
| AckRanges.CleanedExactly | internal/transport/multiplexer.go:498-520 | Cleaning up with the ranges of a set removes exactly that set; numbers recorded in between stay |
| ReceptionBuffers.StreamBuffer.Read | internal/transport/stream_buffer.go:28-43 | The read loop returns everything up to the first gap and moves the offset there |
| ReceptionBuffers.ReceptionBuffer.PushStreamFrame | internal/transport/multiplexer.go:53-83 | A seen offset is ignored; another is cached, the cache trimmed, and the frame stored |
| ReceptionBuffers.ReceptionBuffer.CleanupSeenOffsets | internal/transport/multiplexer.go:85-104 | Over 1000 entries, the cache keeps its largest half |
| ReceptionBuffers.ReceptionBuffer.PopAllFrames | internal/transport/multiplexer.go:106-135 | Pops what a read of the buffer returns |
| ReceptionBuffers.CacheBounded | internal/transport/multiplexer.go:53-104 | The cache never holds more than 1000 offsets after a push |
| ReceptionBuffers.DuplicateIgnoredExactly | internal/transport/multiplexer.go:53-104 | A second frame at an offset just pushed is ignored exactly when nothing was evicted or its offset is among the 500 that were kept |
| ReceptionBuffers.RunReadsPrefix | internal/transport/multiplexer.go:53-135 | In every run of pushes and pops the results concatenate to a growing prefix of the stream, whatever was evicted |
| ReceptionBuffers.ReadIsCompleteExactly | internal/transport/stream_buffer.go:17-43 | A read reaches the first frame not pushed, so the stream is complete exactly when every frame was pushed |
| Frames.FrameRoundTrip | internal/protocol/frame.go:62-462 | Each of the eight parsed frame kinds reads back from its bytes, with any bytes behind it left over |
| WireImages.FrameImage | internal/protocol/frame.go:38-430 | Each kind has its number in byte 0 and each field stands big-endian at its fixed place |
| WireImages.ParsedKind | internal/protocol/frame.go:432-462 | Whatever parses begins with 1, 2, 5, 6, 7, 8, 9 or 10 and is of the kind with this number |
| Frames.ParsedFrameSerializes | internal/protocol/frame.go:432-462 | What parses serialises back to the bytes consumed exactly when its flag byte, if it has one, is 0 or 1; the size is right either way |
| Frames.SerializeAck | internal/protocol/frame.go:366-395 | The ACK writer's loop gives the specified bytes |
| Frames.ParseAckFrame | internal/protocol/frame.go:397-430 | The ACK reader's loop gives the specified result on every input |
| Packets.WritePacket | internal/protocol/packet.go:71-102 | The serialising loop gives header, count and frames |
| Packets.ReadPacket | internal/protocol/packet.go:104-174 | The parser as written gives the specified result on every input |
| WireImages.PacketImage | internal/protocol/packet.go:71-102 | Type in byte 0, number from 1, frame count from 9, frames from 17 |
| WireImages.FramesStand | internal/protocol/packet.go:94-100 | Each frame stands whole behind those before it |
| Packets.PrefixedPacketDecodes | internal/protocol/packet.go:104-126 | A body behind its own length decodes, in both variants, to what the variant makes of its frames |
| Packets.BarePacketDecodes | internal/protocol/packet.go:104-174 | So does a bare body that does not look length-prefixed |
| Packets.TooManyFramesRefused | internal/protocol/packet.go:138-140 | More than 10000 frames are refused |
| Packets.SmallNumberNeverLooksPrefixed | internal/protocol/packet.go:104-120 | A body with a packet number below 2^40 never looks length-prefixed when its type is 0, as the packer writes it, or it is shorter than 2^24 + 4 bytes |
| Packets.LooksPrefixedExactly | internal/protocol/packet.go:104-120 | A body looks length-prefixed exactly when type and top of the number, read as one 4-byte number, are the length of the rest |
| Packets.SmallNumberRoundTrip | internal/protocol/packet.go:71-174 | Every packet of at most 1 MiB and 10000 frames with a number below 2^40, whatever its type, reads back from its bare body: repaired as itself, as written with its first frame repeated |
| Packets.RepairedRoundTripExactly | internal/protocol/packet.go:71-174 | Repaired, a bare body reads back exactly when it has at most 10000 frames and does not look length-prefixed |
| Packets.AsWrittenRoundTripExactly | internal/protocol/packet.go:104-174 | As written, it reads back exactly when, besides, all its frames are the same frame |
| Packets.AsWrittenLosesTheSecondFrame | internal/protocol/packet.go:145-167 | A ping and an open-stream frame read back as two pings |
| Framing.RunReader | internal/transport/reader.go:78-170 | However the bytes are cut into reads, the loop hands over the packets of a one-shot parse of all of them, skips zero lengths and stops at a length above 1 MiB |
| Framing.DeframeMore | internal/transport/reader.go:109-166 | More bytes never change what was found before them |
| Framing.DeframeUndoesWrites | internal/transport/path.go:755-787 | What the writes framed comes back, up to the first buffer above 1 MiB, which stops the reader |
| Framing.AllReadBackExactly | internal/transport/path.go:755-787 | All written buffers come back exactly when none is above 1 MiB |
| Framing.EmptyPacketSkipped | internal/transport/reader.go:114-120 | A zero length is skipped wherever the reader stands |
| WireImages.WrittenImage | internal/transport/path.go:755-787 | A written buffer follows its length in four bytes, big-endian |
| WireImages.OutputImage | internal/transport/packer.go:159-167 | The packer's buffer is the body's length in four bytes and the body |
| Framing.WireDelivery | internal/transport/packer.go:159-167 | From the packer through the wire to the multiplexer, packets that pass the size check arrive in order, all of them exactly when every body leaves room for the second length prefix |
| Framing.FullPacketStopsReader | internal/transport/path.go:755-787 | A stream frame of 1048533 bytes passes the packer's size check, and neither it nor any packet behind it is read |
| Transfer.ServerWindow | examples/file_transfer/server/server.go:208-255 | The server's loop writes the even chunks of its window at the planned offsets |
| Transfer.PlanOffsets | examples/file_transfer/server/server.go:158-180 | The loop gives each chunk of the window the offset behind the messages before it |
| Transfer.FindFirstOdd | examples/file_transfer/server/server.go:184-190 | The search gives the first odd chunk of the window, if there is one |
| Transfer.RelayWindow | examples/file_transfer/relay/relay.go:124-177 | The relay's loop writes the odd chunks at offsets it adds up itself |
| Transfer.BuildMessage | examples/file_transfer/server/server.go:244-247 | A chunk becomes an 8-byte index, a 4-byte size and its data |
| WireImages.MessageImage | examples/file_transfer/server/server.go:244-247 | Index in eight bytes, size in four, and the file's bytes from index times chunk size on |
| Transfer.RelayAgreesExactly | examples/file_transfer/relay/relay.go:124-177 | The relay's writes equal the server's plan for the odd chunks exactly when the window starts at an even chunk or is empty |
| Transfer.AllWindowsAgreeExactly | examples/file_transfer/server/server.go:150-206 | All windows agree exactly when the window size is even or there is one window |
| Transfer.WindowSizeIsTwelve | examples/file_transfer/server/server.go:23-28 | The program's window size is 12 |
| Transfer.ChunkFacts | examples/file_transfer/server/server.go:111-116 | Chunks are non-empty, at most the chunk size, within the file, adjacent, and the last ends at its end |
| Transfer.WindowFacts | examples/file_transfer/server/server.go:113-120 | Windows are non-empty, adjacent and end at the last chunk |
| Transfer.LayoutIsATiling | examples/file_transfer/server/server.go:158-260 | Metadata and messages tile the stream: no gap, no overlap |
| Transfer.LayoutIsTheStream | examples/file_transfer/server/server.go:158-260 | The tiles are the bytes of the metadata followed by all messages in order |
| Transfer.WindowWritesTile | examples/file_transfer/relay/relay.go:131-177 | With an even window size, server and relay together write each chunk of the window once, the even and the odd ones apart, at its place in that layout |
| Transfer.TransferDelivered | stream.go:42-61 | Whatever the arrival order of the two senders' frames, once all arrived metadata and messages are readable in order with the repaired loop; as written exactly when thrown-away frames come again, and in any case what is readable is their beginning |
| TransferWrites.WriteIsOneFrame | stream.go:286-361 | A write at an offset set before it, on a stream with nothing buffered, becomes one packet with one frame of the whole payload at that offset, and nothing stays behind |
| TransferWrites.EachWriteOneFrame | stream.go:286-361 | So does each of any number of writes one after the other, whatever the packer does between them |
| TransferWrites.WritesAreTheTiles | examples/file_transfer/server/server.go:150-262 | What server and relay write over all windows, at offsets each adds up for itself, is exactly the metadata and the messages at their places in the layout |
| TransferWrites.TransferFrames | examples/file_transfer/server/server.go:22-28 | With the program's chunk, window and packet sizes all windows agree, every write fits and leaves as a packet of one frame, and the frame is a tile of the layout |
| TransferClient.ReadChunks | examples/file_transfer/client/client.go:91-153 | The reading loop collects the messages, ignores repeated chunks, stops at the total, and never sends more notifications than the channel holds |
| TransferClient.FirstCopyStays | examples/file_transfer/client/client.go:141-151 | The first copy of a chunk stays, whatever follows |
| TransferClient.Assemble | examples/file_transfer/client/client.go:240-251 | The assembly concatenates chunks 0 to total in order, or fails at a missing one |
| TransferClient.CountWindows | examples/file_transfer/client/client.go:167-179 | The window loop consumes exactly as many notifications as there are chunks |
| TransferClient.ClientRestoresFile | examples/file_transfer/client/client.go:91-153 | Reading the messages gives one entry for each chunk and nothing else, and putting them in order gives the file |
| TransferClient.DownloadRestoresFile | examples/file_transfer/client/client.go:240-251 | Once the two senders' frames have all arrived, in any order and repetition, the client puts together the file: repaired always, as written exactly when every frame thrown away came again |
| TransferClient.ShortReadLacksAChunk | examples/file_transfer/client/client.go:240-251 | From any shorter beginning of the messages the client cannot put the file together |
| TransferWrites.TransferRestoresFile | examples/file_transfer/client/client.go:91-251 | The same from the writes of server and relay on: their frames arrive in any order and repetition, and the client has the file, repaired always, as written exactly when every frame thrown away came again |
| TransferWrites.TransferSurvivesNetwork | internal/transport/packer.go:159-167 | The same through packets and their bytes: the packets of both senders are written under any numbers and arrive in any order and repetition, each at least once, and are decoded by the parser; the client has the file, repaired always, as written exactly when every frame thrown away came again |
| StreamOpen.RunSound | internal/transport/path.go:619-650 | In every interleaving of accepts and retransmitted OpenStream frames no waiter channel is closed twice and no accept succeeds before a frame was handled |
| StreamOpen.StrandedExactly | internal/transport/path.go:512-522 | A waiter's channel can be closed by this frame or the next exactly until another call deletes the shared entry or the handler stores its own over it |
| StreamOpen.WokenExactly | internal/transport/path.go:624-637 | The handling of a frame, with any steps between its lookup and its end, closes a waiting accept's channel exactly when the lookup could find it or it was closed |
| StreamOpen.JoinedWokenExactly | internal/transport/path.go:503-532 | From an accept's joining to the end of a later frame's handling, its channel is closed exactly when no step before that frame stranded it |
| StreamOpen.ClosedCompletes | internal/transport/path.go:523-529 | An accept on a closed channel goes on to register the stream, to return success and to take the entry away |
| StreamOpen.GivingUpFails | internal/transport/path.go:519-531 | A call that gives up returns failure, takes the entry away and registers nothing |
| StreamOpen.LaterCallsReturn | internal/transport/path.go:506-508 | Once the stream is registered every later call returns at once with success, and before that none does |
| StreamOpen.AloneIsNeverStranded | internal/transport/path.go:503-532 | With one call at a time, and none joining between the handler's lookup and store, no step strands it |
| StreamOpen.LateStoreStrands | internal/transport/path.go:624-637 | An accept that joins between lookup and store waits on a channel nothing will close |
| StreamOpen.SharedWaiterStrands | internal/transport/path.go:512-531 | When one of two accepts that share a channel gives up, the other is stranded |
| StreamOpenSync.OpenedAfterHandled | internal/transport/path.go:436-482 | In every interleaving the opener registers the stream only after the peer handled an OpenStream frame that was sent for it; with one call, its own |
| StreamOpenSync.AnyResponseCompletes | internal/transport/path.go:602-611 | The response to any earlier call completes the one that waits now |
| StreamOpenSync.FailedCallEnds | internal/transport/path.go:448-481 | A call that gives up or whose submission failed ends without an answer, its entry gone, and registers nothing |
| StreamOpenSync.LaterCallsEnd | internal/transport/path.go:439-443 | Once the stream is registered a later call ends at once, without entry, channel or frame |
| StreamOpenSync.SecondResponseDropped | internal/transport/path.go:602-611 | A response that finds the channel full is dropped |
| StreamOpenSync.SendPanicsExactly | internal/transport/path.go:448-452 | The reader's send on a response channel panics exactly when the owning call closed the channel after the lookup |
| StreamOpenSync.LateResponsePanics | internal/transport/path.go:448-482 | A run in which the call gives up and closes its channel between the reader's lookup and its send |
| HttpText.AtoiDecimalExactly | kwikhttp/protocol.go:325-328 | A printed number reads back exactly when it fits in 64 bits |
| HttpText.TrimExactly | kwikhttp/protocol.go:229-229 | Trimming gives a trimmed string and leaves exactly the trimmed strings alone |
| HttpText.SpacesAre | kwikhttp/protocol.go:229-229 | White space is tab, line feed, vertical tab, form feed, carriage return and blank |
| HttpText.LowerLetters | kwikhttp/protocol.go:64-67 | Lower case is the alphabet letter for letter and leaves the rest alone |
| HttpText.AtoiForms | kwikhttp/protocol.go:325-328 | A number may carry a sign and nothing but digits behind it |
| Http.HTTPHeaders.Add | kwikhttp/protocol.go:64-67 | Afterwards every spelling of the name has the value behind its earlier ones, Get still gives the first, and other names are untouched |
| Http.HTTPHeaders.Set | kwikhttp/protocol.go:69-72 | Afterwards every spelling of the name has this value alone, and other names are untouched |
| Http.HTTPHeaders.Del | kwikhttp/protocol.go:87-90 | Afterwards no spelling of the name has a value, and other names are untouched |
| Http.ReadHeaders | kwikhttp/protocol.go:242-262 | The header loop of the parsers: colonless lines are skipped, a blank line ends it |
| Http.WriteHeaders | kwikhttp/protocol.go:291-296 | The header loop of the printers, in whatever order the map is iterated |
| Http.ParseHTTPRequest | kwikhttp/protocol.go:220-282 | The parser gives the specified result on every input |
| Http.ParseHTTPResponse | kwikhttp/protocol.go:310-382 | The same for responses |
| Http.SerializeHTTPRequest | kwikhttp/protocol.go:285-307 | The printer gives the specified bytes for some order of the header map |
| Http.SerializeHTTPResponse | kwikhttp/protocol.go:385-407 | The same for responses |
| Http.FieldExactly | kwikhttp/protocol.go:253-260 | A header line reads back as its name and value exactly when both are trimmed and the name has no colon |
| Http.HeadersBack | kwikhttp/protocol.go:291-296 | For every iteration order the printed headers read back with every name's values in the order they had |
| Http.ParsedIsPlain | kwikhttp/protocol.go:242-262 | Whatever text is parsed, the headers that come out have lower-case, trimmed names without colons and trimmed values, none with a line feed |
| Http.LinesRead | kwikhttp/protocol.go:242-262 | A header line ends at its line feed; a colonless one is skipped, a blank one ends the headers, another adds its value under the lower-cased name |
| Http.RequestImage | kwikhttp/protocol.go:285-307 | The text of a request with one header, character for character |
| Http.ResponseImage | kwikhttp/protocol.go:385-407 | The text of a response with one header, character for character |
| Http.RequestRoundTripExactly | kwikhttp/protocol.go:220-307 | A request reads back exactly when its headers are plain, its first line has no line feed and three parts, and Content-Length agrees with its body |
| Http.ResponseRoundTripExactly | kwikhttp/protocol.go:310-407 | A response reads back exactly when its headers are plain, its status line has no line feed, its version is one word, its text has no trailing space, its code fits in 64 bits and Content-Length agrees with its body |
| Http.SetBodyAgrees | kwikhttp/protocol.go:130-133 | SetBody makes Content-Length agree with the body |
| Http.WriterResponseNeverReadsBack | kwikhttp/server.go:139-164 | What the response writer returns is refused by the response parser, whatever status, headers and body |
| Http.WriterLengthExactly | kwikhttp/server.go:139-164 | The writer adds a Content-Length that agrees with the body exactly when the handler set none |

## Left out

- 64-bit wrap-around of packet numbers and offsets: the loops over ACK ranges do not end for a range up to 2^64 - 1, and the model's do.
- Allocation failures: a huge Content-Length or chunk length makes the program allocate before it reads; the model treats the short read as the failure it then is.
- quic-go, TLS, sockets, contexts and timers: a write is a step with its result as input, time is a number handed to the retransmit steps. One time is used for a whole collecting pass, where the program reads the clock for each packet.
- Recovery of the transport stream after write errors, health pings, sessions, listeners, metrics, logging and `ResendRanges`, which nothing calls.
- Fin: the sender never sets it, and one that arrives out of order is not kept.
- Mutexes, pools and buffer reuse: buffers are value sequences, and the nested table of pending packets is one map from path and number.
- Interleavings inside a submission: popping, queueing, numbering, the path check, recording and writing are one step of a run, where the program takes several locks one after the other (`internal/transport/packer.go:82-217` and `690-777`).
- Stream frames submitted through SubmitFrame, as relay data is (`internal/transport/path.go:742-749`), moved offsets (SetWriteOffset, SetReadOffset) and more than one peer: the two-endpoint runs have none of these.
- Stream frames of one packet are handed on in batches of 32, so an ACK frame behind them may be processed first; the model handles frames in the order they have.
- Path removal in the two-endpoint runs: unregistering a path forgets its numbers and its pending packets, and the accounting of two endpoints is done without it.
- `readActive`, notifications and `Close` of the multiplexer: a read is a step that finds bytes or waits.
- Exactly-once relay data: relay frames are not deduplicated before they are forwarded.
- `stream_manager.go` and `internal/transport/path_manager.go` beyond the primary path of a stream: unique identifiers and failover over a map of paths would add only easy members.
- JSON metadata and commands of the file transfer: the metadata is some non-empty bytes that arrive as a unit, and commands arrive as sent.
- Non-ASCII white space and letters in HTTP lines: trimming and lower-casing follow ASCII.
- HTTP clients, static files, benchmarks, the other examples and `stream_aggregator.go`.
- ConnectionRuns.RepairedQuiescence: is about the repaired loops; for the program as written `AsWrittenQuiescence` gives the exact condition.
- TransferWrites.TransferSurvivesNetwork: takes it as given that each packet arrives at least once; the two-endpoint runs, which show that an acknowledged packet did (`AckSoundness`), have one sender for each stream.
- TransferWrites.TransferFrames: takes it that the relay's stream has the number of the server's and that its frames reach the client's stream; how a relay's path is attached is not modelled.
