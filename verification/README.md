# Verified model of the shared-bike server and client core

This project models the request path of the bike-sharing system, from TCP bytes through the
shared-memory rings to the business threads and back, together with the ride and account state
behind it and the client's request table. It states and proves what these parts keep on every run.

| file | models |
|---|---|
| `Words.dfy`, `Wrappers.dfy` | machine words, wrapping 32-bit arithmetic, `Option` |
| `Codec.dfy` | the FBEB v2 frame codec |
| `FrameCut.dfy` | the gateway's `cut_frames` and the client's `consume_frames` |
| `SpscRing.dfy` | the lock-free ring as a transition system over single loads, stores and slot accesses |
| `RingViews.dfy` | the producer and consumer views as objects, each method a step of the ring |
| `RingSink.dfy` | the gateway worker's `handle` |
| `Dispatch.dfy`, `DispatchProof.dfy` | gateway, request rings, reader thread, business tasks, reply queue, flush and response ring as one transition system, and what all its steps keep |
| `DispatchRuns.dfy` | what the moves of a run say about its replies: contents, completeness, addressees |
| `ReaderPass.dfy` | a pass of the reader over the request rings leaves none out |
| `SampleOrder.dfy` | why the reader samples the in-flight counter before the reply queue |
| `EndToEnd.dfy` | byte streams and dispatch pipeline together: from received bytes to delivered replies |
| `ConnContext.dfy`, `StreamLog.dfy`, `UringEngine.dfy` | the gateway's connection engine |
| `ShmLayout.dfy` | the layout of a ring file |
| `RideNo.dfy`, `Track.dfy` | ride numbers, position reports and archived tracks |
| `Repos.dfy`, `Rental.dfy` | the in-memory repositories, and what the handlers keep of all they share |
| `Service.dfy`, `ServiceLaws.dfy` | what each request answers and does, and the same in plain figures |
| `ServiceRuns.dfy`, `ServiceHistory.dfy` | what holds over any requests in any order, and what requests and answers alone say about money, rides and bikes |
| `Handlers.dfy` | the handlers over the repositories, proved to do just that |
| `ApiBridge.dfy` | the client facade |

How things are modelled:

- Concurrency: a step is at most one load of a shared counter or one store to shared memory,
  together with the thread's local work around it. A load of the other side's counter may return
  any value between the last one seen and the current one. Rings carry unbounded counters beside
  the 32-bit ones, and the proofs show that the wrapped tests agree with them.
- The kernel, the thread pool, timeouts, allocation failures, the availability of submission
  entries and the interleaving of threads are choices of the environment: every theorem is about
  all of them.
- Handlers are atomic steps over the in-memory repositories. The clock, the session lookup and the
  distance function are parameters. Coordinates and distances are `real`.
- History variables (what was sent, pushed, received, ended) are ghost state that no step reads.

Results that differ from what one might expect of the code, each with an input that shows it and
the exact condition under which the expected holds:

- Ride numbers come from the second of the unlock. Two idle bikes unlocked in the same second of a
  day get the same number, and the first one is left rented without a ride
  (`ServiceRuns.SecondUnlockStrands`). `Rental.UnlockKeepsRentedExactly` says when an unlock strands
  a bike, as an if-and-only-if on the number; unlocks in different seconds never do
  (`RideNo.DistinctSecondsGiveDistinctNumbers`).
- The archived track is sorted by time with an unstable sort. It is sure to begin at the start and
  end at the end if and only if every other point lies strictly between the two in time
  (`Track.TrackRunsFromStartToEnd`); a single report can spoil it (`Track.OneReportSpoilsTrack`).
- A damage report on a bike that is out is forgotten when its ride ends
  (`ServiceRuns.DamageIsForgotten`). A damaged bike stays damaged if and only if the request does
  not end a ride on it (`ServiceRuns.DamageSticksExactly`).
- Reading the reply queue before the in-flight counter would be wrong
  (`SampleOrder.QueueThenCounterIsUnsound`, on a run that exists:
  `SampleOrder.SamplingStateIsReachable`); the code reads them in the sound order.
- The flush loop's oversize branch and the engine's "rx overflow" close can never be taken
  (`DispatchProof.ReplyFits`, `UringEngine.Link.HandOff`).

## Model

| member | source | states |
|---|---|---|
| `Codec.GetPutU32` | common/src/protocol.cpp:23-28 | reading back a written little-endian word gives the word |
| `Codec.PutGetU32` | common/src/protocol.cpp:30-48 | the four bytes of a word are determined by it |
| `Codec.WireBytes` | common/src/protocol.cpp:52-66 | every byte of an encoded frame, by its offset; only a payload beyond 372680 bytes has no encoding |
| `Codec.DecodeAfterEncode` | common/src/protocol.cpp:52-95 | decoding an encoded frame followed by anything returns that frame and its exact length |
| `Codec.EncodeAfterDecode` | common/src/protocol.cpp:68-95 | an accepted prefix of any buffer is the encoding of the returned frame |
| `Codec.WireIsPrefixFree` | common/src/protocol.cpp:52-66 | a byte stream has at most one first frame |
| `Codec.DecodeIsStable` | common/src/protocol.cpp:68-95 | a decoded or bad verdict is not changed by later bytes |
| `Codec.NeedMoreCanComplete` | common/src/protocol.cpp:68-95 | a "need more" buffer with a whole header can be completed to a frame |
| `Codec.DecodeVerdicts` | common/src/protocol.cpp:68-95 | decoded if and only if the buffer starts with the encoding of a frame; bad if and only if it has a whole header and no continuation of it does |
| `Codec.StampSeq` | common/src/protocol.cpp:103-111 | the in-place stamp succeeds exactly on stampable buffers and then rewrites the seq field only |
| `Codec.StampedWire` | common/src/protocol.cpp:103-111 | stamping an encoding is encoding the frame with the other seq |
| `Codec.StampChangesOnlySeq` | common/src/protocol.cpp:103-111 | on any buffer, stamping changes the decoded seq and nothing else of the verdict |
| `FrameCut.CutIsTheOnlyParse` | server/src/gateway/frame_cut.cpp:5-22 | the cut is the one and only way to write the buffer as encoded frames followed by an undecodable rest |
| `FrameCut.CutAfterWire` | server/src/gateway/frame_cut.cpp:5-22 | cutting encoded frames returns them, then the cut of what follows |
| `FrameCut.CutAppend` | server/src/gateway/frame_cut.cpp:5-22 | cutting `a + b` is cutting `a`, then its leftover followed by `b`; a bad verdict stays |
| `FrameCut.LeftoverIsShort` | server/src/gateway/frame_cut.cpp:5-22 | a leftover that is not bad is shorter than one maximal frame |
| `FrameCut.ChunkingIsIrrelevant` | server/src/gateway/frame_cut.cpp:5-22 | any chunking of a stream gives the frames, leftover and verdict of the whole stream |
| `FrameCut.CutFrames` | server/src/gateway/frame_cut.cpp:5-22 | the loop computes the unique parse of its buffer |
| `TcpWorker.TcpWorker.ConsumeFrames` | client/src/net/tcp_worker.cpp:21-43 | the client's loop signals the same frames, keeps the same rest and gives the same verdict as the gateway's on every input |
| `TcpWorker.TcpWorker.OnReadyRead` | client/src/net/tcp_worker.cpp:122-137 | one arriving chunk is cut together with what was buffered; a bad frame clears the buffer |
| `TcpWorker.TcpWorker.ReceiveAll` | client/src/net/tcp_worker.cpp:122-137 | over any chunks, exactly the frames of the whole stream up to the first bad one are signalled |
| `SpscRing.PowersAreCapacities` | server/include/bike/ipc/spsc_ring.hpp:20-29 | every allowed slot count satisfies what the proofs need of a capacity |
| `SpscRing.MaskIsSlot` | server/include/bike/ipc/spsc_ring.hpp:48-53 | masking with the capacity less one, bit by bit, is the remainder by the capacity |
| `SpscRing.SlotOfWord` | server/include/bike/ipc/spsc_ring.hpp:48-53 | the wrapped counter and the unbounded one have the same slot |
| `SpscRing.FullTestIsExact` | server/include/bike/ipc/spsc_ring.hpp:48-53 | with a stale tail and wrapped counters, the full test says full exactly when the unbounded counters do |
| `SpscRing.BatchIsExact` | server/include/bike/ipc/spsc_ring.hpp:123-131 | a batch is non-empty exactly when there is something to read, holds only published packets and ends at the array end |
| `SpscRing.StepKeepsInv` | server/include/bike/ipc/spsc_ring.hpp:48-137 | every step of either side keeps counters ordered, words equal to counters mod 2^32, and slots holding the unreleased packets |
| `SpscRing.ReadReturnsNext` | server/include/bike/ipc/spsc_ring.hpp:123-131 | a read returns the next published packet, unchanged |
| `SpscRing.BatchHoldsNext` | server/include/bike/ipc/spsc_ring.hpp:123-131 | the slots of a batch lie inside the array and hold the oldest unreleased packets, in order |
| `SpscRing.NoSlotIsShared` | server/include/bike/ipc/spsc_ring.hpp:48-60 | the producer never reserves or fills a slot of the consumer's unreleased batch |
| `SpscRing.NoSlotIsHeldTwice` | server/include/bike/ipc/spsc_ring.hpp:48-53 | no two reservations share a slot |
| `SpscRing.StepRefinesFifo` | server/include/bike/ipc/spsc_ring.hpp:48-137 | each ring step is a put, a take or no step of a bounded FIFO |
| `SpscRing.RunIsFifo` | server/include/bike/ipc/spsc_ring.hpp:48-137 | on every run, packets are delivered once, in order and unchanged, and at most the capacity is outstanding |
| `RingViews.ProducerView.constructor` | server/include/bike/ipc/spsc_ring.hpp:37-40 | attached to any ring without reservations, left by whomever, the view agrees with it |
| `RingViews.ProducerView.BeginWrite` | server/include/bike/ipc/spsc_ring.hpp:48-53 | a slot is refused exactly when as many are out as there are; otherwise it is the next one, and the call is a step of the ring |
| `RingViews.ProducerView.FillSlot` | server/include/bike/ipc/spsc_ring.hpp:56-60 | a step of the ring, keeping its invariant: no unreleased packet and no other reservation is touched |
| `RingViews.ProducerView.PublishReserved` | server/include/bike/ipc/spsc_ring.hpp:66-71 | exactly the reserved packets join the queue, in the order of reservation |
| `RingViews.ProducerView.Push` | server/include/bike/ipc/spsc_ring.hpp:74-80 | refused exactly when the queue is full; otherwise the packet is put at its end |
| `RingViews.ProducerView.Size` | server/include/bike/ipc/spsc_ring.hpp:86-89 | exactly the number of slots that are out, despite wrap-around |
| `RingViews.ConsumerView.PopBatch` | server/include/bike/ipc/spsc_ring.hpp:123-131 | an in-bounds contiguous batch of the ring, empty exactly when all is released or none is wanted |
| `RingViews.ConsumerView.ReleaseBatch` | server/include/bike/ipc/spsc_ring.hpp:134-137 | a step of the ring: the batch is given back |
| `RingViews.ConsumerView.ReadBatch` | server/src/ipc/ring_source.cpp:42-42 | the callback sees the packets of the batch, each a step of the ring |
| `RingViews.ConsumerView.PopOnce` | server/src/ipc/ring_source.cpp:34-48 | takes all packets sent and not yet taken, in order, and releases them |
| `RingSink.Sink.Handle` | server/src/ipc/ring_sink.cpp:35-72 | malformed exactly beyond 4064 bytes, overload exactly when the queue is full; otherwise the request joins the end of the queue, one-way exactly for event 0x15; overload count, peak and hints follow |
| `DispatchProof.MoveKeepsInv` | server/src/dispatch/dispatch_main.cpp:148-280 | every move of every thread keeps the pipeline invariant |
| `DispatchProof.RunKeepsInv` | server/src/dispatch/dispatch_main.cpp:148-280 | the invariant holds in every state of every run |
| `DispatchProof.DeliveriesAreRouted` | server/src/gateway/uring_engine.cpp:404-428 | every delivered reply goes to the connection whose request it answers, decodes to that request's seq, and never answers a position report |
| `DispatchProof.DeliveriesAreUnique` | server/src/dispatch/dispatch_main.cpp:217-275 | no request is answered twice |
| `DispatchProof.NoReplyIsLost` | server/src/dispatch/dispatch_main.cpp:148-195 | unless a flush gave up on a full ring, queued replies are, in order, those published, those in the flush's hands and those still queued |
| `DispatchProof.ReplyFits` | server/include/bike/ipc/shm_layout.hpp:34-36 | a stamped encoded reply fits a response slot |
| `DispatchProof.FlushKeepsContract` | server/include/bike/ipc/spsc_ring.hpp:66-71 | at every publish of every run, `pending` equals the producer's unpublished count and all reserved slots are filled; the reply at hand fits its slot |
| `DispatchProof.FlushMovesAlongLine` | server/src/dispatch/dispatch_main.cpp:148-195 | a flush step moves replies along without loss or reordering, except that giving up loses one segment |
| `DispatchProof.LongPollOnlyWhenIdle` | server/src/dispatch/dispatch_main.cpp:207-215 | the reader enters the long poll only with no reply queued and no task left that could queue one |
| `DispatchProof.InflightCountsTasks` | server/src/dispatch/dispatch_main.cpp:236-273 | the in-flight counter is the number of posted tasks holding quota, plus one while a counted request is being posted |
| `DispatchRuns.DeliveriesCarryResults` | server/src/dispatch/dispatch_main.cpp:240-252 | on every run, a delivered reply decodes to the event and payload that the handler returned when the task of its request ran, under the number of that request |
| `DispatchRuns.EveryRequestIsServed` | server/src/dispatch/dispatch_main.cpp:217-275 | unless a slot could not be copied, a task not posted or a flush gave up, every request heard is being posted, or has its task to run, or its task has run and its reply, if the handler gave one to a two-way request, is on the line to the gateway |
| `DispatchRuns.ReadReplyIsDelivered` | server/src/gateway/uring_engine.cpp:404-428 | a reply read while its connection is open and not refused is the next of the response ring and is delivered to that connection, last |
| `DispatchRuns.DeliveriesReachTheirClient` | server/src/gateway/uring_engine.cpp:465-471 | a delivered reply went to the client whose accept gave out the connection id that the reply names |
| `ReaderPass.PassHearsEveryRing` | server/src/ipc/ring_source.cpp:34-48 | on every run, when a pass whose loads see what was published is over, all that any ring held when it began has been read |
| `ReaderPass.PassServesEveryRequest` | server/src/dispatch/dispatch_main.cpp:217-275 | and, if nothing was dropped, each such request has its task to run, or its task has run and its reply, if it has one, is on the line to the gateway |
| `SampleOrder.QueueThenCounterIsUnsound` | server/src/dispatch/dispatch_main.cpp:207-215 | on any run where the reader is about to sample with one task left, sampling in the other order shows an idle pipeline while a reply is queued |
| `SampleOrder.SamplingStateIsReachable` | server/src/dispatch/dispatch_main.cpp:205-280 | such a run exists |
| `EndToEnd.EveryReplyAnswersAFrame` | server/src/gateway/uring_engine.cpp:629-681 | on every run, each delivered reply decodes to the event and payload the handler returned for a frame of the one parse of the bytes received on its own connection, under the number of that frame, which is never a position report |
| `EndToEnd.NoFrameIsAnsweredTwice` | server/src/dispatch/dispatch_main.cpp:217-275 | no frame of any stream is answered twice |
| `EndToEnd.StepKeepsPositions` | server/include/bike/ipc/spsc_ring.hpp:48-71 | a packet stays at the position it was reserved at; only filling changes one |
| `ConnContext.Connection.constructor` | server/include/server/gateway/conn_context.hpp:29-34 | a new connection is active, empty and idle |
| `ConnContext.Connection.RxPrepare` | server/include/server/gateway/conn_context.hpp:58-61 | the writable window grows to the wanted size, received bytes stay |
| `ConnContext.Connection.RxCommit` | server/include/server/gateway/conn_context.hpp:66-66 | received bytes are appended |
| `ConnContext.Connection.RxTake` | server/include/server/gateway/conn_context.hpp:70-78 | all received bytes move out and a fresh area remains |
| `ConnContext.Connection.RxFeed` | server/include/server/gateway/conn_context.hpp:80-85 | leftover bytes are put back after what is held |
| `ConnContext.Connection.SendPush` | server/include/server/gateway/conn_context.hpp:89-92 | a block is queued last and counted, even an empty one |
| `ConnContext.Connection.SendPop` | server/include/server/gateway/conn_context.hpp:99-111 | exactly the first `n` queued bytes are dropped and the count follows; no empty block appears |
| `StreamLog.NothingIsLost` | server/src/gateway/uring_engine.cpp:629-681 | encodings of the frames of earlier batches followed by the bytes held are exactly the bytes received |
| `StreamLog.HandedIsPrefixOfParse` | server/src/gateway/uring_engine.cpp:276-303 | however the kernel splits the bytes, frames handed over are a prefix of the one parse of all bytes received, and all of it between batches |
| `StreamLog.HeldIsIncomplete` | server/src/gateway/uring_engine.cpp:289-294 | between batches, less than one maximal frame is held |
| `UringEngine.CompleteAccept` | server/src/gateway/uring_engine.cpp:241-274 | dropped exactly when its first receive cannot be submitted; otherwise active with that receive in flight |
| `UringEngine.Link.CompleteRecv` | server/src/gateway/uring_engine.cpp:276-303 | errors and a close by the peer close; data on an active connection, with what was held, becomes one worker batch; a send in flight is untouched |
| `UringEngine.Link.HandOff` | server/src/gateway/uring_engine.cpp:289-303 | the overflow close is unreachable; the bytes go out unparsed, once |
| `UringEngine.Link.CompleteSend` | server/src/gateway/uring_engine.cpp:305-319 | exactly the front part the kernel took counts as sent and the next part is submitted; errors close |
| `UringEngine.Link.PushResponse` | server/src/gateway/uring_engine.cpp:355-363 | queued exactly when the backlog stays within its limit, else the connection closes; after it a send is in flight, the one that was, with its block, or a new one, unless no submission entry is to be had |
| `UringEngine.Link.ContinueSend` | server/src/gateway/uring_engine.cpp:315-318 | what is left in the queue is submitted at once, unless no submission entry is to be had, which stops the engine |
| `UringEngine.Link.DeliverResponse` | server/src/gateway/uring_engine.cpp:404-428 | a ring packet is queued or dropped by size and connection state; operations in flight stay, with their buffers |
| `UringEngine.Link.ProcessRespond` | server/src/gateway/uring_engine.cpp:431-461 | a response item is queued like one from the ring, or dropped on a closing connection; operations in flight stay |
| `UringEngine.Link.ProcessControl` | server/src/gateway/uring_engine.cpp:431-461 | the end of a batch arms the next receive with the leftover or closes; operations in flight stay |
| `UringEngine.Link.CloseConn` | server/src/gateway/uring_engine.cpp:473-483 | closing keeps the invariant whatever is in flight |
| `UringEngine.Link.MaybeFinalize` | server/src/gateway/uring_engine.cpp:485-489 | freed exactly when closing and without operations in flight |
| `UringEngine.Link.Sweep` | server/src/gateway/uring_engine.cpp:491-503 | the idle sweep leaves the connection closing and its operations in flight |
| `UringEngine.Link.SubmitRecv` | server/src/gateway/uring_engine.cpp:550-567 | the receive window is exactly the configured buffer, held bytes untouched |
| `UringEngine.Link.SubmitSend` | server/src/gateway/uring_engine.cpp:569-586 | at most one send in flight, of the front block; without a submission entry the engine starts to drain |
| `UringEngine.Link.WorkerCut` | server/src/gateway/uring_engine.cpp:629-631 | the worker's cut is the parse of its batch |
| `UringEngine.Link.WorkerFrame` | server/src/gateway/uring_engine.cpp:633-671 | the next frame of the batch goes to the sink; its reply is stamped with its seq; overload and malformed end the batch with a close |
| `UringEngine.Link.WorkerFinish` | server/src/gateway/uring_engine.cpp:673-680 | a bad batch closes, any other gives its leftover back |
| `UringEngine.OnMain` | server/src/gateway/uring_engine.cpp:404-503 | no event of the main thread but a completion ends an operation or alters its buffer |
| `UringEngine.OnKernel` | server/src/gateway/uring_engine.cpp:276-319 | a completion ends its own operation only |
| `UringEngine.Run` | server/src/gateway/uring_engine.cpp:241-586 | over any events in any order the invariant holds, a non-empty queue is being sent unless the engine drains, closing is never left, a freed connection stays freed, nothing handed over or sent is taken back |
| `UringEngine.LinkGuarantees` | server/src/gateway/uring_engine.cpp:265-319 | a freed connection has no operation in flight; an active one is being received from; one batch at most; frames handed over are a prefix of the parse; pushed bytes are sent bytes followed by queued ones, within the limit, and the queued ones are being sent unless the engine drains |
| `UringEngine.NoByteIsLost` | server/src/gateway/uring_engine.cpp:276-303 | on a connection that is not closing, earlier frames re-encoded and the bytes in the receive area, with a worker or on the way back are all bytes received; only a pending close gives them up |
| `ShmLayout.AlignUpIsLeast` | server/include/bike/ipc/shm_layout.hpp:89-91 | the least multiple not smaller |
| `ShmLayout.PartsAreDisjoint` | server/include/bike/ipc/shm_layout.hpp:102-113 | file header, ring headers and all slots of all rings are pairwise disjoint |
| `ShmLayout.PartsAreInside` | server/src/ipc/shm_region.cpp:309-353 | every part that is attached to lies inside the file |
| `ShmLayout.RingsArePageAligned` | server/src/ipc/shm_region.cpp:309-322 | each ring's slots start one stride after the previous ring's, on a page |
| `ShmLayout.RingFilesArePageAligned` | server/include/bike/ipc/shm_layout.hpp:33-36 | so it is for the request and the response file |
| `ShmLayout.TotalFits` | server/include/bike/ipc/shm_layout.hpp:102-113 | the size computation does not wrap in 64 bits |
| `RideNo.RideNoIsInjective` | common/src/ride_no.cpp:8-15 | different dates or daily numbers give different ride numbers |
| `RideNo.RideNoReads` | common/src/ride_no.cpp:8-15 | fifteen characters: R, eight digits that read as the date and six that read as the daily number; refused exactly outside 1 to 999999 |
| `RideNo.DateIsThatManyDaysOn` | server/src/handlers/scan_unlock.cpp:20-24 | the calendar date of day n is a valid date whose day count, leap years included, is n days after 1 January 1970 |
| `RideNo.RideNoOfUnlock` | server/src/handlers/scan_unlock.cpp:57-58 | the number of an unlock reads as its date and as the second modulo 999999, plus one |
| `RideNo.LaterDaysHaveLaterDates` | server/src/handlers/scan_unlock.cpp:57-58 | calendar dates as eight-digit numbers grow with the day |
| `RideNo.DistinctSecondsGiveDistinctNumbers` | server/src/handlers/scan_unlock.cpp:57-58 | unlocks in different seconds get different numbers |
| `RideNo.SameSecondCollides` | server/src/handlers/scan_unlock.cpp:57-58 | unlocks in the same second of a day get the same number |
| `Track.PointsAreLastRecords` | server/include/server/ride_session_store.hpp:45-62 | after any reports, the points are exactly the last 3600 reports that set a new maximum seq, and the last seq is the newest of these |
| `Track.LastSeenIsNewest` | server/include/server/ride_session_store.hpp:45-62 | once there are reports, the last position of a session is that of the newest of them |
| `Track.RecordsIncrease` | server/include/server/ride_session_store.hpp:45-62 | stored seqs strictly increase |
| `Track.SortByTime` | server/src/handlers/end_ride.cpp:72-76 | a permutation sorted by time |
| `Track.TrackRunsFromStartToEnd` | server/src/handlers/end_ride.cpp:63-76 | every sorted arrangement runs from start to end if and only if all other points lie strictly between them in time |
| `Track.OneReportSpoilsTrack` | server/src/handlers/end_ride.cpp:63-76 | one report not after the start or not before the end lets a sort misplace them |
| `Repos.AccountRepo.AddBalance` | server/include/server/repo/in_memory.hpp:47-60 | an overdraft is refused without change; otherwise balance and record follow |
| `Repos.StatementShowsSums` | server/include/server/repo/in_memory.hpp:47-60 | each record of an account shows the sum of all amounts up to it, never negative, and the balance is the whole sum |
| `Repos.AccountRepo.ListRecords` | server/include/server/repo/in_memory.hpp:61-70 | the newest records, newest first |
| `Repos.BikeRepo.UpdateStatus` | server/include/server/repo/in_memory.hpp:146-152 | the one bike with that id gets the status and nothing else changes |
| `Repos.BikeRepo.UpdateLocation` | server/include/server/repo/in_memory.hpp:153-159 | the same for the position |
| `Repos.BikeRepo.InsertBike` | server/include/server/repo/in_memory.hpp:177-184 | a known number is refused; a new bike gets an id no other bike has |
| `Repos.RideRepo.CreateWithPoints` | server/include/server/repo/in_memory.hpp:193-214 | a ride is archived under a new id and becomes the one found by its number; other numbers find what they did |
| `Repos.RideRepo.FindByNo` | server/include/server/repo/in_memory.hpp:215-220 | the ride last archived under that number |
| `Repos.RideSessionStore.Create` | server/include/server/ride_session_store.hpp:32-35 | a session of the same number is overwritten |
| `Repos.RideSessionStore.UpdatePos` | server/include/server/ride_session_store.hpp:45-62 | the update is the report function of the track laws; unknown rides are refused |
| `Repos.RideSessionStore.Remove` | server/include/server/ride_session_store.hpp:63-66 | exactly that session is gone |
| `Rental.UnlockKeepsRentedExactly` | server/src/handlers/scan_unlock.cpp:57-72 | an unlock leaves every rented bike with a live session if and only if its number is not that of a session whose bike is rented |
| `Rental.UnlockKeepsWorld` | server/src/handlers/scan_unlock.cpp:57-72 | an unlock of an idle bike keeps everything the handlers keep: bikes, live rides, archive, accounts |
| `Rental.EndKeepsWorld` | server/src/handlers/end_ride.cpp:83-102 | so does the end of a ride whose fee is covered |
| `Rental.RechargeKeepsWorld` | server/src/handlers/recharge.cpp:21-28 | so does a deposit |
| `Rental.DamageKeepsWorld` | server/src/handlers/report_damage.cpp:25-28 | so does a damage report, also on a bike that is out |
| `Rental.ReportKeepsWorld` | server/src/handlers/position_report.cpp:9-15 | so does a position report |
| `Rental.PutOutKeepsWorld` | server/src/handlers/list_nearby_bikes.cpp:59-81 | so does putting out a new bike |
| `Service.AnswerKeepsWorld` | server/src/handlers/end_ride.cpp:33-114 | no request, whatever it asks and whoever asks it, breaks what the handlers rely on |
| `ServiceLaws.FeeIsLeast` | common/src/pricing.cpp:7-16 | the fee is the least of 100, 150, 200, ... cents whose quarters of an hour cover the ride |
| `ServiceLaws.DurationIsElapsed` | server/src/handlers/end_ride.cpp:58-60 | a ride lasts from its start to its end; with the clock set back in between it lasts 0 |
| `ServiceLaws.LengthOfParts` | server/src/handlers/end_ride.cpp:77-81 | distance adds up: two parts of a track and the leg between them |
| `ServiceLaws.UnlockDecides` | server/src/handlers/scan_unlock.cpp:40-53 | each error code of an unlock, and success, with its exact condition; a refusal changes nothing |
| `ServiceLaws.UnlockDoes` | server/src/handlers/scan_unlock.cpp:57-77 | that one bike is rented where it stands and a session of this user from this place and time is there, nothing else changes |
| `ServiceLaws.EndDecides` | server/src/handlers/end_ride.cpp:36-86 | each error code of an end of a ride, and success, with its exact condition; a refusal or a repetition changes nothing |
| `ServiceLaws.EndPays` | server/src/handlers/end_ride.cpp:83-109 | the fee leaves the account of the user of the ride, with a record of it, and only that session ends |
| `ServiceLaws.EndFiles` | server/src/handlers/end_ride.cpp:88-98 | the ride is archived under a new id and its number with the figures of the answer, its ends and its track |
| `ServiceLaws.EndMovesBike` | server/src/handlers/end_ride.cpp:100-101 | its bike stands idle where the ride ended, the other bikes stay |
| `ServiceLaws.DamageDecidesAndDoes` | server/src/handlers/report_damage.cpp:18-33 | refusals with their exact conditions; else that one bike is damaged and nothing else changes |
| `ServiceLaws.RechargeDecidesAndDoes` | server/src/handlers/recharge.cpp:18-35 | refusals with their exact conditions; else the amount is added to that one account, with a record of it |
| `ServiceLaws.PutOutDoes` | server/src/handlers/list_nearby_bikes.cpp:59-81 | a bike put out is idle at its place under an id no other bike has; a number in use is left alone |
| `ServiceRuns.RunKeepsWorld` | server/src/handlers/scan_unlock.cpp:36-81 | so it is after any requests in any order |
| `ServiceRuns.WorldGuarantees` | server/include/server/repo/in_memory.hpp:42-60 | balances are not negative and are the sums their records show; a bike with a live ride is not idle and has no other; with fresh numbers every rented bike has its ride |
| `ServiceRuns.NumbersStayFresh` | server/src/handlers/scan_unlock.cpp:57-58 | requests with distinct ride numbers keep all numbers fresh |
| `ServiceRuns.EndingAgainRepeatsTheAnswer` | server/src/handlers/end_ride.cpp:41-55 | whatever happens in between, ending a ride again gives its owner the figures of the first answer and anybody else a refusal, and changes nothing |
| `ServiceHistory.BalanceIsDepositsLessCharges` | server/include/server/repo/in_memory.hpp:42-60 | on every run, a balance is what it was plus the accepted deposits of the user less the amounts answered to the ends of the rides of the user |
| `ServiceHistory.StatementIsOfRequests` | server/include/server/repo/in_memory.hpp:47-60 | on every run, the records of an account are what they were followed by the deposits and charges of the user, in order, each with its time and the balance that was answered |
| `ServiceHistory.ArchiveShowsCharges` | server/include/server/repo/in_memory.hpp:193-214 | the archived rides of a user cost what the user was charged |
| `ServiceHistory.LivePointsAreOfReports` | server/include/server/ride_session_store.hpp:45-62 | the points of a live ride are the last 3600 newest-so-far of the position reports for it since its unlock, and its last number is the newest |
| `ServiceHistory.RideBeganWithItsUnlock` | server/src/handlers/scan_unlock.cpp:60-70 | whatever happens in between, a live ride is of the user, bike, place and time of its unlock request |
| `ServiceHistory.EndedRideHasItsFigures` | server/src/handlers/end_ride.cpp:56-61 | for an unlock and the end of its ride, any requests between: same user, duration is the time between the two, or 0 with the clock set back, and the amount is the least 100 + 50k that covers it |
| `ServiceHistory.ArchivedTrackIsOfRequests` | server/src/handlers/end_ride.cpp:63-98 | the archived track is a time-sorted arrangement of the place of the unlock request, the last 3600 newest-so-far reports since, and the place of the end request, and the answered distance is its length |
| `ServiceHistory.BikeStandsWhereRideEnded` | server/src/handlers/end_ride.cpp:100-101 | the bike named in the unlock request stands idle where the end request says |
| `ServiceRuns.DamageSticksExactly` | server/src/handlers/end_ride.cpp:100-101 | a damaged bike stays damaged if and only if the request does not end a ride on it: owner, valid position, covered fee |
| `ServiceRuns.DamageIsForgotten` | server/src/handlers/report_damage.cpp:25-28 | unlock, damage report, end: all succeed and the bike is idle |
| `ServiceRuns.SecondUnlockStrands` | server/src/handlers/scan_unlock.cpp:57-72 | two idle bikes unlocked in one second: both succeed and the first is rented without a ride |
| `Handlers.MeasureTrack` | server/src/handlers/end_ride.cpp:77-81 | the loop sums the distances of consecutive points |
| `Handlers.Ctx.ScanUnlock` | server/src/handlers/scan_unlock.cpp:36-81 | the handler answers and does what the unlock function of the service says: first failing check, else a fresh session and the bike rented |
| `Handlers.Ctx.EndRide` | server/src/handlers/end_ride.cpp:33-114 | likewise for the end of a ride, with a time-sorted track of start, reports and end; the service laws and histories say what that is |
| `Handlers.Ctx.Settle` | server/src/handlers/end_ride.cpp:83-102 | refused exactly when the balance does not cover the fee, without any change; otherwise charge, record, archive, bike and session follow together |
| `Handlers.Ctx.RechargeAccount` | server/src/handlers/recharge.cpp:18-35 | likewise for deposits, which reach the account and its records |
| `Handlers.Ctx.ReportDamage` | server/src/handlers/report_damage.cpp:18-33 | likewise for damage reports |
| `Handlers.Ctx.PositionReport` | server/src/handlers/position_report.cpp:9-15 | likewise for position reports |
| `Handlers.Ctx.PutOutBike` | server/src/handlers/list_nearby_bikes.cpp:59-81 | a bike is put out unless its number is in use |
| `Handlers.Ctx.Handle` | server/src/handlers/end_ride.cpp:33-114 | any request keeps the world consistent and is answered as the service says; a damage report sticks exactly until a ride on the bike ends |
| `Handlers.Ctx.Serve` | server/src/handlers/end_ride.cpp:41-102 | any requests in any order form a run of the service, request by request and response by response, so all laws of runs hold of them |
| `ServiceRuns.DistinctSecondsSuffice` | server/src/handlers/scan_unlock.cpp:57-58 | unlocks in distinct seconds have distinct ride numbers throughout a run |
| `ApiBridge.ResponsesMatchRequests` | client/src/net/api_bridge.cpp:24-39 | known responses correspond one to one to requests, and answering and failing a request raise the same signal |
| `ApiBridge.TableIsFollowed` | common/include/bike/protocol.hpp:18-42 | which response answers which request and which signal tells of it, for each of the eleven pairs |
| `ApiBridge.RefusalsAreSignalled` | client/src/net/api_bridge.cpp:95-304 | a request rejected or given up, and an end without a ride, raise exactly one bad signal of its kind |
| `ApiBridge.EveryRequestGetsOneResult` | client/src/net/api_bridge.cpp:286-326 | of every kind, accepted requests equal answers plus failures plus the one in flight |
| `ApiBridge.SeqOfIsCycle` | client/src/net/api_bridge.cpp:89-93 | the k-th send of a connection has number (k - 1) mod (2^32 - 1) + 1 |
| `ApiBridge.NextNumberIsNew` | client/src/net/api_bridge.cpp:89-93 | within 2^32 - 1 sends of a connection, no number is used twice |
| `ApiBridge.NoSendIsZero` | client/src/net/api_bridge.cpp:89-93 | no frame is sent with number 0 |
| `ApiBridge.Bridge.NextSeq` | client/src/net/api_bridge.cpp:89-93 | the wrapping counter runs through 1 to 2^32 - 1 in a cycle |
| `ApiBridge.Bridge.Request` | client/src/net/api_bridge.cpp:95-192 | rejected exactly when one of its kind is in flight, otherwise sent and recorded |
| `ApiBridge.Bridge.ReportPosition` | client/src/net/api_bridge.cpp:194-207 | takes a number but no slot |
| `ApiBridge.Bridge.EndRide` | client/src/net/api_bridge.cpp:209-224 | without an active ride it fails at once |
| `ApiBridge.Bridge.FailInFlight` | client/src/net/api_bridge.cpp:286-304 | every pending request gets exactly one failure, in any order, and none stays pending |
| `ApiBridge.Bridge.OnWorkerConnected` | client/src/net/api_bridge.cpp:268-275 | nothing pending and numbering restarted |
| `ApiBridge.Bridge.OnWorkerDisconnected` | client/src/net/api_bridge.cpp:277-284 | nothing pending |
| `ApiBridge.Bridge.OnFrameReady` | client/src/net/api_bridge.cpp:308-326 | a response is delivered, and shown as its event demands, exactly when it carries the number of the pending request of its kind; any other frame changes nothing |
| `ApiBridge.Bridge.HandleFrame` | client/src/net/api_bridge.cpp:328-508 | for each event: which signal, good exactly when, with which data, and which ride is active and saved afterwards |
| `ApiBridge.Bridge.Run` | client/src/net/api_bridge.cpp:89-326 | over any events: the balance of requests and results, no zero number, nothing pending after a link change |

## Left out

- io_uring, sockets, eventfd, FIFOs, mmap and signals: they appear only as outcomes the environment chooses.
- Wake-up notifications between the processes: they are hints that polling backs up, and no claim depends on them.
- Memory ordering weaker than coherent counters: a slot written before a publishing store is taken to be visible after the load that sees it.
- The forced close after the drain deadline (`uring_engine.cpp` lines 154-163): it frees connections with operations in flight, so the lifetime claims exclude it.
- Order between items of different connections in the outbox: the engine is modelled one connection at a time, with its own items in order.
- Connection ids restart with the gateway process, and their 64-bit wrap-around is not modelled: routing claims cover one process lifetime.
- The binding of worker threads to request rings (`bind_producer`): ring `w` belongs to worker `w` from the start.
- Update in place of the reply queue and the outbox, both guarded by a mutex: they are sequences in the state of the transition systems.
- Shared-memory creation, recovery and heartbeats: they depend on the process table and the clock.
- MySQL and Redis repositories: the account contract proved here is that of the in-memory one.
- Interleaving inside handlers: they touch several repositories without a common lock, so single charging is proved for atomic handlers.
- Distance, trajectory simulation and the choice of where and under which number bikes are put out: distance is a parameter, the others are random; each attempt to put out a bike is a request of its own.
- Fee rules, validation, configuration and logging: only as far as the handlers use them.
- Protobuf parsing and session tokens: requests arrive decoded, with the outcome of the session lookup.
- Qt widgets, map, location provider and the reconnect timer of the TCP worker.
- Repos.AccountRepo.AddBalance: requires a deposit to keep the balance within a 32-bit `int`, because beyond it the addition is undefined in the source.
- Handlers.Ctx.RechargeAccount: requires the same of its amount, for the same reason.
- Handlers.Ctx.Serve: stops at the first deposit that would leave the 32-bit range.
- Handlers.Ctx.EndRide: does not model rounding of distances, which are `real`, nor their conversion to `int` beyond its range, which is undefined in the source.
- Repos.RideSessionStore.UpdatePos: sequence numbers and times are unbounded integers.
- DispatchProof.NoReplyIsLost: the source drops the rest of a flush when the ring stays full past a deadline or a stop is requested; the claim holds up to then.
