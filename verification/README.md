# Verification of the video platform's protocols

This project models the stateful core of the platform and proves properties of the model in Dafny. It stands on its
own; `dfyconfig.toml` lists its files.

Most modules come in two layers. The first is a state machine on values: the rows, lists and sets that PostgreSQL,
Redis and the processes hold, one function for each operation, and theorems over every run of them. The second is a
class with the fields that the code updates and one method for each operation, whose postcondition says that the new
state is the one of the first layer.

| module | what it is about |
|---|---|
| `JobQueue`, `Workers`, `WorkersSafety`, `WorkersProgress`, `Processor` | the transcoding queue on Redis Streams under N interleaved workers: conservation, run counts, termination, counters |
| `WorkerPool`, `Scaler` | the semaphore pool, its dispatcher and its shutdown, and the autoscaler |
| `RateLimiter`, `RateBounds`, `RateResets` | the sliding window against the full request history, how far exactly it lets requests exceed its limits, and what its reset time is worth |
| `Frames`, `Fragments`, `ChatDelivery`, `ChatHub` | the WebSocket frame codec of section 5 of RFC 6455 and what a receiver makes of it, one client's bounded channel, the room registry |
| `TokenFamilies`, `TokenLifetimes` | refresh-token rotation and reuse detection, how long each token lasts, password resets |
| `Moderation`, `ModerationEffects`, `Reports`, `ReportTrails` | actions, what they hide and what reversing them undoes, the audit log, the life of a report and its appeal |
| `Options`, `Decimal`, `Strings`, `PasswordHash`, `HashTexts`, `SqlText`, `ModerationFilters`, `SearchFilter` | numerals, the printed password hash, and what the built WHERE texts mean |
| `SegmentPaths`, `LiveStreams`, `SeekRanges`, `ChatHistory`, `HistoryPages`, `Uploads`, `UploadFates` | playlist URLs and segment directories, live streams with DVR and their seek ranges, cursor paging, upload sessions |

## Hypotheses

The theorems hold under these, each of which is a precondition or the shape of a step in the model:

- Each service call or HTTP request is one step, except in `Workers`, `WorkerPool` and `ChatHub`, where each command
  on shared state is one. Where atomicity matters, a lemma shows what an interleaving does:
  `TokenFamilies.InterleavedRefreshesBreakRotation`, `ChatHub.TwoStepJoinCanOrphan`, `LiveStreams.LateStartRevives`,
  `LiveStreams.ConcurrentCreates`, `Uploads.LateChunkReopens`.
- Generated ids, keys and tokens are new, hashing is injective on them, and clocks do not run backwards.
- Redis and database commands whose errors the code ignores succeed; job payloads decode to what was encoded.
- `ChatHistory`: messages of one stream have distinct, increasing creation times.
- `SegmentPaths`: the base URL is scheme, "://", host and a path without escapes; the HLS directory needs no cleaning.

## Where the code falls short of what one would expect

Each of these is proved:

- A search with an empty text ignores every filter and shows private, unready and deleted videos, because `AND` binds
  tighter than `OR` in the joined clauses (`SearchFilter.MeansIntendedIff`).
- The rate limiter admits one request more than configured in a window, and in a second, exactly where the other
  limit leaves room for it, as it does in both shipped configurations (`RateBounds.WindowExceededIff`,
  `RateBounds.SecondExceededIff`, `RateBounds.ShippedConfigurations`); repetitions within one millisecond are not
  counted (`RateBounds.RepeatsDecidedAlike`).
- A client evicted for being slow stays in its room, and the next message to it sends on its closed channel
  (`ChatDelivery.FaultIffEvicted`, `ChatDelivery.FloodFaults`).
- A frame that announces 2^63 bytes or more makes the reader fault (`Frames.FaultOnForbiddenLength`).
- Reversing a deletion makes a video public whatever it was before, and reversing a hiding leaves the content hidden
  (`Moderation.ReversalExposes`, `ModerationEffects.HidingIsNotReversed`).
- An infected or expired upload can be completed, and chunks can add up to more than the declared size
  (`Uploads.VideoAddedIff`, `Uploads.StaysCompletable`, `Uploads.ExceedsDeclaredIff`).
- A completion whose video row cannot be inserted leaves its session complete without a video, for good
  (`UploadFates.CompletionLost`).
- Within the second that the limiter announces as its reset, a request can still be refused (`RateResets.RefusedAtReset`,
  `RateResets.AdmittedAfterReset`).
- The WebSocket reader takes the fragments of a message for messages (`Fragments.ReaderIgnoresFin`).
- A worker pool without slots that is told to run a worker can no longer be stopped (`WorkerPool.NoSlotsGetStuck`).
- A segment directory that could not be removed, or whose stream was deleted, stays on disk for good
  (`LiveStreams.LeftBehind`, `LiveStreams.MarkedRegardless`).
- `parseInt` wraps around at 2^63 without an error (`Decimal.ReadsNumberIff`).

## Model

| member | source | states |
|---|---|---|
| JobQueue.Queue.Enqueue | packages/media/queue.go:68-81 | appends one entry to the stream and nothing else; the message id is its position |
| JobQueue.Queue.ClaimPending | packages/media/queue.go:90-117 | delivers the oldest undelivered entry and makes it pending, or finds nothing exactly when all are delivered |
| JobQueue.Queue.Ack | packages/media/queue.go:120-122 | removes one message from the pending list, leaving the streams alone |
| JobQueue.Queue.MoveToDeadLetter | packages/media/queue.go:159-178 | appends the job to the dead-letter stream and acknowledges its message |
| JobQueue.Queue.NackWithAttempt | packages/media/queue.go:142-155 | with one more attempt on it, the job reappears once: in the dead-letter stream if its attempts are used up, else in the stream; the message is no longer pending |
| Workers.InvStep | services/worker/internal/processor/processor.go:134-181 | the invariant on stream, pending list, dead-letter stream, workers and job histories survives every command of every worker |
| Workers.ReachableInv | services/worker/internal/processor/processor.go:134-181 | it holds in every state that N workers reach in any interleaving of their commands |
| Workers.SuccessTurn | services/worker/internal/processor/processor.go:172-180 | the commands of one successful processNext, run without interruption, complete exactly the claimed job |
| Workers.DeadLetterTurn | services/worker/internal/processor/processor.go:156-161 | likewise for a permanent or exhausting failure: the job ends in the dead-letter stream and is no longer pending |
| Workers.RetryTurn | packages/media/queue.go:147-154 | likewise for a retry: the job is back at the end of the stream with one more attempt |
| WorkersSafety.Conservation | packages/media/queue.go:142-178 | command by command, an enqueued job is in exactly one of undelivered, pending, completed, dead-lettered, except in none between a retry's acknowledgement and its enqueue, and in two between the two commands of the dead-letter pipeline |
| WorkersSafety.ExactlyOnePlace | packages/media/queue.go:142-178 | with no worker between two such commands, the four places partition the enqueued jobs |
| WorkersSafety.NoDuplicates | packages/media/queue.go:90-155 | no job is carried by two live messages or held by two workers |
| WorkersSafety.ClaimsAreCounted | services/worker/internal/processor/processor.go:134-143 | the recorded claims of a job are the claims that occur in the run |
| WorkersSafety.RunCount | packages/media/queue.go:142-155 | over any run, a job has been claimed as often as its attempt counter says while undelivered, and once more while pending |
| WorkersSafety.CompletedRunCount | services/worker/internal/processor/processor.go:172-180 | a completed job has been claimed once more than the counter of the message it completed with says |
| WorkersSafety.RetriedRunCount | packages/media/queue.go:142-154 | a job between the two commands of a retry has been claimed as often as its raised counter says |
| WorkersSafety.DeadLetterRunCount | packages/media/queue.go:142-178 | a job dead-lettered by a permanent failure ran attempts + 1 times, within its limit; one dead-lettered by an exhausted retry ran attempts = limit times |
| WorkersSafety.DeadLettersAreTraced | packages/media/queue.go:142-178 | every dead letter names the message its job came from, with the job as that message had it or with the attempt that exhausted it added |
| WorkersSafety.AtMostMaxAttempts | packages/media/queue.go:143-146 | a job with a positive limit never runs more often than the limit |
| WorkersSafety.UnlimitedWithoutMaxAttempts | packages/media/queue.go:144-146 | a job without a positive limit can run any number of times: the limit is needed |
| WorkersProgress.WeightStep | packages/media/queue.go:142-155 | a sum over all jobs of what is left to do drops with every command except a new enqueue |
| WorkersProgress.Termination | services/worker/internal/processor/processor.go:134-181 | however the workers interleave, a run is no longer than what its enqueued jobs pay for; without new jobs every run ends |
| WorkersProgress.QuiescentMeansSettled | services/worker/internal/processor/processor.go:134-181 | when no worker can move, every job is completed or dead-lettered, and nothing is undelivered or pending |
| WorkersProgress.MetricsMove | services/worker/internal/metrics/metrics.go:28-49 | each command changes each counter by exactly what it changes in the workers' stages |
| WorkersProgress.CountersReconcile | services/worker/internal/metrics/metrics.go:28-49 | in every reachable state started = completed + failed + active, and starts, completions and permanent failures reconcile with the claims and outcomes of all jobs |
| Processor.WorkerMetrics.RecordStart | services/worker/internal/metrics/metrics.go:29-32 | one more started and one more active |
| Processor.WorkerMetrics.RecordComplete | services/worker/internal/metrics/metrics.go:35-39 | one more completed and one fewer active |
| Processor.WorkerMetrics.RecordFailure | services/worker/internal/metrics/metrics.go:43-49 | one more failed, one fewer active, and one more permanent if so |
| Processor.Worker.ProcessNext | services/worker/internal/processor/processor.go:134-181 | by outcome: a success completes the claimed job, a permanent failure buries it as it is, any other failure raises its attempt and puts it back while attempts are left or else buries it; the message is never left pending, the counters move accordingly, and the turn is a run of the N-worker protocol in which only this worker moves and reports that outcome |
| WorkerPool.PermitsAccounted | services/worker/internal/processor/processor.go:71-116 | in every reachable state semaphore occupancy = live workers + the dispatcher's own slot + drain permits, at most maxConc, and activeWorkers is at most the live workers |
| WorkerPool.StartsBelowDesired | services/worker/internal/processor/processor.go:94-106 | a worker starts only below the desired value just read, whatever ran in between, so there are never more workers than the largest desired value read |
| WorkerPool.DrainedMeansNoWorker | services/worker/internal/processor/processor.go:84-90 | when Run returns no worker is running, and none ever starts again |
| WorkerPool.DrainProgress | services/worker/internal/processor/processor.go:85-115 | a drain is never stuck, and each of its steps lowers a measure |
| WorkerPool.DrainEnds | services/worker/internal/processor/processor.go:85-115 | so a drain takes no more steps than that measure, for any schedule |
| WorkerPool.DrainsOnlyWhenCancelled | services/worker/internal/processor/processor.go:81-91 | the pool drains and stops only after a cancellation |
| WorkerPool.DispatchTurn | services/worker/internal/processor/processor.go:92-106 | from the top of the loop a desired value leads to one more worker exactly if fewer slots are occupied, and back to the top unchanged otherwise |
| WorkerPool.AtMostOneStart | services/worker/internal/processor/processor.go:81-106 | after a cancellation at most one more worker starts, and only if its desired value had been read before |
| WorkerPool.StopProgress | services/worker/internal/processor/processor.go:81-116 | a cancelled pool with at least one slot is never stuck before it has stopped, and each of its steps lowers a measure |
| WorkerPool.CancelStops | services/worker/internal/processor/processor.go:81-116 | under any schedule a cancelled pool takes no more steps than that measure, and when it can take no more it has stopped without a worker |
| WorkerPool.NoSlotsGetStuck | services/worker/internal/processor/processor.go:67-100 | the slot is needed: without one, a pool that reads a positive desired value blocks for good |
| Scaler.ScalingController.constructor | packages/media/scaler.go:76-87 | a controller starts at the minimum with no samples and no scaling so far |
| Scaler.ScalingController.RecordUtilization | packages/media/scaler.go:100-111 | the sample window is always the last ten samples of the full history, or all of them; a total of zero or less is ignored |
| Scaler.ScalingController.AvgUtilization | packages/media/scaler.go:113-124 | the loop computes the mean of the window, 0 without samples |
| Scaler.ScalingController.Evaluate | packages/media/scaler.go:140-194 | one evaluation changes the desired count by at most one, in the direction and under the exact thresholds and cooldown of the policy, and keeps min <= desired <= max |
| Scaler.CooldownBound | packages/media/scaler.go:167-182 | events that keep a positive cooldown c apart happen at most L/c + 1 times in any interval of length L |
| Scaler.ScalingHistory | packages/media/scaler.go:140-194 | for any controller after any calls: desired = min + ups - downs within the bounds, and ups and downs obey that bound with their cooldowns |
| RateLimiter.Decide | services/api/internal/http/middleware/ratelimit.go:154-173 | the decision, the remaining count and the reset time, burst limit first |
| RateLimiter.ExpiryOutlivesWindow | services/api/internal/http/middleware/ratelimit.go:136-147 | when the key expires, everything in it has left the window |
| RateLimiter.WindowStep | services/api/internal/http/middleware/ratelimit.go:130-136 | purge, count and add on the sorted set: the count is the number of distinct request milliseconds of the whole history in the window |
| RateLimiter.BurstStep | services/api/internal/http/middleware/ratelimit.go:139-147 | likewise for the set scored by second: the count is that of the current second |
| RateLimiter.RateLimiter.TouchWindow | services/api/internal/http/middleware/ratelimit.go:130-136 | the commands on the window set do that step |
| RateLimiter.RateLimiter.TouchBurst | services/api/internal/http/middleware/ratelimit.go:141-147 | the commands on the burst set do that step |
| RateLimiter.RateLimiter.Allow | services/api/internal/http/middleware/ratelimit.go:118-174 | one call decides as the full history of requests decides, and keeps the purged sets consistent with it, for a clock that does not go back |
| RateLimiter.AdmittedPerWindow | services/api/internal/http/middleware/ratelimit.go:158-165 | in any window, wherever it ends, the admitted requests cover at most RequestsPerWindow + 1 distinct milliseconds |
| RateLimiter.AdmittedPerSecond | services/api/internal/http/middleware/ratelimit.go:158-160 | in any calendar second they cover at most BurstSize + 1 |
| RateLimiter.SilenceReadmits | services/api/internal/http/middleware/ratelimit.go:130-165 | after a silence of a window that also leaves the second, the next request is admitted |
| RateResets.ResetIsWindowEndIff | services/api/internal/http/middleware/ratelimit.go:158-171 | the announced reset second is the one in which the window starting now ends, exactly if the fractions of clock and window do not add up to another second; it is never more than one second early |
| RateResets.AdmittedAfterReset | services/api/internal/http/middleware/ratelimit.go:158-171 | whoever stays silent until the announced second is over is admitted, for windows of whole seconds, and one second later for all others |
| RateResets.BurstLiftedAtReset | services/api/internal/http/middleware/ratelimit.go:154-156 | from the second announced by a burst refusal on, only the window limit decides |
| RateResets.RefusedAtReset | services/api/internal/http/middleware/ratelimit.go:158-161 | within the announced second itself a request can still be refused |
| RateBounds.Replay | services/api/internal/http/middleware/ratelimit.go:157-173 | one request at each of any times that obey BurstSize + 1 a second and RequestsPerWindow + 1 a window is a history that admits them all |
| RateBounds.WindowBound | services/api/internal/http/middleware/ratelimit.go:139-160 | no window of w milliseconds, wherever it starts, holds more than its capacity at m for each calendar second |
| RateBounds.BusiestWindow | services/api/internal/http/middleware/ratelimit.go:139-160 | and some window holds that many |
| RateBounds.CapacityClosed | services/api/internal/http/middleware/ratelimit.go:139-160 | the capacity in closed form, from the whole seconds and the rest of the window |
| RateBounds.WindowExceededIff | services/api/internal/http/middleware/ratelimit.go:162-165 | for every configuration: more than RequestsPerWindow milliseconds are admitted in some window exactly when that number is below what a window holds at BurstSize + 1 a second |
| RateBounds.WindowExceeded | services/api/internal/http/middleware/ratelimit.go:162-165 | and then RequestsPerWindow + 1 are, so the bound on windows is tight |
| RateBounds.SecondExceededIff | services/api/internal/http/middleware/ratelimit.go:157-160 | for every configuration: more than BurstSize milliseconds are admitted in some second exactly when that number is below what a second holds at RequestsPerWindow + 1 a window |
| RateBounds.SecondExceeded | services/api/internal/http/middleware/ratelimit.go:157-160 | and then BurstSize + 1 are, so the bound on seconds is tight |
| RateBounds.ShippedConfigurations | services/api/internal/http/middleware/ratelimit.go:23-38 | both shipped configurations are exceeded, in the window and in the second |
| RateBounds.RepeatsDecidedAlike | services/api/internal/http/middleware/ratelimit.go:132-146 | after any history, repetitions of the last request in its millisecond add nothing to the sets, and are all admitted or all refused |
| RateBounds.SameMillisecondIff | services/api/internal/http/middleware/ratelimit.go:132-165 | from nothing, several requests of one millisecond are all admitted exactly when both limits are positive, or the burst limit is and the window is shorter than a millisecond |
| Frames.UintOfPutUint | services/api/internal/live/chat_hub.go:69-75 | big-endian bytes of any width read back as the number written |
| Frames.MaskedTwice | services/api/internal/live/chat_hub.go:95-99 | masking twice with one key (section 5.3 of RFC 6455) gives back the payload |
| Frames.UnmaskInPlace | services/api/internal/live/chat_hub.go:95-99 | the in-place loop computes the masking function |
| Frames.WSConn.ReadLength | services/api/internal/live/chat_hub.go:61-76 | the payload length in its three forms, as a signed 64-bit number |
| Frames.WSConn.ReadBody | services/api/internal/live/chat_hub.go:83-100 | mask key and payload, or the error for want of bytes |
| Frames.WSConn.ReadFrame | services/api/internal/live/chat_hub.go:52-101 | one read returns what decoding the incoming bytes returns and takes exactly the bytes decoding takes |
| Frames.WSConn.WriteFrame | services/api/internal/live/chat_hub.go:104-130 | one write appends exactly the encoding of the frame, whose octets Fragments.FirstOctet, Frames.LengthFieldRead and Fragments.NetworkOrder fix |
| Frames.LengthFieldRead | services/api/internal/live/chat_hub.go:59-76 | the header of every written frame announces its length and mask, in all three length forms |
| Frames.DecodeEncode | services/api/internal/live/chat_hub.go:52-130 | reading a written frame returns it and takes exactly its bytes, for every payload up to 65536 bytes; of the opcode the low four bits travel |
| Frames.DecodeEncodeTooLarge | services/api/internal/live/chat_hub.go:78-81 | beyond that limit the frame is refused |
| Frames.DecodeEncodeMasked | services/api/internal/live/chat_hub.go:83-99 | a client frame masked with any key decodes to its original payload |
| Frames.EncodeIsShortest | services/api/internal/live/chat_hub.go:109-123 | no byte string that decodes to a payload is shorter than what writeFrame writes for it |
| Frames.DecodeNEncodeAll | services/api/internal/live/chat_hub.go:52-130 | any list of frames with opcodes below 16 and payloads up to the limit, written one after another, is read back by that many reads as exactly that list, leaving exactly the bytes that follow, whatever these are |
| Frames.DecodeAllEncodeAll | services/api/internal/live/chat_hub.go:52-130 | any list of frames with opcodes below 16, written one after another, is also what reading until no frame comes gives back |
| Frames.FaultOnForbiddenLength | services/api/internal/live/chat_hub.go:70-90 | the allocation faults exactly when the header is complete and announces a length of 2^63 or more |
| Fragments.FirstOctet | services/api/internal/live/chat_hub.go:107 | every frame is written with FIN set, its opcode, and no reserved bit |
| Fragments.OneMessagePerFrame | services/api/internal/live/chat_hub.go:104-130 | a receiver that follows section 5.4 of RFC 6455 gets from the written bytes exactly one message for each frame, in order, with nothing left open; it fails exactly if some frame has opcode 0 |
| Fragments.WrittenIsReceived | services/api/internal/live/chat_hub.go:104-130 | it gets them frame by frame and goes on unharmed with whatever follows |
| Fragments.ReaderIgnoresFin | services/api/internal/live/chat_hub.go:60-101 | the server's own reader takes no notice of FIN or the reserved bits, so fragments come out of it as frames of their own |
| Fragments.MaskedBits | services/api/internal/live/chat_hub.go:95-99 | each bit of a payload is flipped exactly where octet i modulo 4 of the key has a one |
| Fragments.NetworkOrder | services/api/internal/live/chat_hub.go:112-121 | extended lengths travel most significant octet first |
| ChatDelivery.Delivery | services/api/internal/live/chat_hub.go:218-250 | what reaches the connection is a gap-free in-order prefix of the messages handed to the client before the close, and the buffer never exceeds 64 |
| ChatDelivery.ClosedAtMostOnce | services/api/internal/live/chat_hub.go:218-220 | in any run the channel is closed at most once, whichever of overflow and disconnect comes first |
| ChatDelivery.FaultIffSendAfterClose | services/api/internal/live/chat_hub.go:243-250 | a run ends in the fault exactly when a message is handed over after the close |
| ChatDelivery.FaultIffEvicted | services/api/internal/live/chat_hub.go:243-250 | in any reachable state the next message, broadcast or reply, faults exactly when the client has been evicted |
| ChatDelivery.EvictedIff | services/api/internal/live/chat_hub.go:243-250 | and a step evicts exactly when it hands a message to an open channel that holds 64 |
| ChatDelivery.FloodFaults | services/api/internal/live/chat_hub.go:243-292 | 66 broadcasts, or 66 replies, to a client whose connection takes nothing reach the fault |
| ChatDelivery.DisconnectDrains | services/api/internal/live/chat_hub.go:218-241 | a client that disconnects before its pump has failed can always finish its cleanup, have everything its channel took written out, which is everything it was handed unless it was evicted, and end its pump |
| ChatDelivery.FaultNeedsOverflow | services/api/internal/live/chat_hub.go:429-432 | a disconnect is safe: the fault needs an eviction first |
| ChatDelivery.ChatClient.CloseSend | services/api/internal/live/chat_hub.go:218-220 | closes an open channel, leaves a closed one alone |
| ChatDelivery.ChatClient.Enqueue | services/api/internal/live/chat_hub.go:243-250 | on the buffer itself: send, evict, or fault, as the protocol step says |
| ChatDelivery.ChatClient.PumpTurn | services/api/internal/live/chat_hub.go:223-240 | one turn of the pump is an enabled protocol step, or waits exactly when the open channel is empty |
| ChatHub.InvStep | services/api/internal/live/chat_hub.go:330-365 | the room registry invariant survives every step of every client |
| ChatHub.RoomsAndSubscriptions | services/api/internal/live/chat_hub.go:330-365 | in every reachable state rooms and unsubs have the same streams, each registered room has one uncancelled subscription, and an empty registered room has someone who still has to run dropRoom or is joining |
| ChatHub.ConnectedIsRegistered | services/api/internal/live/chat_hub.go:422-434 | a connected client is in its room, and that room is the registered one unless the client was orphaned while joining |
| ChatHub.TwoStepJoinCanOrphan | services/api/internal/live/chat_hub.go:422-434 | a run of the two-step join in which a leaver unregisters the room between the steps and leaves a connected client orphaned |
| ChatHub.AtomicJoinsOrphanNobody | services/api/internal/live/chat_hub.go:422-424 | with the two steps of a join together, no run orphans anyone |
| ChatHub.ConnectedCount | services/api/internal/live/chat_hub.go:422-434 | the connected clients number joins minus leaves |
| ChatHub.WatchingIsConnected | services/api/internal/live/chat_hub.go:369-377 | without orphans the clients in registered rooms are the connected ones |
| ChatHub.AtomicJoinsExact | services/api/internal/live/chat_hub.go:330-377 | with atomic joins every connected client is in the room registered under its stream, and the viewers number joins minus leaves, in every reachable state |
| ChatHub.ChatHub.GetOrCreateRoom | services/api/internal/live/chat_hub.go:330-347 | returns the registered room, creating room and subscription if there is none |
| ChatHub.ChatHub.DropRoom | services/api/internal/live/chat_hub.go:350-365 | unregisters an empty room and cancels its subscription; otherwise changes nothing |
| ChatHub.ChatHub.Viewers | services/api/internal/live/chat_hub.go:369-377 | the loop returns the number of clients in registered rooms |
| TokenFamilies.InvStep | services/api/internal/auth/service.go:194-333 | the invariant on token rows survives every call |
| TokenFamilies.OneLiveTokenPerFamily | services/api/internal/auth/service.go:178-231 | after any sequence of calls a family has one user and at most one unrevoked token, its newest |
| TokenFamilies.ExchangedAtMostOnce | services/api/internal/auth/service.go:194-236 | a token is exchanged at most once, and exactly the tokens that a newer one of the family replaced have been |
| TokenFamilies.DeadForever | services/api/internal/auth/repository.go:246-253 | a family without a live token never has one again |
| TokenFamilies.ReuseKillsFamily | services/api/internal/auth/service.go:205-210 | presenting a revoked token, whenever, is reported and leaves its family without a live token for good |
| TokenFamilies.SecondUseKillsFamily | services/api/internal/auth/service.go:194-236 | presenting an exchanged token once more, after any calls in between, does that too |
| TokenFamilies.LogoutEndsFamilies | services/api/internal/auth/service.go:241-243 | logging out or resetting the password ends every family of the user, for good |
| TokenFamilies.ResetTokenOnce | services/api/internal/auth/service.go:293-333 | a reset token changes a password at most once |
| TokenFamilies.InterleavedRefreshesBreakRotation | services/api/internal/auth/service.go:197-231 | why calls must be atomic: two refreshes that both read the token before either revokes it leave two live tokens in a family |
| TokenLifetimes.StepEndsIff | services/api/internal/auth/service.go:194-257 | which calls end a live token, each by name and no other; its row then says when |
| TokenLifetimes.LiveUntilEnded | services/api/internal/auth/service.go:194-334 | over any run a token stays live exactly as long as no call ends it |
| TokenLifetimes.TokenLifetime | services/api/internal/auth/service.go:211-236 | after a login or refresh issued a token and after any calls, presenting it is an exchange exactly while nothing has ended it and it is not past issue + TTL; once ended it is reuse, once merely expired it is refused without any effect |
| TokenLifetimes.RefreshAnswers | services/api/internal/auth/service.go:194-236 | what a refresh is answered, by what is stored under the presented hash |
| TokenLifetimes.ResetTokenLifetime | services/api/internal/auth/service.go:293-333 | a reset token changes its user's password to the given one exactly when that is long enough, the token was not used before and has not expired; a refused attempt does not use it up |
| TokenLifetimes.PasswordIsLastReset | services/api/internal/auth/service.go:293-333 | after any run a user's password is that of the user's last successful reset, or unchanged |
| TokenFamilies.AuthService.CreateRefreshToken | services/api/internal/auth/repository.go:197-204 | inserts one unrevoked row |
| TokenFamilies.AuthService.RevokeRefreshToken | services/api/internal/auth/repository.go:222-229 | revokes one row |
| TokenFamilies.AuthService.RevokeRefreshTokenFamily | services/api/internal/auth/repository.go:246-253 | no row of the family is left unrevoked; its unrevoked rows are stamped now; rows already revoked and rows of other families are as before |
| TokenFamilies.AuthService.RevokeAllUserRefreshTokens | services/api/internal/auth/repository.go:255-262 | no row of the user is left unrevoked; the unrevoked ones are stamped now; rows already revoked and rows of other users are as before |
| TokenFamilies.AuthService.RefreshTokens | services/api/internal/auth/service.go:194-236 | outcome and new tables of a refresh: unknown, reused, expired, or rotated; TokenLifetimes.TokenLifetime says how long the new token lasts |
| TokenFamilies.AuthService.LogoutAll | services/api/internal/auth/service.go:241-243 | the whole new state of a logout |
| TokenFamilies.AuthService.LogoutOne | services/api/internal/auth/service.go:246-255 | the whole new state of ending one session |
| TokenFamilies.AuthService.RevokeOne | services/api/internal/auth/repository.go:231-244 | revokes an owned session by id, and reports whether there was one |
| TokenFamilies.AuthService.RequestPasswordReset | services/api/internal/auth/service.go:260-290 | issues a reset token to a known user, does nothing for an unknown one |
| TokenFamilies.AuthService.ChangeByReset | services/api/internal/auth/service.go:293-333 | outcome and new tables of a password reset |
| Moderation.ReverseAfterExecute | services/api/internal/moderation/service.go:78-138 | executing an action and reversing it restores all targets in exactly the tabulated cases, and never touches another target |
| Moderation.ReverseLater | services/api/internal/moderation/service.go:78-138 | the same when the reversal comes later, after any operations on other targets |
| Moderation.UndoneIff | services/api/internal/moderation/service.go:166-242 | the table of those cases, per action and kind of target, is exact |
| Moderation.ReversalExposes | services/api/internal/moderation/service.go:226-232 | a reversed deletion leaves a video public whatever it was, and even undeletes one that was deleted before the action |
| Moderation.ReversedAtMostOnce | services/api/internal/moderation/repository.go:489-501 | over any operations an action is reversed at most once, and later attempts are refused and change nothing |
| ModerationEffects.HidesIff | services/api/internal/moderation/service.go:166-242 | which actions take away something that is shown: three for a video, two for a comment, two for an undeleted user |
| ModerationEffects.StaysHidden | services/api/internal/moderation/service.go:108-242 | what is hidden stays hidden over any operations until a restore reaches it |
| ModerationEffects.DeletedIsFrozen | services/api/internal/moderation/service.go:166-242 | a deleted video or comment does not change at all until then |
| ModerationEffects.DeletionStands | services/api/internal/moderation/service.go:187-202 | so its row keeps saying when it was deleted, that it was taken down and when it had been published |
| ModerationEffects.UsersKeepDeletion | services/api/internal/moderation/service.go:203-234 | moderation never deletes a user or brings a deleted one back, over any operations |
| ModerationEffects.RestoresIff | services/api/internal/moderation/service.go:219-234 | restoring shows again deleted content and suspended or banned users, nothing else |
| ModerationEffects.HidingIsNotReversed | services/api/internal/moderation/service.go:108-127 | content that was shown and then hidden stays hidden when the hiding is reversed, although the reversal succeeds |
| ModerationEffects.ReversalAnswers | services/api/internal/moderation/service.go:108-122 | what a reversal is answered, after any operations |
| ModerationEffects.AuditTrail | services/api/internal/moderation/service.go:89-137 | over any operations the audit log accounts for every action and every reversal, once, in order, with actor, action, target and reason |
| Moderation.ModerationService.ApplyActionToTarget | services/api/internal/moderation/service.go:166-242 | the guarded update of each action on each kind of target |
| Moderation.ModerationService.ExecuteAction | services/api/internal/moderation/service.go:78-105 | one new action row with actor, report, action, target and reason, the effect on the target, one audit entry that says so |
| Moderation.ModerationService.MarkReversed | services/api/internal/moderation/repository.go:489-501 | stamps an unreversed row, and reports whether there was one |
| Moderation.ModerationService.ReverseAction | services/api/internal/moderation/service.go:107-138 | outcome and whole new state of a reversal |
| Reports.RowStaysSound | services/api/internal/moderation/repository.go:284-350 | every guarded update keeps the row sound: status, assignee, resolution and appeal fields agree |
| Reports.ReportLifecycle | services/api/internal/moderation/repository.go:284-350 | over any requests: open iff not closed and unassigned, assigned iff not closed and assigned to someone, resolved_at iff resolved or dismissed, an appeal only on a resolved report and moving once from pending to a decision; nothing moves back |
| Reports.OneActionPerReport | services/api/internal/http/handlers/moderation.go:218-266 | over any requests the action rows that name a report are those requested on their own plus at most one that resolving it executed, and that one only if the report is then resolved |
| Reports.DecisionTakesEffectIff | services/api/internal/moderation/repository.go:341-350 | an appeal decision is answered with success in any case, but changes something iff an appeal was pending |
| ReportTrails.NamesAction | services/api/internal/http/handlers/moderation.go:268-281 | the handler accepts exactly the nine stored names, and each stands for its own action |
| ReportTrails.AnswersAreTrue | services/api/internal/http/handlers/moderation.go:39-411 | creating, resolving, dismissing and appealing are answered with success exactly if they changed a report; a refusal changes nothing |
| ReportTrails.DoneIff | services/api/internal/moderation/repository.go:284-339 | when a report can be assigned, closed and appealed, by what was done to it before |
| ReportTrails.ResolutionActsOnReported | services/api/internal/http/handlers/moderation.go:241-263 | resolving with a named action executes that action, for the one who resolves and on the report's account, on the target named at creation, whatever happened in between |
| ReportTrails.ClosingStands | services/api/internal/moderation/repository.go:305-317 | who closed a report, how and when stays on it for good |
| ReportTrails.AppealStands | services/api/internal/moderation/repository.go:326-339 | an appeal keeps its reason and time for good |
| ReportTrails.DecisionStands | services/api/internal/moderation/repository.go:341-350 | the first decision on an appeal stands with author and time, and its notes end the admin notes after all that stood there |
| ReportTrails.NotesChangeOnlyBy | services/api/internal/moderation/repository.go:319-350 | admin notes change only by being set or by a decision |
| ReportTrails.HolderIsAssignee | services/api/internal/moderation/repository.go:284-303 | the assignee of a report is the one of the last assignment or unassignment before it was closed |
| ReportTrails.ReasonsFit | services/api/internal/http/handlers/moderation.go:346-355 | no report ever carries an appeal with an empty reason or one longer than 2000 |
| Reports.ModerationHandler.CreateReport | services/api/internal/moderation/repository.go:143-156 | a new report is open, unassigned, without resolution or appeal |
| Reports.ModerationHandler.AssignReport | services/api/internal/moderation/repository.go:284-296 | assigns an open or assigned report, refuses others |
| Reports.ModerationHandler.UnassignReport | services/api/internal/moderation/repository.go:298-303 | reopens an assigned report, does nothing to others |
| Reports.ModerationHandler.Close | services/api/internal/moderation/repository.go:305-317 | closes an open or assigned report once |
| Reports.ModerationHandler.ResolveReport | services/api/internal/http/handlers/moderation.go:218-281 | validation, then the guarded close, then at most one action on the report's target |
| Reports.ModerationHandler.DismissReport | services/api/internal/http/handlers/moderation.go:283-298 | dismisses an open or assigned report, refuses others |
| Reports.ModerationHandler.SetAdminNotes | services/api/internal/moderation/repository.go:319-324 | replaces the notes of an existing report |
| Reports.ModerationHandler.SubmitAppealOf | services/api/internal/moderation/repository.go:326-339 | one appeal on a resolved report, with a reason of at most 2000 bytes |
| Reports.ModerationHandler.DecideAppeal | services/api/internal/http/handlers/moderation.go:374-399 | granted or denied, on a pending appeal, with the notes appended |
| Decimal.ValuePrint | services/api/internal/moderation/repository.go:606-617 | reading a printed number gives it back, for all naturals |
| Decimal.PrintValue | services/api/internal/moderation/repository.go:606-617 | printing a read numeral gives it back exactly for numerals without superfluous zeros |
| Decimal.Itoa | services/api/internal/moderation/repository.go:606-617 | the loop prints the decimal numeral |
| Decimal.ItoaLive | services/api/internal/live/repository.go:315-325 | the other loop does too, and prints nothing for negative numbers |
| Decimal.ParseInt | services/api/internal/http/handlers/moderation.go:799-808 | reads a string of digits as its number modulo 64-bit wrap-around, the empty string as 0, and refuses any other character |
| Decimal.ReadsNumberIff | services/api/internal/http/handlers/moderation.go:799-808 | the number read is the number written exactly below 2^63 |
| Decimal.ItoaParseInt | services/api/internal/http/handlers/moderation.go:799-808 | what itoa prints parseInt reads back, for every nonnegative 64-bit number |
| PasswordHash.FormatText | packages/auth/auth.go:52-60 | the printed text, piece by piece |
| PasswordHash.RoundTrip | packages/auth/auth.go:41-147 | parsing what Hash prints gives back all components, for all 32-bit memory and iterations and 8-bit parallelism, exactly when salt and hash contain no dollar sign |
| PasswordHash.LeadIgnored | packages/auth/auth.go:110-114 | the parser gives the same for any text that starts with a dollar sign and for that text after anything without one |
| PasswordHash.NormalForm | packages/auth/auth.go:110-147 | every accepted text has in-range components whose printed form parses to the same |
| HashTexts.AcceptedIff | packages/auth/auth.go:110-147 | exactly which texts the parser accepts and as what: six pieces naming argon2id and version 19, with three nonempty numerals within 32, 32 and 8 bits, labelled or not |
| PasswordHash.FormatInjective | packages/auth/auth.go:52-60 | different components are printed differently |
| PasswordHash.CompareHash | packages/auth/auth.go:41-81 | a stored hash accepts a password exactly when it derives the same key as the one it was made from |
| Strings.SplitJoin | packages/auth/auth.go:111-122 | splitting a joined list of separator-free pieces gives back the pieces |
| SqlText.WordsConcat | services/api/internal/moderation/repository.go:213-236 | texts with a space or newline between them read word by word |
| SqlText.PlaceholderResolves | services/api/internal/moderation/repository.go:218-236 | the placeholder printed for n denotes the n-th argument |
| SqlText.AllHoldAnd | services/api/internal/moderation/repository.go:218-236 | texts joined by AND hold together |
| SqlText.HoldsOr | packages/search/postgres.go:58-98 | OR splits before AND does |
| SqlText.ConjoinedMeaning | services/api/internal/moderation/repository.go:213-236 | comparisons appended with consecutive placeholders, and their arguments in that order, denote the conjunction |
| ModerationFilters.And | services/api/internal/moderation/repository.go:217-221 | text, argument and next index stay in step: index = number of arguments + 1 |
| ModerationFilters.PageText | services/api/internal/moderation/repository.go:246-256 | the limit and offset placeholders denote the normalised limit and the offset |
| ModerationFilters.ListReportsWhere | services/api/internal/moderation/repository.go:208-256 | text and arguments of ListReports are those of its filter, page included |
| ModerationFilters.ReportsListed | services/api/internal/moderation/repository.go:213-241 | they select exactly the rows that meet every filter set, in the count and in the page |
| ModerationFilters.ListActionsWhere | services/api/internal/moderation/repository.go:413-453 | text and arguments of ListActions |
| ModerationFilters.ActionsListed | services/api/internal/moderation/repository.go:418-441 | they select exactly the rows that meet every filter set |
| ModerationFilters.ListAuditLogWhere | services/api/internal/moderation/repository.go:518-572 | text and arguments of ListAuditLog |
| ModerationFilters.AuditLogListed | services/api/internal/moderation/repository.go:523-560 | they select exactly the rows that meet every filter set, both time bounds inclusive |
| SearchFilter.Search | packages/search/postgres.go:54-98 | text and arguments of Search, or the error about an unknown upload date |
| SearchFilter.SearchMeaning | packages/search/postgres.go:58-98 | as written, a search finds the rows for which the text is empty, or the text matches and every filter holds; the longer argument list of the page query changes nothing |
| SearchFilter.UnintendedRow | packages/search/postgres.go:58-98 | with an empty text a private video is found |
| SearchFilter.MeansIntendedIff | packages/search/postgres.go:58-98 | a search means the intended conjunction exactly when its text is not empty |
| SegmentPaths.PathOfPrinted | services/api/internal/live/dvr.go:146-149 | the path of a URL that Create printed is what follows the host |
| SegmentPaths.SegmentDirOfKey | services/api/internal/live/dvr.go:141-156 | the directory derived from that URL is the key inside one fixed directory |
| SegmentPaths.DirectoriesDisjoint | services/api/internal/live/dvr.go:141-156 | no file is within the directories of two keys |
| SegmentPaths.RootSurvives | services/api/internal/live/dvr.go:122-127 | removing a stream's directory never removes the directory of all streams |
| LiveStreams.OneActivePerOwner | services/api/internal/live/service.go:54-84 | over any calls an owner has at most one idle or live stream, and every row is sound: started before ended, cleaned only after the retention window |
| LiveStreams.ForwardOnly | services/api/internal/live/service.go:177-228 | ended is final, start and end times once set never change, a deleted stream never comes back |
| LiveStreams.SeekRange | services/api/internal/live/dvr.go:23-52 | over any calls the seekable range stays in [0, window], never shrinks, and once ended is the shorter of duration and window for good; SeekRanges says what it is |
| SeekRanges.SeekableWhileLive | services/api/internal/live/dvr.go:29-35 | a recorded stream that went live at t0 and still is live has the range clock - t0, or its window if that is shorter |
| SeekRanges.GrowsWithTime | services/api/internal/live/dvr.go:29-35 | so while it is live the range grows by exactly the time that passes, until the window is full |
| SeekRanges.SeekableAfterEnd | services/api/internal/live/dvr.go:36-43 | after an end at t1 the range is for good the shorter of t1 - start and window, and none for a stream that never was live |
| SeekRanges.InfoOfCreated | services/api/internal/live/service.go:70-99 | from creation on, whatever is called, a viewer is told the window and recording flag that were asked for, or their defaults, and the stored URL; with recording off nothing is told |
| SeekRanges.CreatedIff | services/api/internal/live/service.go:54-62 | a stream is created exactly if all other streams of the owner have ended |
| SeekRanges.DeletedByOwner | services/api/internal/live/service.go:155-164 | a stream goes away exactly when its owner deletes it |
| SeekRanges.StartsIff | services/api/internal/live/service.go:177-201 | a start takes effect exactly on idle streams |
| SeekRanges.EndsIff | services/api/internal/live/service.go:204-228 | an end takes effect exactly on streams that have not ended, and at its own time |
| SeekRanges.SweepRemovesIff | services/api/internal/live/dvr.go:104-137 | a sweep removes a recording file exactly if its stream ended with recording on, is uncleaned, past its end by its window, and its directory can be removed; it marks the stream under the same conditions but the last |
| LiveStreams.FileRemoved | services/api/internal/live/dvr.go:104-136 | a file disappears only by a sweep of its own stream, past its end plus window |
| LiveStreams.Retained | services/api/internal/live/dvr.go:104-136 | over any calls the files of a stream are kept until its retention window is over |
| LiveStreams.LeftBehind | services/api/internal/live/dvr.go:104-136 | the files of a stream that was deleted, or is already marked, stay for good |
| LiveStreams.MarkedRegardless | services/api/internal/live/dvr.go:127-135 | a sweep marks an expired stream even if its directory could not be removed |
| LiveStreams.LateStartRevives | services/api/internal/live/repository.go:171-196 | why calls must be atomic: UpdateStatus has no guard, so a late start revives an ended stream |
| LiveStreams.ConcurrentCreates | services/api/internal/live/service.go:56-84 | likewise two creations that both look first give an owner two active streams |
| LiveStreams.LiveService.GetActiveByOwner | services/api/internal/live/repository.go:291-312 | finds an idle or live stream of the owner iff there is one; where owners have at most one, that one |
| LiveStreams.LiveService.Create | services/api/internal/live/service.go:54-116 | one new idle stream with the requested or default window and its playlist URL, or a refusal |
| LiveStreams.LiveService.UpdateStatus | services/api/internal/live/repository.go:171-196 | sets the status, and the times that are given |
| LiveStreams.LiveService.DetectStart | services/api/internal/live/service.go:177-201 | idle becomes live, live stays, anything else is refused |
| LiveStreams.LiveService.DetectEnd | services/api/internal/live/service.go:204-228 | any stream not ended or ending becomes ended now |
| LiveStreams.LiveService.Delete | services/api/internal/live/repository.go:208-217 | removes the row of its owner |
| LiveStreams.LiveService.ListEndedWithDVR | services/api/internal/live/repository.go:252-279 | a stream is listed iff it has ended, with DVR, and is not marked as cleaned; so whatever the time, every stream that a sweep then has to act on is listed |
| LiveStreams.LiveService.MarkDVRCleaned | services/api/internal/live/repository.go:282-288 | stamps one row |
| LiveStreams.DVRCleaner.Sweep | services/api/internal/live/dvr.go:104-136 | the loop, in any order, marks exactly the expired streams and removes exactly their removable directories |
| ChatHistory.NewestIsOrdered | services/api/internal/live/chat_repository.go:63-87 | the query returns exactly the selected messages, newest first |
| ChatHistory.NewestBefore | services/api/internal/live/chat_repository.go:75-84 | asking for what was created before a result's k-th message gives what came after it |
| ChatHistory.Paging | services/api/internal/live/chat_repository.go:56-106 | a reader paging with any limits, with messages sent and deleted in between, always has a gap-free prefix of the messages there were at its first fetch, newest first and each once; it ends within one fetch more than there were messages, and then has all of them; bodies are redacted as of each fetch |
| HistoryPages.PageHolds | services/api/internal/live/chat_repository.go:56-106 | a page is the newest of the messages older than its cursor, newest first, as many as fit in 1 to 100 or in 50 by default; an unknown cursor gets nothing |
| HistoryPages.DeletedIff | services/api/internal/live/chat_repository.go:109-121 | over any run a message is deleted exactly if it was before or a deletion named it |
| HistoryPages.ShownUntilDeleted | services/api/internal/live/chat_repository.go:90-103 | so pages show its body exactly until it is deleted |
| ChatHistory.TieSkipsMessage | services/api/internal/live/chat_repository.go:75-84 | of two messages with one creation time, a page of one skips the other: the hypothesis of distinct times is needed |
| ChatHistory.ChatRepository.CreateMessage | services/api/internal/live/chat_repository.go:35-52 | appends one message |
| ChatHistory.ChatRepository.ListMessages | services/api/internal/live/chat_repository.go:56-106 | the redaction loop returns the page of the query |
| ChatHistory.ChatRepository.DeleteMessage | services/api/internal/live/chat_repository.go:109-121 | marks an undeleted message, and reports whether there was one |
| Uploads.ReceivedIsSum | services/api/internal/http/handlers/upload.go:181-260 | over any requests received_bytes is the sum of the accepted chunks, each at most byte_size |
| Uploads.OneVideoOneJob | services/api/internal/http/handlers/upload.go:267-353 | over any requests a session yields at most one video, one job row and one enqueued job, each needing the one before, only once complete; jobs start at attempt 0 with limit 3 |
| Uploads.FinalStates | services/api/internal/http/handlers/upload.go:286-404 | complete and cancelled are final: nothing about the session changes again |
| Uploads.ReceivedUnbounded | services/api/internal/http/handlers/upload.go:214-247 | the sum of chunks is not bounded by the declared size: any multiple can be received |
| Uploads.ExceedsDeclaredIff | services/api/internal/http/handlers/upload.go:214-247 | over any requests a session exceeds its declared size exactly when some accepted chunk was larger than what was left of it |
| Uploads.VideoAddedIff | services/api/internal/http/handlers/upload.go:286-345 | completing adds a video exactly when the caller owns the session, it is neither complete nor cancelled, and the insert succeeds; and enqueues its job exactly when everything succeeds |
| Uploads.StaysCompletable | services/api/internal/http/handlers/upload.go:286-297 | whatever is requested, a failed or expired session stays one its owner can complete into a queued video until it is completed or, if it failed, cancelled |
| Uploads.RejectedStillCompletes | services/api/internal/http/handlers/upload.go:221-297 | any admitted chunk can be found infected, an overdue session expires and loses its object, and both can still be completed into a queued video |
| Uploads.LateChunkReopens | services/api/internal/http/handlers/upload.go:244-247 | why requests must be atomic: a chunk counted after completion reopens the session and allows a second video |
| UploadFates.CreatedIff | services/api/internal/http/handlers/upload.go:93-152 | when a session is created, and that it is as it was asked for |
| UploadFates.ChunkCountsIff | services/api/internal/http/handlers/upload.go:181-258 | exactly when a chunk counts, is rejected, or changes nothing |
| UploadFates.CompletionAnswered | services/api/internal/http/handlers/upload.go:267-356 | a completion is answered with success exactly if there is a job row, queued or not; a server error has completed the session nevertheless |
| UploadFates.CompletionLost | services/api/internal/http/handlers/upload.go:299-322 | a completion whose video could not be inserted leaves the session complete without a video for good |
| UploadFates.QueuedJobIsForUpload | services/api/internal/http/handlers/upload.go:334-352 | whatever happens in between, the queued job is the first of three attempts on the object named at creation, for the user who created the session |
| UploadFates.NothingNewAfterEnd | services/api/internal/http/handlers/upload.go:294-297 | nothing is ever added for a completed or cancelled session |
| UploadFates.CancelledForGood | services/api/internal/http/handlers/upload.go:384-409 | a cancellation is granted to the owner of a pending, uploading or failed session; from then on, whatever is requested, it stays cancelled, gets no chunk, video, job row or queued job, and its object stays deleted |
| UploadFates.CancelledHasNoVideo | services/api/internal/http/handlers/upload.go:384-409 | no session that was cancelled ever has a video or a queued job |
| UploadFates.ExpiresIff | services/api/internal/http/handlers/expiration.go:49-57 | a sweep expires a session exactly if it is pending or uploading more than two hours after its creation; its object is then deleted and it takes no chunk |
| UploadFates.SweepDecides | services/api/internal/http/handlers/expiration.go:49-57 | until a sweep has run, being overdue makes no difference to a chunk; afterwards neither chunk nor cancellation is accepted |
| Uploads.UploadHandler.Create | services/api/internal/http/handlers/upload.go:93-172 | validation and the new pending session |
| Uploads.UploadHandler.Receive | services/api/internal/http/handlers/upload.go:181-260 | answer and whole new state of one chunk |
| Uploads.UploadHandler.Finish | services/api/internal/http/handlers/upload.go:267-353 | answer and whole new state of a completion, however far it gets, and the job that the queue receives |
| Uploads.UploadHandler.Cancel | services/api/internal/http/handlers/upload.go:359-414 | answer and whole new state of a cancellation; UploadFates.CancelledForGood says what it means |
| Uploads.UploadHandler.Expire | services/api/internal/http/handlers/expiration.go:47-83 | exactly the overdue sessions expire, and exactly their objects are deleted |

## Left out

- React pages, players, admin UI, HTTP routing, cookies, CORS, JSON and JWT encoding: nothing deep to prove.
- FFmpeg, object storage, mail and the malware scanner: each is an outcome that an operation takes as a parameter.
- Argon2, SHA-256, base64 and random generation: parameters, fresh values, or the hypotheses above.
- Reclaiming jobs of dead workers: nothing in the code does it, so there is no claim about crashed workers.
- A claim whose payload does not decode: its message would stay pending for good; excluded by hypothesis.
- Counters, int32 desired counts and byte counts are unbounded integers; utilization and seek ranges are reals.
- The SELECT text of Search, its ranking and its LIMIT: the text has nine format verbs for eight values.
- Trimming of the search text and of appeal reasons: the model takes them already trimmed.
- The SET lists that the live repository builds in Update and UpdateStatus: the model has their effect on the row.
- JobQueue.Queue.ClaimPending: does not model blocking and timeouts; an empty stream returns nothing.
- ChangePassword: its call of Compare does not fit Compare; password hashes and user status are not part of the token model.
- OAuth login and account linking, email verification, roles.
- Login's checks of password and account status: the model starts where Login issues a token.
- ConnectionLimit in the WebSocket middleware, handshake, ping and close frames of the chat connection.
- Chat bans, timeouts and locks, and Redis subscription errors that end a room's fan-out.
- LiveStreams.DVRCleaner.Sweep: reads the clock once a sweep where the code reads it for each stream, and a failed removal leaves the whole directory.
- LiveStreams.LiveService.GetActiveByOwner: does not order by creation time; in every reachable state there is at most one stream to return.
- TokenFamilies.AuthService.ChangeByReset: takes a password as its bytes and stores it as given; hashing it is left to the password-hash model.
- ReportTrails.ReasonsFit: takes a reason as its bytes, which is what the handler counts.
- Moderation.ModerationService.ExecuteAction: leaves out metadata, admin notes and the client's address and agent.
- SegmentPaths.SegmentDirOfKey: covers URLs of the form that Create prints, not everything that url.Parse and filepath.Join accept.
- Autocomplete, indexing, comments, engagement and profile pages: plain reads and writes.
- Authentication of requests: operations take the caller's identity as given, and a missing one is not modelled.
