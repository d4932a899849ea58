# ucx-rs: ownership protocols and codecs, verified

ucx-rs is a Rust layer over UCX, an asynchronous communication library written in C. Almost everything
it does is forwarded to C; what is its own is a protocol of ownership on top of an asynchronous engine
(who frees a request, when a borrowed buffer may be used again, which callback state is still needed)
and a few exact encodings. This project models those parts and proves what they guarantee over every run.

## How it is built

UCX is an abstract machine with explicit rules. Nonblocking calls complete, fail, or post a request; a
progress call completes some operations, in an order that a `Schedule` fixes and every theorem
quantifies over; a final status never changes; nothing is dispatched after destroy, and destroying a
worker waits for the callbacks in progress. A call on a request already disposed of, or on callback
state that is gone, raises a `misuse` mark, and the theorems say that it never happens. A call on what
belongs to a destroyed worker raises a `late` mark; that can happen, and the theorems say exactly when.

The Rust layer appears in three forms:

- Values that change in place are classes, with the loops of the source: requests, guards, workers,
  endpoints, the parameter builder, bit-field storage, packed key buffers, the listener. Their methods
  are proved equal to functions of the state before. The budget of a wait loop is a parameter whose
  default is the crate's 1,000,000.
- Protocols with many owners or threads are state machines over their steps: `Runs`, `Teardown`,
  `ListenerProtocol`, `MtWorkerProtocol`, `AmHandlers`. A step of `Runs` is a whole call, with the effect
  proved of the method (`StepEffects`); a step of the threaded ones is what one thread does between two points where
  another may act. `Runs` follows the requests of one worker. A program with several workers is one such
  run for each: a guard may have been given another worker to progress, and this one may be progressed
  on behalf of others.
- Encodings are pure functions, with inverses and exact error cases.

| file | subject |
|---|---|
| `Engine`, `Polling`, `Budget`, `MtWait` | the engine; the wait loops, and what each observes within its budget |
| `Requests`, `Guards`, `Runs`, `StepEffects`, `WorkerEnd` | requests and guards, every run of them, what each step does exactly, and what outlives the worker |
| `Endpoints`, `Teardown`, `EndpointEnds` | ending endpoints while workers come and go |
| `ListenerProtocol`, `ListenerCalls`, `ListenerWorkerEnd` | the reference-counted listener state, and what outlives the worker |
| `MtWorkerProtocol` | the worker shared by threads |
| `AmHandlers` | active-message closures against UCX's handler table |
| `Bits`, `BitfieldUnit` | bit-field storage in both byte orders |
| `StatusCodec`, `RkeyFraming`, `SockAddrs`, `RequestParams` | encodings and parameters |

## Where the code and its documentation differ

- `Request::test` and `stream_recv_test` are documented to report a pending operation as
  `Err(UCS_INPROGRESS)` (`src/request.rs:115-123`, `src/stream.rs:101-103`). Both go through
  `status_to_result`, which treats the non-negative code of "in progress" as success, so a pending receive
  reads as complete. `StatusCodec.TestsKeepPromiseUnlessPending` shows the input and that it is the only one.
- A handler panic is said to poison the handler's mutex (`src/am.rs:124-125`, `src/listener.rs:111-112`).
  The mutex guard lives outside `catch_unwind` and is dropped when the thread is no longer panicking, so
  the mutex is never poisoned and the handler runs again: `AmHandlers.HandlersRunOneAtATime`,
  `ListenerProtocol.HandlerIsNeverPoisoned`.
- `Ep::close` takes a worker and never looks at the flag of the endpoint's own worker
  (`src/ep/mod.rs:209-214`). Given another worker it reaches UCX for an endpoint whose worker is gone:
  `Teardown.OtherWorkerIsNotEnough`; `Teardown.NoLateCallExactly` says when a run is free of this.
- Requests are to be dropped before their worker (`THREADING.md:120`), but a `Request` neither borrows it nor
  consults its flag (`src/request.rs:40-47`): one that is still held when the worker goes reaches UCX late.
  `WorkerEnd.NoLateCallExactly` says when a run is free of this, `WorkerEnd.RequestOutlivesWorker` gives the
  shortest run that is not. The same holds of listeners and connection requests (`src/listener.rs:69-90`):
  `ListenerWorkerEnd.NoLateCallExactly`, `ListenerWorkerEnd.ListenerOutlivesWorker`.
- `tag_send` and `tag_recv` take any worker to progress (`src/tag.rs:16-38`, `src/tag.rs:205-231`), and so do
  `wait_request`, `Ep::close` and, in release builds, the stream operations. With another worker than the
  request's own a pending operation is never seen to finish: `Budget.OtherWorkerNeverHelps`.
- The bounds asserted by bit-field `get` and `set` (`src/bindings.rs:50-52`) admit fields that overrun the
  storage: `BitfieldUnit.AssertedBoundsAdmitOverrun`.

## Model

| member | source | states |
|---|---|---|
| Runs.EveryRunIsLinear | src/request.rs:40-180 | in every run of posts, checks, cancels, releases, frees, drops, waits, closes, escapes and the end of the worker, no call is made on a request already disposed of, each handle is disposed of at most once, no two values hold the same one, and posted = held + leaked + freed + released |
| Runs.EveryGuardedRunKeepsBuffersSafe | src/stream.rs:149-249 | without `into_inner` and `forget`, a guard that is gone has seen its operation end, or leaked the request (never a tagged one, which aborts the process); nothing frees a guarded request in flight |
| Runs.OnlyEscapedLoansAreAtRisk | src/stream.rs:166-176 | with escapes, that holds of every request that did not itself escape |
| Runs.LeakIsForever | src/rma/remote_key.rs:15-19 | a leaked request is never freed or released, however the run goes on |
| Runs.StepKeepsInv | src/tag.rs:113-177 | every call, of any owner in any state, keeps handles, owners, loans and the disposal records consistent |
| Runs.HeldIsLiveNotLeaked | src/request.rs:77-81 | the handles in program values are exactly those neither disposed of nor leaked |
| StepEffects.CancelsAreExact | src/request.rs:164-172 | at any point of any run: `cancel` and `cancel_request` ask UCX to cancel the handle held, which is live then, the first frees it and stays empty, the second changes no owner, and no other action asks |
| StepEffects.EveryCancelHadItsCall | src/worker/worker.rs:401-406 | every cancellation on record was asked for by one of the two at a time when the request was live |
| StepEffects.StepRecords | src/request.rs:155-172 | cancels and releases come from the calls of that name on a bare request with a handle, and from nothing else |
| StepEffects.GuardsEndExactly | src/stream.rs:204-249 | at any point of any run a guard's end aborts (tagged) or leaks (others) iff no check of its loop sees the operation finished, and otherwise frees exactly its request |
| StepEffects.PostingIsItsCall | src/status.rs:116-133 | a step that posts gives the program a guard or a request for what UCX answered, and nothing on refusal |
| StepEffects.BareStepIsItsCall | src/request.rs:88-180 | each step of a bare request leaves the engine as the contract of its method says |
| StepEffects.WorkerDropIsItsCall | src/worker/worker.rs:262-290 | the worker goes once, when nothing borrows it, as its `drop` says |
| StepEffects.EscapesMakeNoCall | src/stream.rs:166-176 | `into_inner` moves the handle into a bare request, forgetting loses it, and neither calls UCX |
| Runs.WorkerDroppedIsDrop | src/worker/worker.rs:262-289 | the step that ends the worker is `Worker::drop` call for call, and touches no value of the program |
| WorkerEnd.NoLateCallExactly | src/request.rs:40-47 | nothing reaches UCX after the worker is destroyed iff, from then on, nobody calls it through a request still held or an endpoint |
| WorkerEnd.RequestOutlivesWorker | src/worker/worker.rs:262-289 | a request in flight that is dropped after its worker reaches UCX late, with any flush, schedule and budget |
| WorkerEnd.BorrowingGuardsAreNeverLate | src/stream.rs:158-163 | while a guard borrows its request's own worker, that worker is not gone |
| WorkerEnd.EmptyFirstIsEnough | THREADING.md:120 | disposing of, emptying or forgetting every request before the worker goes, and posting nothing afterwards, keeps the run free of late calls |
| Budget.EveryLoopAtItsBudget | src/stream.rs:204-249 | for a request that finishes after k progress calls and a budget n: every loop sees it iff k < n after exactly k calls (tags: k <= n), and otherwise gives up after exactly n, with its own result: leak, leak, `Ok(false)`, timeout, abort |
| Budget.CrateBudget | src/tag.rs:150-170 | at the crate's budget the millionth progress call is one too late for stream and fetch-AMO guards and just in time for tagged ones |
| Budget.GivesUpExactlyWhenPending | src/rma/remote_key.rs:49-94 | a guard leaks or aborts, and a wait answers `Ok(false)`, exactly when the operation stays in progress throughout |
| Budget.WorkerDropExact | src/worker/worker.rs:266-288 | a posted flush that finishes after k progress calls is waited for with min(k, n) of them, a pending one with n; then its request alone is freed and the worker is gone; a flush answered at once costs nothing |
| Budget.EmptyIsFinished | src/stream.rs:204-222 | an empty guard or request makes no call and counts as finished |
| Budget.OtherWorkerNeverHelps | src/tag.rs:16-38 | progressing another worker than the request's own, a loop leaks, times out, answers `Ok(false)` or aborts exactly if the request is in flight at the start, and frees it otherwise |
| Budget.OtherGuardsShift | src/stream.rs:225-249 | dropping one guard brings the requests of all others on its worker closer by the progress calls it spent, and frees none of them |
| Budget.DropAllExact | src/tag.rs:173-177 | for any number of guards of all kinds dropped in any order on one worker, the finishing times alone decide which are freed or leaked, whether the process aborts, and the progress calls spent |
| Budget.EachFate | src/tag.rs:150-177 | the fate of each dropped guard is what its own loop makes of the time left when its turn comes; the first abort ends the sequence, and nothing else does |
| Polling.PollExact | src/worker/worker.rs:378-390 | the check-then-progress loop stops at the first check after the end of the operation, or after exactly its budget |
| Polling.PollTagExact | src/tag.rs:150-170 | the tagged countdown makes one check more than it makes progress calls |
| Guards.BufferGuard.Free | src/stream.rs:204-223 | leaves the request's engine as one bounded wait does, whichever worker it was given, although the guard's drop runs afterwards; the request keeps its handle iff it was leaked |
| Guards.BufferGuard.Drop | src/rma/remote_key.rs:70-94 | the same effect as `free`; a drop of an emptied guard does nothing |
| Guards.BufferGuard.Settle | src/stream.rs:207-220 | what `free` and `drop` do with the request taken out: freed once finished, well or badly, else left with its handle |
| Guards.BufferGuard.Await | src/stream.rs:229-243 | the loop checks and progresses until the request has finished or the budget is spent, and progresses another worker only while the request is pending |
| Guards.BufferGuard.IntoInner | src/stream.rs:174-176 | hands the request over untouched, and the drop that follows does nothing |
| Guards.BufferGuard.CheckFinished | src/rma/remote_key.rs:39-43 | reports the request's status, or completion for an empty guard |
| Guards.TagRequest.CheckFinished | src/tag.rs:121-128 | the temporary second `Request` for the same handle leaves the handle in place and frees nothing |
| Guards.TagRequest.Complete | src/tag.rs:150-171 | frees the request and empties the guard, or aborts with the handle still there |
| Guards.TagRequest.Free | src/tag.rs:130-132 | the drop after `free` adds nothing: one wait, one free |
| Guards.TagRequest.IntoInner | src/tag.rs:140-144 | the drop after it finds no handle, so neither waits nor frees |
| Guards.TagRequest.Drop | src/tag.rs:173-177 | the same wait and free, the result discarded |
| Requests.Request.CheckFinished | src/request.rs:88-98 | through the pointer encoding, still exactly: finished, pending, or the very error UCX reported; an emptied request is finished |
| Requests.Request.Cancel | src/request.rs:164-172 | asks UCX to cancel the handle it holds, then frees it, each once and in that order, and leaves an inert wrapper |
| Requests.Request.Release | src/request.rs:155-159 | one `ucp_request_release`, no free; the drop that follows finds nothing |
| Requests.Request.Free | src/request.rs:175-180 | one `ucp_request_free`, no release and no cancel; the drop that follows finds nothing |
| Requests.Request.Drop | src/request.rs:40-47 | frees a live handle and nothing else |
| Requests.Worker.WaitRequest | src/worker/worker.rs:378-390 | the bounded wait, for a request of any worker; the request stays with its owner whatever the answer |
| Requests.Worker.CancelRequest | src/worker/worker.rs:401-406 | asks UCX to cancel the handle: it is neither taken nor freed |
| Requests.Worker.Drop | src/worker/worker.rs:262-290 | flag down first, then a bounded flush whose request is freed in any case, then destroyed, together with every request still held |
| Requests.Worker.FlushOnDrop | src/worker/worker.rs:266-283 | runs with the flag down and the worker still there |
| Requests.Worker.AwaitFlush | src/worker/worker.rs:272-279 | the loop of the flush ends on any outcome, or with the budget |
| MtWait.SharedWaitExact | src/worker/worker.rs:239-251 | with other threads making any calls that leave the borrowed request alone, the wait observes a request that finishes after k progress calls of anybody iff k of them come before its last check, stops at the first check after them, and answers `Ok(false)` otherwise |
| MtWait.AloneIsWaitFor | src/worker/worker.rs:239-251 | with nobody else around it is `Worker::wait_request` |
| MtWait.DueAfterAll | src/worker/worker.rs:185-237 | whatever calls other threads make, a request comes closer to its end by the progress calls among them and ends no differently |
| MtWait.MtWorker.WaitRequest | src/worker/worker.rs:239-251 | the loop does exactly that for a request of any worker, each progress call taking the lock on its own |
| Teardown.EveryEndpointEndsOnce | src/ep/mod.rs:107-135 | every endpoint ends as closed, destroyed, disconnected or skipped, once, and no drop, destroy or disconnect reaches UCX once its worker's drop began |
| EndpointEnds.EndpointCallsExactly | src/ep/mod.rs:107-262 | in every run the calls on an endpoint and its final status follow from how it was ended, what UCX answered and whether its worker's drop had begun: a drop is one close, a destroy one destroy, a disconnect one disconnect, followed by a destroy iff refused |
| EndpointEnds.TwoCallsExactly | src/ep/mod.rs:121-135 | an endpoint sees two calls iff it was ended by a disconnect that UCX refused while the worker was up |
| EndpointEnds.DestroyedExactly | src/worker/worker.rs:284-289 | UCX has destroyed exactly the workers whose drop is complete |
| Teardown.NoLateCallExactly | src/ep/mod.rs:209-238 | with `Ep::close` among the calls, nothing reaches UCX late iff each close happens while the endpoint's own worker is up |
| Teardown.OwnWorkerIsEnough | src/ep/mod.rs:209-238 | passing the endpoint's own worker ensures it |
| Teardown.OtherWorkerIsNotEnough | src/ep/mod.rs:209-214 | a run in which a close through another worker reaches an endpoint of a destroyed one |
| Teardown.StepKeepsInv | src/worker/worker.rs:262-289 | every endpoint or worker action keeps calls, flags and their order consistent |
| Endpoints.Ep.Drop | src/ep/mod.rs:241-262 | closes only while the worker's flag is up; a pending close is left alone, not freed |
| Endpoints.Ep.Destroy | src/ep/mod.rs:107-114 | one `ucp_ep_destroy` and nothing else while the worker's flag is up, no call otherwise |
| Endpoints.Ep.DisconnectNb | src/ep/mod.rs:121-135 | a refused disconnect is followed by a destroy, an accepted one is not |
| Endpoints.Ep.Close | src/ep/mod.rs:209-238 | with any worker passed along, the request is freed on success and leaked on error and on timeout |
| Endpoints.Ep.AwaitClose | src/ep/mod.rs:216-235 | the loop frees the close request on success only |
| ListenerProtocol.EveryInterleaving | src/listener.rs:52-120 | the strong count is the number of references held by listener, requests and trampolines; a published listener is destroyed exactly once, when the last goes, and an unpublished one never; nothing dead is touched |
| ListenerProtocol.StateOutlivesCallbacks | src/listener.rs:92-120 | while UCX may dispatch, a trampoline runs, the handler is locked or a request exists, callback and mutex exist and nothing was destroyed |
| ListenerProtocol.RejectOwnedIsSafe | src/listener.rs:464-473 | invalid-param exactly while the handle is unpublished; otherwise UCX gets the published handle of a listener still alive, also after the `Listener` is gone |
| ListenerProtocol.RejectionsAreExact | src/listener.rs:379-383 | `reject` reaches UCX once, `reject_owned` once iff the handle is published, nothing else does, and each consumes its request |
| ListenerProtocol.CallbackRacesCreation | src/listener.rs:459-471 | a run in which a callback delivers before publication, and its request is refused with invalid-param |
| ListenerProtocol.RequestOutlivesListener | src/listener.rs:318-321 | a kept request is rejected through UCX after the `Listener` is gone, and only then is the listener destroyed |
| ListenerProtocol.HandlerIsNeverPoisoned | src/listener.rs:108-119 | a panicking handler is called again for the next request |
| ListenerProtocol.PanicsLeaveNoTrace | src/listener.rs:108-119 | in any state of any run a delivery whose handler panics goes through and leaves everything exactly as it was, so the handler can run again |
| ListenerWorkerEnd.NoLateCallExactly | src/listener.rs:69-90 | nothing reaches UCX for the listener after its worker is destroyed iff no request is rejected and no last reference to a published listener is given up from then on |
| ListenerWorkerEnd.ListenerOutlivesWorker | src/listener.rs:69-90 | a listener dropped after its worker reaches UCX late |
| ListenerWorkerEnd.DropFirstIsEnough | THREADING.md:120 | giving up the listener and all its requests before the worker goes is enough |
| ListenerProtocol.StepKeepsInv | src/listener.rs:69-90 | every step that can happen keeps count, handle, mutex and UCX's listener consistent |
| ListenerCalls.Listener.CreateWithConnHandler | src/listener.rs:322-356 | on success the handle is published and one reference exists; on failure state and callback are gone and no listener is destroyed |
| ListenerCalls.Listener.ConnTrampoline | src/listener.rs:92-120 | one delivered request, moved out or not, with or without a panic: the count grows by the moved-out request alone, and the handler is unlocked and unpoisoned |
| ListenerCalls.Listener.RejectOwned | src/listener.rs:464-473 | consumes the request and its reference, and reaches UCX only through a published handle |
| ListenerCalls.Listener.Drop | src/listener.rs:69-90 | destroys at once iff no request and no callback is left |
| MtWorkerProtocol.OneThreadInside | src/worker/worker.rs:185-237 | in every interleaving, panics and the last drop included, at most one thread is inside a worker operation, the flag is up iff one is inside `progress`, the compare-exchange does not fail, and nobody is inside a dropped worker |
| MtWorkerProtocol.OnlyReentryMeetsTheFlag | src/worker/worker.rs:24-48 | only a second entry from inside `progress` meets a raised flag |
| MtWorkerProtocol.OnlyPanicsPoison | src/worker/worker.rs:203-208 | without a panicking closure the mutex is never poisoned |
| MtWorkerProtocol.PanicPoisonsAndLockingGoesOn | src/worker/worker.rs:185-190 | a panicking closure poisons it, and the next thread locks it all the same with the flag down |
| MtWorkerProtocol.ProgressGoesThrough | src/worker/worker.rs:210-212 | with the worker free, `progress` takes mutex and flag, is inside, and leaves everything as it was, poison included |
| MtWorkerProtocol.OperationsGoThrough | src/worker/worker.rs:203-237 | so do the other calls and `with_worker` |
| MtWorkerProtocol.ProgressReturnsToCaller | src/worker/worker.rs:344-349 | progress made inside a closure or in the worker's drop comes back to it with nothing changed |
| MtWorkerProtocol.AccessMeaning | src/worker/worker.rs:141-147 | a clone gives access, and giving up the last one, and no other, drops the worker |
| AmHandlers.HandlersOutliveDispatch | src/am.rs:148-217 | whatever UCX's table or a running callback points to is retained or being registered, and no handler is used after it was dropped |
| AmHandlers.TableIsLastRegistered | src/am.rs:148-217 | after any run UCX's table has for each id what was registered last: the closure of that very call, a raw callback, or nothing |
| AmHandlers.DispatchReachesHandler | src/am.rs:95-128 | a message runs the handler registered for its id, under that handler's mutex |
| AmHandlers.HandlersDropAfterDestroy | src/worker/worker.rs:284-289 | a handler disappears only when UCX refused it or after the worker was destroyed with no callback left |
| AmHandlers.HandlersRunOneAtATime | src/am.rs:122-136 | a handler never runs on two threads, and a panic does not keep it from running again |
| AmHandlers.PanicsLeaveNoTrace | src/am.rs:122-136 | in any state of any run a message whose handler panics goes through and leaves everything exactly as it was, so the handler runs for the next message |
| AmHandlers.AmWorker.AmRegisterHandler | src/am.rs:148-184 | the new handler joins all earlier ones iff UCX accepted it |
| AmHandlers.AmWorker.AmUnregister | src/am.rs:207-217 | the id is cleared, every handler stays retained |
| BitfieldUnit.Unit.Get | src/bindings.rs:49-65 | reads the number at that place of the storage, (number / 2^start) mod 2^width, with start = offset in little-endian and 8n - offset - width in big-endian storage |
| BitfieldUnit.Unit.Set | src/bindings.rs:67-81 | deposits the low bits of the value at that place of the number and nothing elsewhere |
| BitfieldUnit.Unit.GetBit | src/bindings.rs:19-30 | storage bits are the bits of one number, counted from either end |
| BitfieldUnit.Unit.SetBit | src/bindings.rs:32-47 | changes that bit and no other |
| BitfieldUnit.FieldInByte | src/bindings.rs:19-66 | a field inside one byte is those bits of the byte, counted from the other end in big-endian storage |
| BitfieldUnit.FieldOfTwoBytes | src/bindings.rs:49-65 | of two bytes the first is the low one in little-endian storage and the high one in big-endian storage |
| BitfieldUnit.WrittenField | src/bindings.rs:67-81 | after a set, get gives the value modulo 2^width, and every disjoint field reads as before |
| BitfieldUnit.WritesCommute | src/bindings.rs:67-81 | sets of disjoint fields commute, byte for byte |
| BitfieldUnit.WrittenUnique | src/bindings.rs:67-81 | the bytes after a set are determined by its arguments |
| BitfieldUnit.StorageBitIsNumberBit | src/bindings.rs:19-30 | both byte-order conventions number the bits of one integer |
| BitfieldUnit.IntOfInjective | src/bindings.rs:5-13 | the integer determines the bytes |
| BitfieldUnit.AssertedBoundsAdmitOverrun | src/bindings.rs:50-52 | under the asserted bounds every touched byte exists iff offset + width <= 8 * len, with an input that misses it |
| BitfieldUnit.Flags2RoundTrip | src/bindings.rs:2587-2596 | over any bytes, setting and reading `_flags2` gives the argument modulo 2^24, itself iff it is a 24-bit number |
| BitfieldUnit.IoFile.Flags2 | src/bindings.rs:2587-2589 | the 24-bit field as a non-negative `int` |
| BitfieldUnit.IoFile.SetFlags2 | src/bindings.rs:2591-2596 | writes the low 24 bits of the two's-complement argument |
| BitfieldUnit.IoFile.constructor | src/bindings.rs:2598-2605 | three zero bytes with the flags written into them |
| StatusCodec.DecodePartition | src/status.rs:116-133 | all 2^64 words: errors are the top 100, 0 is immediate, 1 trips the debug assertion or is immediate, every other word is a request at that address |
| StatusCodec.ErrorRoundTrip | src/status.rs:155-194 | every error code survives sign extension and decoding |
| StatusCodec.ResourceCodesOfTheBindings | src/status.rs:200-207 | the numbers -1 to -8 that the source asserts at compile time |
| StatusCodec.OperationCodesOfTheBindings | src/status.rs:208-215 | the numbers -9 to -16 |
| StatusCodec.ConnectionCodesOfTheBindings | src/status.rs:216-223 | the numbers -17 to -24 |
| StatusCodec.EndpointCodesOfTheBindings | src/status.rs:224-230 | the numbers -25 to -100 |
| StatusCodec.ErrorWindow | src/status.rs:155-194 | any word of the window decodes to the error it encodes, or to ERR_LAST when it encodes none |
| StatusCodec.ErrorWindowReencodes | src/status.rs:155-194 | encoding the decoded error gives the word back iff some status has that code |
| StatusCodec.CheckFinishedMeaning | src/request.rs:88-98 | errs exactly when `status_to_result` does, with the same status |
| StatusCodec.TestsKeepPromiseUnlessPending | src/stream.rs:98-113 | the two test methods keep their documented promise exactly for terminal statuses |
| RkeyFraming.UnframeInvertsFrame | src/rma/remote_key.rs:114-132 | unframing gives p iff framing p gives the buffer; framing fails iff the length does not fit 32 bits; unframing succeeds on frames only |
| RkeyFraming.WireFormat | src/rma/remote_key.rs:114-132 | four bytes of length, least significant first, then the payload; out-of-range for a long payload, invalid-param for any bad buffer |
| RkeyFraming.FramesArePrefixFree | src/rma/remote_key.rs:114-121 | no frame is a prefix of another payload's frame |
| RkeyFraming.FrameRkeyPayload | src/rma/remote_key.rs:114-121 | the vector filled step by step is the frame |
| RkeyFraming.PackedRkeyBuffer.FromRawParts | src/memh.rs:440-451 | holds the same bytes as `frame_rkey_payload`, and fails exactly when that does |
| RkeyFraming.PackedRkeyBuffer.Drop | src/memh.rs:475-482 | gives the buffer back once; dropping again does nothing |
| RkeyFraming.PackRkey | src/memh.rs:410-426 | a payload too long is given back at once, any other is owned by the result |
| RkeyFraming.RemoteKeyPack | src/rma/remote_key.rs:139-149 | the packed buffer is given back on every path |
| RkeyFraming.EveryBufferReleasedOnce | src/memh.rs:410-482 | from an empty heap, after any packs and drops, each buffer handed out is held by one wrapper or was given back, exactly once, and nothing else was; `PackRkey`, `RemoteKeyPack` and `PackedRkeyBuffer.Drop` keep the same books on the heap |
| SockAddrs.AddressRoundTrip | src/listener.rs:510-532 | on either host byte order, reading back what `SockAddr::new` lays out gives the address and port with zero flow information and scope: the identity iff those were zero |
| SockAddrs.NetworkLayout | src/ep/attr.rs:84-114 | in memory, on either host: the family in native order, port and flow information in network order, the octets in order, zeros after an IPv4 address |
| SockAddrs.StorageReads | src/listener.rs:510-532 | reading any storage: the port from network order, the octets in order, flow information and scope dropped |
| SockAddrs.OctetsSurvive | src/ep/attr.rs:90-92 | native-order construction and network-order reading agree on every IPv4 address |
| SockAddrs.OtherFamiliesAreRefused | src/listener.rs:514-530 | nothing is read iff the family is neither of the two |
| RequestParams.EveryConfiguration | src/request.rs:269-361 | a sequence of setters panics iff it asks for both immediate-completion flags; otherwise what is built has a mask bit iff its setter was called, every field at its last value or zero, and never both flags |
| RequestParams.RequestParamBuilder.ForceImmCmpl | src/request.rs:282-288 | panics iff the opposite flag is set, and otherwise changes its own bit only |
| RequestParams.RequestParamBuilder.NoImmCmpl | src/request.rs:291-297 | panics iff the opposite flag is set, and otherwise changes its own bit only |
| RequestParams.RequestParamBuilder.BuildParams | src/request.rs:353-360 | the built parameters are the builder's fields with the mask, and the builder keeps its own |

## Left out

- What UCX does behind its interface (transports, RMA and atomic data movement, tag matching): foreign code; the model has the step rules above.
- Address reuse by UCX: a handle of the model names one allocation, not an address that a later request may get again.
- `Runs`: a guard that borrows this worker for a request of another one also keeps it from being dropped; the model allows the drop, so its theorems cover more runs than can happen. The debug assertion of `stream_send` and `stream_recv` on the worker they are given is not modelled.
- ListenerCalls.Listener.CreateWithConnHandler: runs without interruption; callbacks racing the creation are in `ListenerProtocol`, whose steps it takes.
- ListenerCalls.Listener.ConnTrampoline: one delivery without interruption and with the handler free; interleaved deliveries are in `ListenerProtocol`.
- BitfieldUnit.Unit.Get: requires offset + width <= 8 * len, and so does `Set`; an access beyond that panics in the source, and `AssertedBoundsAdmitOverrun` says when it happens. A field of width 0 at the very end of the storage is allowed here; the debug assertion on its first byte refuses it.
- MtWait.SharedWaitExact: the worker stays alive during the wait, as the waiting thread holds a clone of it; a request of another worker, when that worker is dropped meanwhile, is not part of it.
- The concurrent protocols (listener, `MtWorker`, active messages) interleave at the steps of the source, under sequential consistency; the weaker memory orderings of the atomics are not modelled.
- A last reference dropped and `ucp_listener_destroy` are one step with respect to dispatch: otherwise the count could be raised from zero, which the code does not guard against.
- `ListenerProtocol`: the cell's own mutex is taken for one read or write and never poisoned, so the poisoned arms of `reject_owned`, `as_raw` and `ListenerState::drop` do not occur; `ConnRequest::from_raw` and `Listener::reject` of another listener's request are left out.
- `AmHandlers`: closures retained after a re-registration are never shown to be collected earlier, because the source keeps them until the worker goes; the life of a caller's raw `am_register` argument is the caller's.
- A context outliving its workers, `RemoteKey::drop` after the worker is gone, and an `MtWorker` dropped on another thread during endpoint teardown: the code does not guard these.
- `MtWorker::new` refusing an unsuitable thread mode, `RemoteKey::compare`, `rkey_ptr`, `RemoteKey::unpack` after unframing, and the release of `StreamData`: a few comparisons or one call each.
- The stream length a guard reports for an immediate receive, and returning no guard at all for an immediate send: a send that completed at once is an empty guard here.
- Repeated `build` on builders that hand over a name, small enum maps and datatype helpers: a few cases each. The deprecated atomic wrappers and the endpoint operations: argument forwarding only.
- `build.rs`, configuration, version queries, printing and the rest of the generated bindings: environment, or no behaviour.
- `SockAddrs`: the socket structures are those of Linux, without a length byte.
- `std::process::abort` is an outcome after which nothing happens; messages on standard error are left out.
