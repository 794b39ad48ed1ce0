# completeio, modelled and proved in Dafny

`completeio` is a thread-per-core, completion-based IO library.  This project models its state
machines and its byte-moving loops and proves what they keep over whole runs, whatever the kernel
answers.  `dafny verify dfyconfig.toml` checks everything.

Objects of the library whose methods change fields are Dafny classes with those fields; each method
is proved to take the steps of a step system (`State`, `Step`, `Enabled`, `Next`, `Run`), the runtime,
the kqueue driver and the timer wheel keeping a trace of them, and the theorems are about every run of
that system.  The kernel is nondeterministic.  Where the code does
not do what its shape or its documentation suggests, the model follows the code: a lemma exhibits an
input that shows the difference, and another says exactly when there is none.

| files | models | main results |
|---|---|---|
| `TaskRuns`, `TaskTheorems`, `TaskRuntime` | `src/task`: slab of operations, wakers, run queue, overflow queues, cancellation | no lost wake-up; every future gets its own operation and its own result; cancels name the dropped future's own slot; exact account of slots |
| `Kqueue`, `KqueueRuns`, `KqueueTheorems`, `KqueueDriver` | `src/driver/kqueue/mod.rs` | conservation of operations over every run; the exact condition for delivering each once, on the run and, before the kernel answers, on the state; filters aim at current indices; bounded waiting |
| `FixedFiles` | `src/driver/iour/mod.rs`: file registration and completion entries | one update at a time, a buffer frozen while the kernel reads it; refinement of "last registration wins" over every run, failing updates included, with the exact exceptions |
| `Timers`, `Intervals` | `src/driver/time.rs`, `src/time.rs` | firing order over whole runs, exactly the due timers; ticks on a grid without drift |
| `Buffers`, `Vectored`, `Transfers` | `src/buf`, `src/fs/file.rs`, `src/net/socket.rs` | nested slices as one range; when scatter accounting is right; exact contents under any short transfers |

Where the code departs from what one would expect of it:

- kqueue `check_readiness` stores the index of the last operation visited, which the rotation takes as
  an exclusive end.  A scan that reaches the end of the queue leaves the last operation in place even
  if it completed, and it may be delivered again (`LoneOperationIsDeliveredTwice`).
- A kqueue scan that stops because the change list is full leaves older filters with the indices they
  had, so that two filters can name one operation, which a single check then delivers twice
  (`NarrowScanDeliversTwice`).
- These and stale filters are all there is: in every run, each key is in as many places (the queues, the
  timers, delivered, cancelled) as it was accepted if and only if every check completes different
  operations, all before the end of its rotation (`DeliveredOnceIff`).  A check can go wrong if and only
  if two registered filters carry one index, or one of them an index the rotation does not reach
  (`NoAnswerLeaksIff`).  In runs whose filters fit the change list and whose cancels leave no filter
  behind, only a full scan that completes the last operation goes wrong (`TidyRunIsCleanIff`); with the
  number of operations visited as the end of the rotation such runs conserve every key
  (`VisitedEndDeliversOnce`), but with a full change list that end does not help.
- Filters left over in the kernel can name no operation, and the `expect` of kqueue `submit` then fails.
  A cancel leaves one (`CancelLeavesAStaleFilter`, exactly when by `CancelIsFreshIff`), and so does a full
  change list without any cancel, in a run in which every operation is delivered once
  (`FullListLeavesAStaleFilter`).  A check can be told an index out of range if and only if a filter that
  its scan does not register anew was left over with one (`NoAnswerPanicsIff`).
- kqueue takes every cancel.  What it reports under the key afterwards is exactly what timers of the key
  report as they expire, since `try_cancel` leaves those armed (`CancelReportsTimersOnly`,
  `CancelledTimerIsReported`): a cancelled operation in the queues is never reported.  While a driver
  reports nothing about the futures whose cancel it took, only futures that resolve give their slots back
  and every dropped one keeps its own (`TaskTheorems.SilentCancelsLeak`).  Dropped sleeps are one exception
  with kqueue; the next item is the other.
- A cancel may be taken before its operation is given to the driver: `cancel_op` may run while the
  operation is in overflow, and `poll` offers cancels before operations.  The cancel then finds nothing,
  and the operation is carried out and reported (`OverflownCancelMisses`; a taken cancel finds its
  operation exactly when, `CancelsReachTheirOperationIff`).
- kqueue `submit` without a timeout and without timers asks the kernel not to wait at all, where the
  documentation of `submit` says it blocks; in all other cases the wait is the least of the timeout and
  the times to the deadlines (`KqueueDriver.Driver.CheckReadiness`).
- A synchronous file registration is overwritten by an older batched one of the same id that has not
  been executed yet (`OlderBatchWins`); an asynchronous update that fails is dropped
  (`FailedUpdateIsSilent`).  `RegistrationRefinesMap` says exactly which ids end up wrong in any run; while
  updates succeed they are those overtaken (`WrongMeansOvertaken`), and an update that stops before an
  overtaken id repairs it.
- io_uring cancels complete under the key of the operation.  An operation's own `ENOENT` or `EALREADY`
  is dropped, and a cancel that succeeds is reported besides the operation (`ReportedOnceIff`); a second
  report in a later poll can resolve a different future (`SecondReportMisroutes`, exactly when by
  `ReportIsHarmlessIff`).
- A future dropped while the driver refuses cancels, or after its result arrived, never gives its slot
  back (`LeaksAreForever`, `SlotsAreAccountedFor`).
- `slice` accepts inverted ranges which then panic on first use (`InvertedRangeIsAccepted`, exactly then by `SliceUsableIff`).
- Vectored `set_init` splits the count by capacity, the kernel fills by spare room
  (`PartlyFilledBufferIsOvercounted`, exactly when by `ReceiveIsRightIff`).
- `read_to_end_at` with no spare room returns `Ok(0)` whatever the file holds, and `recv_exact` never
  reports the end of a stream: it goes on calling (`Transfers.File.ReadToEndAt`,
  `Transfers.ByteStream.RecvExact`).
- `tick` casts a remainder to 64 bits (`WidePeriodMissesTheGrid`, exactly when by
  `NextTickIsFirstGridPoint`).

## Model

| member | source | states |
|---|---|---|
| `TaskTheorems.FuturesResolveToTheirOwn` | src/task/runtime.rs:77-118 | over every run from an empty runtime, a future that resolves yields the operation of its own submission and the only result ever reported for that submission, under any reuse of slab keys, cancellation and overflow |
| `TaskTheorems.NoWakeUpIsLost` | src/task/runtime.rs:50-67 | in every reachable state a future that may still be awaited owns its slot and is in the run queue, or its waker is in the slot without a result; when the queue is empty its submission has not been reported, and its operation is with the driver or in line for it |
| `TaskTheorems.BlocksOnlyOnHeldOperations` | src/task/runtime.rs:142-154 | when `poll` blocks, the driver holds the operation of every future that may still be awaited |
| `TaskTheorems.CancelsNameTheirOwn` | src/task/runtime.rs:95-140 | every cancel taken by the driver, immediate or deferred, named at that moment the slot of the dropped future itself; every cancel still deferred does |
| `TaskTheorems.CancelsReachTheirOperationIff` | src/task/runtime.rs:95-143 | a cancel the driver took found its operation held if and only if the operation was neither in overflow nor reported at that moment |
| `TaskTheorems.EveryDropIsCancelledOnce` | src/task/runtime.rs:95-140 | over every run, a cancel is taken by the driver or still deferred exactly once for each future dropped unresolved, and never for any other |
| `TaskTheorems.OverflowStaysInOrder` | src/task/runtime.rs:77-143 | in every run the overflow queue is in submission order, so the driver is given the oldest first |
| `TaskTheorems.OverflownCancelMisses` | src/task/runtime.rs:132-143 | a run in which a cancel is taken while its operation is in overflow, and the operation is pushed, reported and its slot given back |
| `TaskTheorems.SlotsAreAccountedFor` | src/task/op.rs:43-97 | a submission owns a slot if and only if it is unresolved and not (dropped with the cancel taken at once, before its report, and reported since); every slot in use has exactly that owner |
| `TaskTheorems.LeaksAreForever` | src/task/runtime.rs:95-101 | a slot whose future was dropped with the cancel refused, or with the result already there, stays in use in every continuation |
| `TaskTheorems.SilentCancelsLeak` | src/task/op.rs:62-72 | with a driver that never reports what it took a cancel for, a submission owns a slot exactly until it resolves: every dropped one keeps its slot |
| `TaskTheorems.DriverKeysAreUnique` | src/driver/mod.rs:182-185 | the unique user data `submit` demands: a vacant key is not held by the driver, and neither are the keys waiting in the overflow queue, which are all different |
| `TaskTheorems.TasksAreSubmissions` | src/task/runtime.rs:77-88 | the n-th task holds the n-th operation submitted, in every continuation |
| `TaskTheorems.RunRecords` | src/task/op.rs:62-72 | over a run each submission is reported at most once, under its own key, and what is recorded for it is that report |
| `TaskTheorems.ReportIsHarmlessIff` | src/task/op.rs:62-72 | a report, honest or not, leaves the slots of all other submissions alone if and only if its key is vacant or still its own, or it repeats what an unflagged slot holds |
| `TaskTheorems.HonestReportsAreHarmless` | src/task/op.rs:62-72 | a report about an operation the driver holds under that key touches no other submission |
| `TaskTheorems.SecondReportMisroutes` | src/driver/iour/mod.rs:297-303 | a run after which a second report about a cancelled operation resolves the future that reuses its key, while the driver still holds that one |
| `TaskTheorems.SubmitKeepsInv` | src/task/runtime.rs:77-88 | submitting keeps the invariant of tasks, slots, queues, driver and cancels |
| `TaskTheorems.CloseKeepsInv` | src/task/runtime.rs:43-48 | dropping a handle keeps it |
| `TaskTheorems.PollKeepsInv` | src/task/runtime.rs:103-118 | polling an operation's future keeps it, resolved or not |
| `TaskTheorems.CancelKeepsInv` | src/task/runtime.rs:95-101 | dropping an operation's future keeps it, whatever the driver answers |
| `TaskTheorems.HandOverKeepsInv` | src/task/runtime.rs:133-140 | handing a deferred cancel to the driver keeps it |
| `TaskTheorems.PushKeepsInv` | src/task/runtime.rs:142-143 | handing an overflown operation to the driver keeps it, and its key was not in use there |
| `TaskTheorems.DeliverKeepsInv` | src/task/op.rs:62-72 | a report about an operation the driver holds keeps it |
| `TaskTheorems.StepKeepsInv` | src/task/runtime.rs:50-161 | every step keeps it |
| `TaskTheorems.RunKeepsInv` | src/task/runtime.rs:50-161 | every run keeps it |
| `TaskRuntime.OpRuntime.Insert` | src/task/op.rs:44-50 | the key was vacant, and only its slot changes |
| `TaskRuntime.OpRuntime.UpdateWaker` | src/task/op.rs:56-60 | the slot, if there is one, holds the waker |
| `TaskRuntime.OpRuntime.UpdateResult` | src/task/op.rs:62-72 | the waker is taken out for waking; the slot gets the result, or is removed when flagged |
| `TaskRuntime.OpRuntime.Cancel` | src/task/op.rs:81-85 | the slot, if there is one, is flagged |
| `TaskRuntime.OpRuntime.Remove` | src/task/op.rs:87-97 | the slot is handed out and its key is vacant |
| `TaskRuntime.Runtime.constructor` | src/task/runtime.rs:27-35 | nothing submitted, queued, held or asked of the driver |
| `TaskRuntime.Runtime.Submit` | src/task/runtime.rs:77-88 | takes the submission step, with a key the driver does not hold; the driver is asked once, for that operation, and the task is queued last |
| `TaskRuntime.Runtime.DropHandle` | src/task/runtime.rs:43-48 | takes the step that closes a task; a task closed thereby is in the run queue, which keeps its order |
| `TaskRuntime.Runtime.PollTask` | src/task/runtime.rs:103-118 | ready with the slot's result and operation exactly when there is a result, the slot then vacant; else the waker is left |
| `TaskRuntime.Runtime.CancelOp` | src/task/runtime.rs:95-101 | the driver is asked once, for that key; taken: the slot is flagged; refused: the key is queued last and the slot is not flagged |
| `TaskRuntime.Runtime.RunOperation` | src/task/op.rs:132-162 | takes the step of an operation's task: its future is polled, or dropped when the handle is gone, the driver then being asked for the cancel and not otherwise; a future that resolves queues the task waiting on it, if there is one, and nothing else is queued |
| `TaskRuntime.Runtime.RunFirst` | src/task/runtime.rs:54-61 | the first of the queue runs and the rest moves up: an operation's task adds exactly one running step to the trace and queues the task waiting on it if it resolves, a program's task runs once and polls nothing |
| `TaskRuntime.Runtime.OfferCancels` | src/task/runtime.rs:133-140 | the driver is asked for the deferred cancels from the front, in order, up to and including the first it refuses, which stays first |
| `TaskRuntime.Runtime.Offer` | src/task/runtime.rs:132-143 | the driver is asked for the cancels and then, once, for all overflown operations; driver and queues are as after so many cancels and pushes of the step system |
| `TaskRuntime.Runtime.Extend` | src/task/op.rs:104-113 | slab and run queue as after delivering all entries, in order |
| `TaskRuntime.Runtime.Poll` | src/task/runtime.rs:132-161 | takes one poll step, entered with nothing undelivered; asks the driver for the cancels, the pushes and one submission, in this order, the last with no timeout exactly when nothing is left to push |
| `TaskRuntime.Runtime.Turn` | src/task/runtime.rs:53-65 | does exactly one thing: the first of a non-empty queue runs, or the driver is polled once; the future is finished only by running |
| `TaskRuntime.Runtime.BlockOn` | src/task/runtime.rs:50-67 | of so many turns each runs one task or polls once, so that runs and polls add up to the turns; the future runs once all queued before it have; a result is returned only once the future finished, with nothing to run and nothing undelivered |
| `TaskRuntime.QuietMeansDelivered` | src/task/runtime.rs:53-65 | once the run queue is empty, no awaited future has a result left in its slot |
| `Kqueue.DrainBalances` | src/driver/kqueue/mod.rs:142-173 | every drained operation goes to exactly one of pending queue, timers, reported entries |
| `Kqueue.BlockedInOrder` | src/driver/kqueue/mod.rs:142-173 | the operations that would block are exactly those that answered so, in order |
| `Kqueue.StartedInOrder` | src/driver/kqueue/mod.rs:154-165 | exactly the operations that answer with the timer marker 2^64 - 3 get a timer, under their key, due their delay after the reading |
| `Kqueue.DoneInOrder` | src/driver/kqueue/mod.rs:142-173 | exactly the other operations are reported, in order, each under its key with its own answer |
| `Kqueue.ChangesAreFirsts` | src/driver/kqueue/mod.rs:233-267 | the change list holds one change per distinct filter of the scanned prefix, at its first operation, in queue order |
| `Kqueue.ScanIsExact` | src/driver/kqueue/mod.rs:226-267 | the change list never outgrows its capacity; the scan goes on exactly while there is room in it |
| `Kqueue.WellAimedIff` | src/driver/kqueue/mod.rs:226-281 | after registering a scan every filter points at a visited operation with that filter if and only if no older filter lies outside the visited prefix |
| `Kqueue.TimerEntriesCount` | src/driver/time.rs:69-81 | each expired timer is reported once, under its key |
| `Kqueue.TimerEntriesInOrder` | src/driver/time.rs:69-81 | expired timers are reported in the order they fired, each under its key as `Ok(0)` |
| `KqueueRuns.FinishedCount` | src/driver/kqueue/mod.rs:183-207 | the entries reported are those of the completed operations, one each |
| `KqueueRuns.FinishedInOrder` | src/driver/kqueue/mod.rs:183-207 | the events reported are exactly those with an error or an answer, in order, each under the key of the operation at its index, with the event's error if it has one and else with that operation's answer |
| `KqueueRuns.KeptInOrder` | src/driver/kqueue/mod.rs:207-217 | what is requeued of the scanned prefix are the operations not completed, in order |
| `KqueueRuns.RequeueBalances` | src/driver/kqueue/mod.rs:207-217 | completed plus requeued is what was pending, plus the completions that did not leave the queue |
| `KqueueRuns.StepBalances` | src/driver/kqueue/mod.rs:142-386 | each step keeps, for every key: queued + pending + timers + delivered + cancelled = accepted + leaked |
| `KqueueRuns.RunBalances` | src/driver/kqueue/mod.rs:142-386 | so does every run |
| `KqueueRuns.RunStaysWithinAllocation` | src/driver/kqueue/mod.rs:327-361 | the submission queue never exceeds its allocation in any run |
| `KqueueRuns.OperatedInOrder` | src/driver/kqueue/mod.rs:142-361 | over every run, operations are operated in the order they were accepted: drained and queued together are what was accepted, in order, without those cancelled, and all of it when none was |
| `KqueueTheorems.LeaksNothingIff` | src/driver/kqueue/mod.rs:207-217 | a rotation takes every completed operation off the queue if and only if the completed indices are distinct and before its end |
| `KqueueTheorems.EventsAimAtTheirOperations` | src/driver/kqueue/mod.rs:183-207 | in runs whose filters fit the change list and whose cancels leave no filter behind, every ready event is in range, indices are distinct, and the operation has the event's descriptor and direction |
| `KqueueTheorems.CancelIsFreshIff` | src/driver/kqueue/mod.rs:307-324 | a cancel leaves no filter without a pending operation if and only if its filter is unregistered or shared |
| `KqueueTheorems.StepKeepsFresh` | src/driver/kqueue/mod.rs:142-386 | every tidy step keeps registered filters among the pending operations' |
| `KqueueTheorems.StepLeaksIff` | src/driver/kqueue/mod.rs:207-217 | a step delivers an operation without dequeuing it if and only if it is a check that completed an operation twice or one its rotation does not reach |
| `KqueueTheorems.NoAnswerLeaksIff` | src/driver/kqueue/mod.rs:207-281 | for any end of the rotation: no answer of the kernel and the operations makes a check leak if and only if the registered filters in range carry different indices, all before that end |
| `KqueueTheorems.RunLeaksIff` | src/driver/kqueue/mod.rs:142-386 | a run leaks if and only if some check of it does |
| `KqueueTheorems.DeliveredOnceIff` | src/driver/kqueue/mod.rs:142-386 | over every run from an empty driver, every key is in as many places as it was accepted (once accepted: one place, delivered at most once) if and only if every check completed different operations, all before the end of its rotation |
| `KqueueTheorems.ReportsAreHeld` | src/driver/kqueue/mod.rs:142-386 | in those runs, cancels and full change lists included, a key is never reported or cancelled more often than it was accepted, as the runtime assumes of its driver |
| `KqueueTheorems.LoneOperationIsDeliveredTwice` | src/driver/kqueue/mod.rs:232-239 | a run that accepts one operation, delivers it twice and still has it pending |
| `KqueueTheorems.NarrowScanDeliversTwice` | src/driver/kqueue/mod.rs:237-264 | a run with room for one change in which a check delivers one operation twice, without a full scan |
| `KqueueTheorems.CancelLeavesAStaleFilter` | src/driver/kqueue/mod.rs:316-322 | a run that pushes, registers and cancels one operation, after which the kernel can return an index out of range |
| `KqueueTheorems.FullListLeavesAStaleFilter` | src/driver/kqueue/mod.rs:237-264 | a run without cancels in which every check is right, and after which the kernel can return an index out of range |
| `KqueueTheorems.NoAnswerPanicsIff` | src/driver/kqueue/mod.rs:183-185 | no answer of the kernel is out of range if and only if every filter that the scan does not register anew was left over with an index still in the queue |
| `KqueueTheorems.CancelReportsTimersOnly` | src/driver/kqueue/mod.rs:306-324 | after a cancel and in any continuation that does not push the key again, reported plus armed under the key stays what it was: what is reported is exactly the timers that expired |
| `KqueueTheorems.CancelIsReportedIff` | src/driver/kqueue/mod.rs:306-324 | so something is reported after a cancel if and only if a timer of the key has expired since |
| `KqueueTheorems.CancelledTimerIsReported` | src/driver/kqueue/mod.rs:306-324 | a run in which a timer is cancelled and then reported |
| `KqueueTheorems.WaitingIsBounded` | src/driver/kqueue/mod.rs:207-267 | an operation at index i is visited or cancelled within i / capacity + 1 successful checks, whatever happens in between |
| `KqueueTheorems.MovedIsTheSameOperation` | src/driver/kqueue/mod.rs:207-217 | a check that does not reach an operation moves it forward by the number visited |
| `KqueueDriver.Driver.constructor` | src/driver/kqueue/mod.rs:122-139 | an empty driver that has asked for nothing, its trace empty |
| `KqueueDriver.Driver.TryPush` | src/driver/kqueue/mod.rs:326-347 | adds the push step to the trace exactly when the queue is below its limit |
| `KqueueDriver.Driver.PushQueue` | src/driver/kqueue/mod.rs:349-356 | pushes a prefix, the rest stays in order; something is left only when the queue has reached its limit |
| `KqueueDriver.Driver.TryCancel` | src/driver/kqueue/mod.rs:306-324 | adds the cancel step to the trace: the first match leaves each of the two queues |
| `KqueueDriver.Driver.OperateSqueue` | src/driver/kqueue/mod.rs:142-173 | takes the drain step and reports what it delivers; every drained operation is tried once, in order; the queue is empty and its limit the whole allocation |
| `KqueueDriver.Driver.OperateAll` | src/driver/kqueue/mod.rs:143-171 | every operation is tried, in order; blocked operations, timers and entries, each in submission order, timers with a clock reading taken meanwhile |
| `KqueueDriver.Driver.FillChangeList` | src/driver/kqueue/mod.rs:226-267 | the change list of the visited prefix, and the index the scan stores |
| `KqueueDriver.Driver.Kevent` | src/driver/kqueue/mod.rs:274-281 | the kernel: is waited for as long as asked, registers the changes, returns some filters once each and forgets them, or fails having applied some |
| `KqueueDriver.Driver.ExpireTimers` | src/driver/time.rs:69-81 | at a clock reading of its own, exactly the timers due fire and are reported: none left was due when the call began, none fired is ahead of the clock |
| `KqueueDriver.Driver.CheckReadiness` | src/driver/kqueue/mod.rs:221-287 | the kernel is called once, with exactly the least of the timeout and the times to all deadlines, so not past one still ahead, and zero with neither; then exactly the due timers expire, whether or not the kernel fails |
| `KqueueDriver.Driver.OperateReady` | src/driver/kqueue/mod.rs:180-207 | panics exactly on an index out of range; else tries the operations of the events without an error, in order, and reports and marks the completed ones |
| `KqueueDriver.ReadyCallsInOrder` | src/driver/kqueue/mod.rs:183-207 | of the ready events exactly those without an error try the operation at their index, in order, and get its reply |
| `KqueueDriver.Driver.Requeue` | src/driver/kqueue/mod.rs:209-217 | the scanned prefix goes behind the rest, in order, without the completed |
| `KqueueDriver.Driver.OperateCompletedAndRequeue` | src/driver/kqueue/mod.rs:175-218 | both of these together |
| `KqueueDriver.Driver.Rotate` | src/driver/kqueue/mod.rs:382-383 | panics exactly when the kernel returned an index out of range; else takes the expiry and check steps, has tried the ready operations, and reports what the steps deliver |
| `KqueueDriver.Driver.Submit` | src/driver/kqueue/mod.rs:363-386 | from any state drains, expires timers, and asks the kernel unless something was pushed, all of it is done and nothing was pending; every queued operation is tried first, in order; the kernel is asked at most once, with the least wait; exactly the due timers fire; adds these steps to the trace and reports exactly what they deliver, in order; the whole capacity is free afterwards; panics exactly on an index out of range, and never when, once drained, all leftover filters are in range, which is exactly when no answer of the kernel could make it |
| `FixedFiles.StepKeepsProtocol` | src/driver/iour/mod.rs:203-277 | at most one update is outstanding and the three states track it; the buffer is not written from submission to completion and is all skip markers when idle |
| `FixedFiles.BufferIsFrozen` | src/driver/iour/mod.rs:250-275 | over any events short of the completion the submitted buffer keeps its contents |
| `FixedFiles.BatchedRegistration` | src/driver/iour/mod.rs:250-275 | with room in the ring and no update on its way, a registration succeeds, leaves the table alone, and the update to come will put exactly its value at its id |
| `FixedFiles.SynchronousRegistration` | src/driver/iour/mod.rs:250-275 | otherwise it succeeds exactly when the kernel call does, which changes the table at once; the batch is left alone |
| `FixedFiles.StepMovesView` | src/driver/iour/mod.rs:250-275 | an event changes the eventual table at an id only by registering it, not overtaken, or by an update that stops before it |
| `FixedFiles.StepKeepsAgreement` | src/driver/iour/mod.rs:250-275 | what an event does to the tracked fate of an id is what it does to its agreement with the last registration |
| `FixedFiles.IdIsRightIff` | src/driver/iour/mod.rs:240-277 | per id and over any events, the eventual table agrees with the last registration if and only if the tracked fate is not wrong |
| `FixedFiles.RegistrationRefinesMap` | src/driver/iour/mod.rs:240-277 | from a fresh driver, after any run, updates that fail or stop early included, table and outstanding batch agree with "last registration wins" exactly on the ids whose latest registration was neither overtaken by its own older batch nor missed by an update; when idle that is the table itself |
| `FixedFiles.BatchedRegistrationsWin` | src/driver/iour/mod.rs:240-277 | while updates succeed, an id never registered synchronously ends up with its last registration, in every run |
| `FixedFiles.RunKeepsProtocol` | src/driver/iour/mod.rs:203-277 | the protocol holds in every run, also when updates fail |
| `FixedFiles.OlderBatchWins` | src/driver/iour/mod.rs:253-257 | five events after which the table holds the older of two registrations |
| `FixedFiles.FailedUpdateIsSilent` | src/driver/iour/mod.rs:210-218 | an update that fails leaves no trace, though registration had succeeded |
| `FixedFiles.KeysDoNotMix` | src/driver/iour/mod.rs:203-237 | what is reported under a key depends on the completions under that key alone |
| `FixedFiles.CallsJoin` | src/driver/iour/mod.rs:203-237 | what is reported does not depend on how completions are spread over calls |
| `FixedFiles.ReportedInOrder` | src/driver/iour/mod.rs:203-237 | the completions but the update's own and those with error 2 or 114 are reported, in order, each under its key; error 62 as zero bytes, other errors with their code, the rest with their count |
| `FixedFiles.ReportedOnceIff` | src/driver/iour/mod.rs:203-237 | over any calls with any completions, its own and its cancel's in either order and in the same or different calls, an operation is reported once and with its own result if and only if that result is neither error 2 nor 114 and its cancel, if any, ended with one of these, that is, came too late |
| `FixedFiles.Driver.constructor` | src/driver/iour/mod.rs:148-177 | an idle driver with empty slots |
| `FixedFiles.Driver.RegisterFd` | src/driver/iour/mod.rs:240-277 | takes the registration step: with a full ring or an update submitted it succeeds exactly when the synchronous call does, changing the table and nothing else; otherwise it succeeds, writes the batch alone, and pushes an update exactly when none is pushed yet |
| `FixedFiles.Driver.EnterKernel` | src/driver/iour/mod.rs:357-364 | a pushed update counts as submitted whatever the kernel accepts; buffer and table are left alone |
| `FixedFiles.Driver.CompleteEntries` | src/driver/iour/mod.rs:203-237 | for any completions visible, reports exactly those to be seen, in order, each with its key and its own result; if and only if the update's is among them, the state is idle and the buffer all skip markers |
| `Timers.WholeRun` | src/driver/time.rs:29-81 | of the log a wheel keeps, under a monotone clock: nothing is lost or fired twice, deadlines fire in nondecreasing order across passes, and a timer has fired exactly when a pass took place at or after its deadline |
| `Timers.NothingLost` | src/driver/time.rs:44-81 | armed is waiting plus fired |
| `Timers.PassSeparates` | src/driver/time.rs:69-81 | the latest pass separates the deadlines fired from those waiting |
| `Timers.FiredInOrder` | src/driver/time.rs:69-81 | fired deadlines are nondecreasing over the whole run |
| `Timers.FiredExactly` | src/driver/time.rs:69-81 | per timer, how often it fired |
| `Timers.FireTop` | src/driver/time.rs:72-80 | popping the top keeps a pass complete and in order |
| `Timers.TimerWheel.Insert` | src/driver/time.rs:44-48 | one more timer, due after the delay, and the log extended by it |
| `Timers.TimerWheel.Peek` | src/driver/time.rs:29-54 | some timer of least deadline, if there is any |
| `Timers.TimerWheel.TillNextTimerOrTimeout` | src/driver/time.rs:50-66 | the minimum of the timeout and the time to every deadline in the heap; waiting it passes no deadline still ahead |
| `Timers.TimerWheel.ExpireTimers` | src/driver/time.rs:69-81 | exactly the timers due at the reading fire, earliest first, the rest stay, and the log is extended by the pass |
| `Intervals.NextTickIsFirstGridPoint` | src/time.rs:121-125 | the tick is the first grid point strictly after now if and only if the remainder fits 64 bits |
| `Intervals.WidePeriodMissesTheGrid` | src/time.rs:123-125 | with a period over 2^64 nanoseconds it may not be |
| `Intervals.FirstGridPointIsUnique` | src/time.rs:121-125 | only one instant qualifies |
| `Intervals.TicksIncrease` | src/time.rs:115-129 | successive ticks strictly increase, for any period and delays |
| `Intervals.TicksDoNotDrift` | src/time.rs:115-129 | every tick is on the grid, and two successive ones are a period apart per tick slept through, plus one |
| `Intervals.Clock.SleepUntil` | src/time.rs:55-57 | never returns before the deadline, also one already past |
| `Intervals.Interval.constructor` | src/time.rs:226-229 | no tick yet; a zero period is refused |
| `Intervals.Interval.Tick` | src/time.rs:115-129 | joins the recorded run, returns no earlier than its instant and later than the last tick, on the grid exactly when the remainder fits |
| `Buffers.NestedViewIsOneRange` | src/buf/slice.rs:61-99 | a slice nested to any depth is one range of the vector, and room in it starts where the vector's initialised bytes end |
| `Buffers.CapacityCoversLength` | src/buf/slice.rs:87-99 | length within capacity, both within the vector's |
| `Buffers.UsableViewsDoNotPanic` | src/buf/slice.rs:69-99 | on a usable view nested to any depth reading and asking for the capacity succeed, with the bytes and the capacity of the view |
| `Buffers.SliceIsMadeIff` | src/buf/io_buf.rs:64-88 | a slice passes the assertions if and only if some index within the capacity is not before the range, an explicit end stays within the capacity, and only initialised bytes are skipped |
| `Buffers.SliceReadsItsRange` | src/buf/io_buf.rs:64-88 | a slice, of a view nested to any depth, reads in order exactly the bytes whose index is in the range, for every kind of bound at both ends |
| `Buffers.SliceCapacityIsItsRange` | src/buf/io_buf.rs:64-88 | its capacity is the number of indices of the range within the capacity of the buffer |
| `Buffers.SliceUsableIff` | src/buf/io_buf.rs:64-88 | a slice that passes the assertions can be read, asked for its capacity and used further if and only if the range is not inverted, that is, no index lies both before its start and past its end |
| `Buffers.InvertedRangeIsAccepted` | src/buf/io_buf.rs:64-88 | an inverted range that passes all assertions and panics when read or asked for its capacity |
| `Buffers.GrowsByIff` | src/buf/slice.rs:106-108 | initialising n more bytes lengthens a view by n if and only if they fit its room |
| `Buffers.FillAppendsToEveryLayer` | src/buf/io_buf.rs:258-271 | data read into the room of a view is appended, exactly, to every layer under it |
| `Buffers.IoBuffer.SetBufInit` | src/buf/io_buf.rs:267-284 | within the room, every enclosing view grows by exactly n |
| `Buffers.IoBuffer.Receive` | src/buf/io_buf.rs:258-284 | a completed read appends exactly its data to every layer and changes no initialised byte |
| `Vectored.AccountingIsRightIff` | src/buf/buf_wrapper.rs:132-143 | the lengths granted equal the bytes landed if and only if every buffer that overflowed was empty |
| `Vectored.ReceiveIsRightIff` | src/buf/buf_wrapper.rs:97-143 | every buffer ends up with its old contents and its own chunk if and only if every buffer that overflowed was empty |
| `Vectored.EmptyBuffersHoldTheData` | src/buf/buf_wrapper.rs:97-143 | buffers that start empty hold, together and in order, exactly the received bytes |
| `Vectored.PartlyFilledBufferIsOvercounted` | src/buf/buf_wrapper.rs:132-143 | a partly filled buffer for which they differ |
| `Vectored.Chunks` | src/buf/buf_wrapper.rs:106-112 | the kernel's scatter: chunks fill the spare slices in order and together are the data |
| `Vectored.VectoredBufWrapper.SetInit` | src/buf/buf_wrapper.rs:132-143 | the lengths after the loop, for any buffers and count |
| `Vectored.VectoredBufWrapper.Receive` | src/net/socket.rs:145-156 | a vectored receive that fits is right exactly under that condition |
| `Transfers.File.ReadAt` | src/fs/file.rs:126-140 | the kernel: appends some bytes from the position, none only at the end or without room, or fails |
| `Transfers.File.ReadExactAt` | src/fs/file.rs:163-188 | appends a prefix of the file from the position, never beyond the room; success means the room is full, end of file exactly that the file was too short, an error exactly that the kernel failed |
| `Transfers.File.ReadToEndAt` | src/fs/file.rs:200-221 | with room at the start, appends exactly the rest of the file and ends; without, nothing; fails only if the kernel does |
| `Transfers.File.WriteAllAt` | src/fs/file.rs:265-282 | byte by byte: the file holds a prefix of the buffer at the position, and elsewhere what it held, with zeros in a gap; success means the whole buffer; fails only if the kernel does; still running only after exactly that many calls, at most one per byte written of which made progress |
| `Transfers.OverwriteIs` | src/fs/file.rs:265-282 | what a write leaves of a file, byte by byte |
| `Transfers.OverwriteInTwoSteps` | src/fs/file.rs:273-280 | two adjacent writes are one |
| `Transfers.RestIsUnwritten` | src/fs/file.rs:275-275 | while the loops run their slice is made without panic and views the bytes not yet written |
| `Transfers.ByteStream.SendAll` | src/net/socket.rs:169-179 | the stream carries a prefix of the buffer, on success all of it; fails only if the kernel does, and is still running only after that many calls |
| `Transfers.ByteStream.RecvExact` | src/net/socket.rs:125-142 | the buffer gains exactly the next bytes of the stream, on success as many as it had room for; an early end is never reported; fails only if the kernel does, and is still running only after that many calls |
| `Transfers.DeliversLeadingBytes` | src/net/socket.rs:125-179 | for every interleaving of the iterations of the two loops and all short transfers, the receiving buffer gains exactly a leading part of the message, with the wire holding the rest of what was sent, and is full exactly when its loop ends |

## Left out

- The Windows driver (`src/driver/iocp`), named pipes and `src/signal`: foreign calls around queue logic that resembles kqueue's, or easy members.
- The operation types (`src/driver/*/op.rs`): an operation answers with a result, a timer request or "would block", as it likes.
- `src/net/tcp.rs`, `udp.rs`, `unix.rs`, `src/fs/open_options.rs`: delegation and option building.
- Dummy keys and `src/event`: they let several futures share one slot.
- Boxing and leaking of operations and the internals of `async_task`, `Slab` and `BinaryHeap`: an operation is a value with an identity, waking appends to the run queue unless queued or closed, a slab gives out any vacant key, a heap any greatest element.
- The runtime's theorems take the driver to report only operations it holds, each once; `KqueueTheorems.ReportsAreHeld` and `FixedFiles.ReportedOnceIff` say when the drivers do.
- `block_on` is observed for a given number of turns and the loops that cannot give up for a given number of kernel calls; nothing is assumed about progress.
- Errors of `poll` other than a timeout end the program and so end the run.
- `usize` overflow of positions, lengths and deadlines; `TimerWheel::extend`, which nothing calls.
- Clock readings never decrease and subtracting a later instant gives zero; the clock source is a parameter.
- The upper bound that the capacity of `ready_events` puts on the events returned; the kernel may return any number.
- io_uring's `push_queue` and the rings' capacities: whether the ring is full is the kernel's answer.
- Vectored buffers other than vectors.
- Transfers.ByteStream.RecvExact: says nothing about termination, because the loop has no exit when the peer has closed.
- Transfers.File.WriteAllAt: the same for writes that make no progress.
