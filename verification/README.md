# rust-miniss: a model of its runtime, and what is proved of it

rust-miniss is a Seastar-style asynchronous runtime. This project models the parts of it that keep
queues, tables and counters in step, and proves what holds of them over every run:

- the per-CPU scheduler with its I/O wake protocol (`Io`, `CpuModel`, `CpuProofs`, `CpuTheorems`,
  `CpuTable`, `CpuQueue`, `CpuDelivery`, `CpuResults`, `CpuLeaks`, `CpuExit`, `CpuMail`, `CpuClass`),
- the timer wheel (`TimerWheel`, `TimerRuns`, `TimerRefinement`, `TimerInstants`),
- the loop of a core, and the runtime of many cores with its shutdown protocol (`CoreModel`,
  `CoreFairness`, `CoreStop`, `CoreCounts`, `CoreHistory`, `RuntimeModel`, `RuntimeProofs`,
  `RuntimeTheorems`, `RuntimeTickets`, `RuntimeCalls`, `RuntimeExamples`, `RoundRobin`),
- the single-threaded executor and its join handles (`ExecutorModel`, `ExecutorProofs`,
  `ExecutorValues`, `ExecutorTermination`, `ExecutorClass`),
- HTTP parsing and printing (`HttpText`, `Http`, `HttpProofs`, `HttpMessages`, `HttpBodies`,
  `HttpRequests`), the buffer pool (`BufferPool`) and `write_all` (`WriteAll`).

`Sequences`, `Measures`, `Division` and `Options` hold what several proofs share: facts about filters, sums
over maps and quotients, and the type of values that may be missing. `dafny verify dfyconfig.toml` checks everything.

Each component has the same shape. Its operations are functions on a value that holds the program's
fields, and beside them, where a property speaks of the past, the history of the run. Where the program
works in place, a class with its fields performs the operation with the program's own loops, and each
method ensures that the new state is that function of the old one. The theorems quantify over every
sequence of steps, and speak of what a state holds in terms of what happened before: the events, the
scripts as they were given, the kernel's answers and the instants. A future is the script of its polls:
what each poll wakes, submits, asks for and drops, and how it ends. Clocks, the kernel, the hash map's
iteration order and the scheduling of threads are inputs of the run.

## What turned out different from what one would expect

Each of these is a theorem below that says exactly when the expected property does hold.

- The timer wheel agrees with a list of deadlines only in its first rotation. Later every `expire`
  empties it, due or not (`PastRotationFiresAll`). Under every clock that does not run back, a timer is on
  time if and only if its deadline lies in the first rotation and not before the last `expire`, or, once
  the rotation is over, before the last `expire` (`OnTimeIff`, `ScheduledOnTimeIff`; by the clock
  `ScheduledAtIff`).
- An operation for which the submission ring has no room still gets a token and a future. A live future
  can be answered if and only if the ring took its operation (`AnsweredIffAccepted`, `RefusedHappens`).
- A cancellation leaves a mark even for an id without a task. A submitted task is polled by the next drain
  if and only if there is no mark under its id (`SubmittedIsPolledIff`, `StaleMarkKillsReusedId`). Ids of
  CPU 0 do overlap those of `submit_task` (`IdsDistinctIff`).
- A result that arrives after its future was dropped stays stored for ever. The stored results without a
  future are exactly those (`LeakedIff`, `LeakedForEver`).
- When `run` of a `Cpu` returns, woken tasks and delivered results may be left unserved: none is left if and
  only if nothing wakes or submits a task after the drain of its last round (`ExitServedIff`).
- A `spawn` that returned Ok does not always run its task, and there are two ways. If it read the state
  before a shutdown it can push behind the shutdown (`SpawnOkButStranded`), and on a core exactly the tasks
  pushed ahead of its shutdown reach the queue (`HandledIffAhead`). But a core makes only 16 polls in the turn
  that reads the shutdown and then exits, so a task ahead of it may be left in the queue
  (`AheadButStranded`). The task in message `a` of a core is certain to run before the shutdown in message
  `b` if and only if `a < b` and `a/16 <= (b - a)/32` (`CertainToRunIff`); from any state of the core,
  with `m` messages ahead and `q` tasks queued, if and only if its wait
  `m/32 + (q + m)/16 + 1` is at most `b/32 + 1` (`RunsBeforeStopIff`).
- `CancelTask` removes tasks from the queue of a core without counting: `local_task_count` is the queue's
  length if and only if no cancellation removed a task (`CountIsQueueIff`, `CounterDrifts`). No code of the
  crate sends that message today: `cancel_task` of the runtime sends nothing, and the inboxes are private.
- Round-robin is even across the wrap of its counter if and only if the number of cores divides the size
  of the counter (`WithinOneIff`).
- The documentation of `is_finished` describes a question, but the code receives: asking changes the
  handle's next answer if and only if the task has ended with a result nobody received
  (`AskingLosesResultIff`). `TaskError` documents a panic result, but the handle of a task that panicked
  answers Cancelled (`HandleAnswers`).
- `Executor::run` spins for ever if and only if the tasks can come to rest too early, which is a matter of
  who wakes whom and not of the order of polls (`RunReturnsIff`, `UnwokenTaskSpins`).
- A printed response is not always an acceptable message. With a version on one line it is accepted if and
  only if version and reason phrase have two words together, so status 400, 404 and 500 are refused for
  every ordinary version (`OneLineVersion`; for all versions `ResponseRoundTripIff`). For a version on one
  line and good headers the body comes back if and only if it has no CR LF and does not end in LF
  (`GoodHeadPasses`; for all responses `BodyRoundTripIff`); see sections 2.1 and 5 of RFC 9112.
- `recycle` means to bring every buffer to the pool's size, but keeps only those with no memory yet or of
  exactly that size (`RecycledIff`). `set_len` is documented as safe up to the capacity, but a pooled buffer
  looks freshly allocated if and only if it is never lengthened (`RefinesAllocationIff`,
  `LengtheningShowsOldBytes`).

## Model

| member | source | states |
|---|---|---|
| `TimerWheels.TimerWheel.constructor` | src/timer/mod.rs:82-97 | The wheel starts with the given number of empty slots and the cursor at slot 0. |
| `TimerWheels.TimerWheel.Schedule` | src/timer/mod.rs:102-126 | The entry goes to the end of the slot of its tick and nothing else changes. |
| `TimerWheels.TimerWheel.Cancel` | src/timer/mod.rs:131-140 | The first entry with the id is cut out and the answer says whether there was one; every other entry keeps its place in order. |
| `TimerWheels.TimerWheel.DrainSlot` | src/timer/mod.rs:152-155 | The current slot is moved, oldest first, behind what was already ready. |
| `TimerWheels.TimerWheel.Expire` | src/timer/mod.rs:145-172 | The loop ends, and pushes the contents of exactly the slots between the cursor and the tick in cursor order, or of all slots once a full rotation has passed. |
| `TimerWheels.TimerWheel.PendingCount` | src/timer/mod.rs:182-184 | The result is the number of entries in all slots. |
| `TimerRuns.FiresExactly` | src/timer/mod.rs:145-179 | A timer is fired by a call exactly if it is scheduled, neither fired nor cancelled, and its slot is among those the cursor passes. |
| `TimerRuns.RunKeepsInv` | src/timer/mod.rs:102-172 | Over every run each slot is exactly the pending timers of that slot in scheduling order. |
| `TimerRuns.ExactlyOnePlace` | src/timer/mod.rs:102-172 | Over every run, in both regimes and for any clock, each scheduled timer is in exactly one of pending, fired and cancelled, once. |
| `TimerRuns.ExpireDropsCount` | src/timer/mod.rs:145-184 | `expire` lowers the pending count by exactly the number of wakers it pushes. |
| `TimerRuns.PastRotationFiresAll` | src/timer/mod.rs:151-170 | From any cursor, a tick of a full rotation or more empties the wheel and fires exactly all pending timers. |
| `TimerRuns.CancelFindsPending` | src/timer/mod.rs:131-140 | `cancel` answers true exactly for the id of a pending timer. |
| `TimerRuns.CancelCutsSlot` | src/timer/mod.rs:131-140 | Cancelling removes exactly that entry from its slot and keeps the order of the others. |
| `TimerRefinement.ExpireFiresDue` | src/timer/mod.rs:145-172 | In the first rotation one call fires exactly the due timers of a plain list, stably sorted by tick. |
| `TimerRefinement.RefinesPlainList` | src/timer/mod.rs:102-179 | Over every run in the first rotation the wheel and the list of deadlines fire the same timers in the same order, cancel the same, and have the same pending. |
| `TimerRefinement.FiredIsSorted` | src/timer/mod.rs:115-172 | Everything all calls of a run fired is the stable sort by tick of the scheduled, uncancelled timers below the cursor. |
| `TimerRefinement.OnTimeIff` | src/timer/mod.rs:102-179 | From any reachable state, in every continuation that schedules and cancels other timers at will and whose clock does not run back, in the first rotation or past it, a pending timer fires in the first `expire` of a later tick if and only if its deadline is servable from the last one. |
| `TimerRefinement.ScheduledOnTimeIff` | src/timer/mod.rs:102-179 | The same for the timer a call of `schedule` has just entered, after any run with such a clock. |
| `TimerInstants.TickIff` | src/timer/mod.rs:146-147 | With r milliseconds of resolution an instant from the start on has tick k if and only if it lies at or after start + k * r * 1,000,000 ns and before start + (k+1) * r * 1,000,000 ns; one before the start has tick 0. |
| `TimerInstants.LaterTick` | src/timer/mod.rs:146-178 | A tick is later if and only if a resolution step begins after the one instant and not after the other; so a later tick is a later instant, nothing fires before its deadline, and one resolution step later is always a later tick. |
| `TimerInstants.ScheduledAtIff` | src/timer/mod.rs:102-179 | In instants: after any run of calls whose clock does not run back, in every such continuation, the timer just scheduled for `at` fires in the first `expire` before which, since `at`, a step of the wheel began, if and only if, during the first rotation, `at` lies in it and no step began between `at` and the last `expire`, or, after it, one did. |
| `CpuClass.UringBackend.Submit` | src/io/uring.rs:80-324 | A new token is returned in any case; the operation enters the table exactly if the ring took it. |
| `CpuClass.UringBackend.PollComplete` | src/io/uring.rs:326-572 | The loop answers the first completion of each token in the table, each such completion is answered, and nothing else is; every field of an answer is told by that completion, and the tokens without a completion are what is left of the table. |
| `CpuClass.CpuIoState.PollFuture` | src/io/future.rs:27-47 | A stored result is taken and returned; otherwise the caller's waker is registered under the token. |
| `CpuClass.CpuIoState.DropFutures` | src/io/future.rs:50-61 | Dropping removes the waker and the stored result of exactly those futures. |
| `CpuClass.TwoPhases` | src/cpu.rs:234-253 | Taking all answers out of the table first and then storing and waking is the same as handling the completions one by one. |
| `CpuClass.CpuThread.constructor` | src/cpu.rs:152-176 | The scheduler starts empty and running, with task ids from the CPU number shifted by 32 bits. |
| `CpuClass.CpuThread.Wake` | src/waker.rs:35-37 | A wake pushes the id onto the ready queue, whatever is there already. |
| `CpuClass.CpuThread.Spawn` | src/cpu.rs:182-197 | The task is entered under the next local id and queued. |
| `CpuClass.CpuThread.HandleMessage` | src/cpu.rs:205-231 | Each message changes the tables, marks and the running flag as the scheduler's state machine says. |
| `CpuClass.CpuThread.ProcessMessages` | src/cpu.rs:199-203 | All queued messages are handled in order and the channel is empty. |
| `CpuClass.CpuThread.PollTask` | src/cpu.rs:288-299 | A polled task plays its actions and is put back if pending, dropped with its futures if ready. |
| `CpuClass.CpuThread.PopReady` | src/cpu.rs:269-300 | One turn removes the front id, clears its mark and drops its task if cancelled, polls it if there is one; it reports progress exactly if a poll was made or a mark used up. |
| `CpuClass.CpuThread.DrainReady` | src/cpu.rs:269-300 | Whatever wakes other threads send between its turns, the drain loop ends with the queue empty and the state of the drained machine; it reports progress exactly if a poll was made or a mark used up. |
| `CpuClass.CpuThread.PollIoCompletions` | src/cpu.rs:234-253 | After the loop the state is that of handling every posted completion in order; it reports progress exactly if the table of pending operations has changed. |
| `CpuClass.CpuThread.Tick` | src/cpu.rs:255-307 | Messages, expired timers, the drain loop and the completions, in this order, from one state that satisfies the invariant to another; progress is reported exactly if a timer expired, the drain did something, or an operation was answered. |
| `CpuClass.CpuThread.Receive` | src/cpu.rs:324-339 | With an empty queue one message is awaited or the loop stops on a closed channel; otherwise all messages are handled. |
| `CpuClass.CpuThread.Run` | src/cpu.rs:314-346 | Over any rounds the environment provides, the event loop blocks in exactly the states of the machine, and in each of them every wake and every delivered result has been served. |
| `CpuModel.PopDecreases` | src/cpu.rs:269-300 | Each turn of the drain loop lowers the polls left in all tasks, or keeps them and shortens the queue. |
| `CpuProofs.CompleteWakes` | src/cpu.rs:245-250 | The waker a completion fires is that of the task its future told to wait, so no completion goes unserved. |
| `CpuProofs.Reachable` | src/cpu.rs:182-307 | In every reachable state no wakeup is lost, each accepted token is in exactly one place, results match their operations, no token is both waited for and completed, and wakers belong to live futures that were told to wait. |
| `CpuTheorems.DrainServesAll` | src/cpu.rs:269-300 | When the drain loop ends, after any run and with any wakes in between, no task has an unserved wake or an unserved completion. |
| `CpuTheorems.DrainPollsQueued` | src/cpu.rs:269-300 | The drain loop polls every queued task that exists and is not marked. |
| `CpuTable.TableExactly` | src/cpu.rs:205-299 | Over every run an id is in the table if and only if a task was introduced under it and has since been neither introduced again, nor cancelled, nor taken down by a mark, nor polled to its end; the entry is that task without as many first polls of its script as it has been polled since. |
| `CpuQueue.QueueIsFifo` | src/cpu.rs:211-300 | Over every run the ready queue is first in, first out: what was queued followed by all wakes, of submissions, wakers, polls and completions, is all that was taken off followed by what is queued. |
| `CpuQueue.WakerAskedLast` | src/io/future.rs:38-43 | Over every run the waker a future keeps is that of the task whose poll asked it last. |
| `CpuQueue.CompletionWakesAsker` | src/io/future.rs:27-47 | A pending poll that asks an unanswered future and keeps it leaves its task's waker there, and the completion then queues that task. |
| `CpuQueue.AcceptedWasSubmitted` | src/io/uring.rs:80-324 | Over every run the operation accepted under a token is one that some poll submitted to a ring with room. |
| `CpuQueue.SubmittedIsAccepted` | src/io/uring.rs:80-324 | Every operation submitted to a ring with room is accepted under a token never used before. |
| `CpuQueue.FuturesGoWithTask` | src/io/future.rs:50-61 | When a task leaves the table or is replaced, all futures it holds are dropped. |
| `CpuDelivery.CompletionReachesTask` | src/cpu.rs:234-307 | After any run, if a live future last returned Pending and its result has arrived since, the next drain polls the task that waits for it, with any wakes in between; and if that poll asks the future before dropping it and no other task touches or holds it, the future returns that result. |
| `CpuDelivery.ResultBeforeBlocking` | src/cpu.rs:234-346 | In every state in which `run` later waits on its channel such a result has been returned to its task, unless a message cancelled or replaced the task or brought one that touches its future. |
| `CpuDelivery.RunDelivers` | src/io/future.rs:27-61 | After any events that do not interfere, the result has been returned to its future, or is still stored for a task that exists, is not marked and will ask for it. |
| `CpuTheorems.ReturnedOnceInKind` | src/io/uring.rs:326-572 | A returned result is of the kind its operation asked for, is never returned again or replaced, and has left every table. |
| `CpuTheorems.AnsweredIffAccepted` | src/io/uring.rs:313-323 | A live future is answered by some continuation if and only if the ring took its operation. |
| `CpuTheorems.RefusedHappens` | src/io/uring.rs:313-323 | A run that reaches a live future whose operation was refused, for every operation. |
| `CpuTheorems.CancelledNeverPolled` | src/cpu.rs:222-300 | After `CancelTask(id)` no continuation that does not reuse the id polls it, whatever wakes are queued or arrive. |
| `CpuTheorems.MarkedExactly` | src/cpu.rs:222-287 | The marks are exactly the ids whose cancellation was handled and which were not popped since. |
| `CpuTheorems.SubmittedIsPolledIff` | src/cpu.rs:208-300 | From every state and with any wakes in between, a submitted task is polled by the next drain if and only if no cancellation mark is left under its id. |
| `CpuTheorems.StaleMarkKillsReusedId` | src/cpu.rs:222-287 | From every state, cancelling an id and submitting a task under it leaves the task unpolled. |
| `CpuTheorems.BlockedMeansServed` | src/cpu.rs:321-340 | Whenever the event loop waits on its channel with an empty queue, whatever messages and wakes other threads sent during the rounds, every wake and every delivered result has been served. |
| `CpuResults.ResultIsTheKernels` | src/io/uring.rs:326-572 | Over every run a returned result is what one of the kernel's answers to its own token means for the operation submitted under it; what that is field by field says `ReturnedAsTold`. |
| `CpuResults.ReturnedAsTold` | src/io/uring.rs:326-572 | Over every run, for some answer of the kernel to the token: an error carries minus its verdict and comes only from a negative one; an accept returns the verdict as descriptor and the peer; every write and send reports the verdict as count, and a send its data; every read and receive reports it as count, with that much of the memory lent as data; a receive returns the peer; and a missing peer, and nothing else, is an unsupported family. |
| `Io.ToldOnce` | src/io/uring.rs:337-572 | Within the memory lent, the kernel's answer decides every field: two results it tells are equal. |
| `CpuResults.ReadsInBounds` | src/net.rs:73-78 | With a kernel that writes at most what it is asked for, the length reported with every returned read is the kernel's verdict, is the length of the data and at most the request, so the clients' slices are in bounds, and the data is that prefix of the kernel's memory. |
| `CpuLeaks.LeakedIff` | src/io/future.rs:50-61 | Over every run a result is stored without a future if and only if the kernel answered after the future was dropped. |
| `CpuLeaks.LeakedForEver` | src/cpu.rs:245-250 | Such a result stays as it is in every continuation and is never returned. |
| `CpuLeaks.LeakHappens` | src/io/future.rs:50-61 | A run in which one comes about, for every operation and answer. |
| `CpuExit.LooksEmptyIff` | src/cpu.rs:302-324 | The queue is empty when `run` looks at it if and only if since the drain no wake arrived and no completion fired a registered waker. |
| `CpuExit.GoesOnIff` | src/cpu.rs:214-339 | The loop of `run` goes on after a round if and only if no shutdown is among the messages the round handled and it did not find queue and channel empty with all senders gone. |
| `CpuMail.RoundHandlesAll` | src/cpu.rs:199-339 | Every round is a run that handles, each once and in this order, the messages its tick finds, the completions, and the messages at its end: all of these if tasks are queued, otherwise at most one; the rest stays in the channel. |
| `CpuMail.ExpiredArePolled` | src/cpu.rs:259-300 | A task whose timer expired is polled in the same tick, if it exists and is not marked after the tick's messages. |
| `CpuExit.ExitServedIff` | src/cpu.rs:321-340 | When `run` returns, no wake and no delivered result is unserved if and only if that holds of its last round and the message it waited for, if any, submits no task; otherwise the tasks left are exactly those in the queue. |
| `CoreClass.CpuCore.HandleFront` | src/multicore.rs:175-198 | One message is handled; the counter stays the queue's length plus the tasks removed by cancellations. |
| `CoreClass.CpuCore.ProcessMessages` | src/multicore.rs:170-202 | At most 32 messages are handled in order, none behind a shutdown; the answer says whether there was one. |
| `CoreClass.CpuCore.PollOne` | src/multicore.rs:210-228 | The front task is polled and put at the back if pending; the counter's decrement never underflows. |
| `CoreClass.CpuCore.ExecuteTasks` | src/multicore.rs:205-231 | At most 16 polls in queue order; the answer says whether there was one. |
| `CoreClass.CpuCore.Run` | src/multicore.rs:108-139 | Under any arrivals the loop takes its turns until a shutdown has been seen. |
| `CoreStop.ServedWithin` | src/multicore.rs:114-231 | With m messages ahead and q tasks queued, within m/32 + (q+m)/16 + 1 turns from then on a task is polled or cancelled or the core stops, whatever arrives behind it; and it is polled or cancelled unless a shutdown among the messages, here or to come, is read in fewer turns. |
| `CoreStop.RunsBeforeStopIff` | src/multicore.rs:114-231 | With the first shutdown at b in the inbox, every core polls or cancels the task, whatever arrives, if and only if m/32 + (q+m)/16 + 1 is at most b/32 + 1. |
| `CoreStop.CertainToRunIff` | src/multicore.rs:114-231 | Over all runs of a new core that stops, with any tasks and however the messages arrive, the task in message a was polled or cancelled before the shutdown in message b stopped the core if and only if a is less than b and a/16 at most (b-a)/32. |
| `CoreStop.JamStrands` | src/multicore.rs:114-231 | Behind enough endless tasks a task is not polled before the core stops, whatever arrives. |
| `CoreFairness.BoundIsTight` | src/multicore.rs:114-231 | For every m and q there is a core on which one turn fewer is not enough. |
| `CoreCounts.PopConserves` | src/multicore.rs:170-202 | Handling a message neither loses nor duplicates any task and moves exactly the one it carries. |
| `CoreCounts.PollConserves` | src/multicore.rs:205-231 | Nor does a poll. |
| `CoreHistory.FinishedIff` | src/multicore.rs:205-231 | Over every run of a new core, a task sent once that answers Pending k times is finished if and only if it was polled k+1 times, and while it is queued its polls and those to come make k; one that answers Pending for ever is never finished. |
| `CoreHistory.CancelRemoves` | src/multicore.rs:191-196 | A cancellation takes every task of that id out of the queue and leaves the others. |
| `RuntimeProofs.Reachable` | src/multicore.rs:300-583 | Over every interleaving one caller at most wins and alone sends shutdowns, each inbox is the end of what was pushed to it, and each task was pushed once, to one core. |
| `RuntimeTheorems.ShutdownProtocol` | src/multicore.rs:480-522 | Exactly one compare-and-exchange succeeds, and only if the state has left Running; it never returns there; no inbox gets two shutdowns; no call returns Err. |
| `RuntimeTheorems.WinnerTellsAll` | src/multicore.rs:515-521 | When the winning call has returned, every inbox has received exactly one shutdown. |
| `RuntimeTheorems.LateSpawnPushesNothing` | src/multicore.rs:414-477 | A spawn that has not read the state when the runtime stops running never pushes, in any continuation. |
| `RuntimeTheorems.AcceptedInOnePlace` | src/multicore.rs:463-477 | A task whose spawn returned Ok is at every moment in exactly one place on exactly one core, and is polled only there. |
| `RuntimeCalls.SpawnOkIff` | src/multicore.rs:414-477 | In every interleaving a `spawn` or `spawn_on` that has read the state returns within three more of its own steps, and Ok if and only if the runtime was running then and the core asked for, if any, exists. |
| `RuntimeCalls.ShutdownReturns` | src/multicore.rs:480-522 | In every interleaving a `shutdown` returns Ok within as many of its own steps as there are cores, and three more. |
| `RuntimeCalls.SpawnedRunsItsLife` | src/multicore.rs:205-231 | In every interleaving a task whose spawn returned Ok is finished on its core if and only if it was polled once more than the life given to that spawn answers Pending, and while queued it was polled fewer times. |
| `RuntimeCalls.CancelledNeverPolled` | src/multicore.rs:191-196 | In every interleaving, a core that handles the cancellation of a task, pushed and not behind it in the inbox, never polls the task again. |
| `RuntimeCalls.TerminatedMeansStopped` | src/multicore.rs:556-583 | Over every interleaving a terminated runtime has all cores stopped, each by the one shutdown it was sent, and `join` terminates it once they are. |
| `RuntimeTheorems.HandledIffAhead` | src/multicore.rs:170-190 | On a core that has seen its shutdown, a pushed task reached the queue if and only if it was pushed ahead of the shutdown; otherwise it is still in the inbox. When it is then polled is `CertainToRunIff`. |
| `RuntimeTheorems.StoppedTakesNoMore` | src/multicore.rs:114-190 | Once a core has seen its shutdown it takes no further message in any continuation. |
| `RuntimeTheorems.StrandedForever` | src/multicore.rs:414-477 | A task behind the shutdown is never polled in any continuation. |
| `RuntimeTheorems.SpawnOkButStranded` | src/multicore.rs:414-433 | A run in which a spawn returns Ok for a task behind the shutdown. |
| `RuntimeExamples.AheadButStranded` | src/multicore.rs:114-134 | For every k of the exact condition, a run in which k spawns return Ok before a shutdown is called and from which on the core, whatever arrives, stops without polling the last of their tasks. |
| `RuntimeExamples.SeventeenStrand` | src/multicore.rs:205-209 | Seventeen spawns are the fewest for which this happens. |
| `RuntimeTheorems.CountIsQueueIff` | src/multicore.rs:170-231 | Over every interleaving the counter of a core is the queue's length plus the tasks removed by cancellations, so it is that length if and only if none was removed, as when no cancellation was sent. |
| `RuntimeExamples.CounterDrifts` | src/multicore.rs:191-196 | A run in which a cancellation leaves the queue empty and the counter at one. |
| `RoundRobin.FairShare` | src/multicore.rs:426-432 | Until the counter wraps, any k consecutive tickets give each of n cores the floor or the ceiling of k/n. |
| `RoundRobin.WrappedShares` | src/multicore.rs:426-432 | Across one wrap any two cores differ by at most two. |
| `RoundRobin.WithinOneIff` | src/multicore.rs:426-432 | They differ by at most one over every window, wrap or not, if and only if the number of cores divides the size of the counter. |
| `RuntimeTickets.TicketAt` | src/multicore.rs:426-432 | Whoever the callers are, the k-th round-robin spawn of a stretch of a run goes to the core of the k-th counter value. |
| `RuntimeTickets.SpawnsShareOut` | src/multicore.rs:426-432 | Over any stretch of any interleaving that does not wrap the counter, every core receives the floor or the ceiling of its share of the spawns. |
| `RuntimeTickets.SpawnsAcrossWrap` | src/multicore.rs:426-432 | Over a stretch with one wrap any two cores differ by at most two. |
| `RuntimeTickets.SpawnOnLandsThere` | src/multicore.rs:436-477 | A `spawn_on` puts its task on the core it asked for or, if refused, nowhere, in every continuation. |
| `RoundRobin.IdsDistinctIff` | src/cpu.rs:91-95 | Exactly when the ids of a CPU's own spawns and those of `submit_task` are distinct. |
| `ExecutorClass.Executor.Spawn` | src/executor.rs:260-284 | The task is entered under the next id, queued, and given an open channel. |
| `ExecutorClass.Executor.Tick` | src/executor.rs:287-322 | The loop ends with the queue empty and the state of the drained machine; it reports progress exactly if something was polled. |
| `ExecutorClass.Executor.Run` | src/executor.rs:325-333 | Unless the tasks can come to rest too early, the exact condition of `RunReturnsIff`, `run` returns with no task left, after one tick. |
| `ExecutorClass.Executor.PollHandle` | src/task.rs:132-148 | The handle answers by the channel, and receiving takes the result out. |
| `ExecutorModel.PopDecreases` | src/executor.rs:287-322 | Each turn lowers the polls left in all tasks, or keeps them and shortens the queue. |
| `ExecutorProofs.SingleCompletion` | src/executor.rs:287-322 | Over every run no task is polled after it was ready or panicked, despite stale and duplicate ids, and no result is received twice. |
| `ExecutorProofs.HandleAnswers` | src/task.rs:132-148 | Over every run a handle that answers pending has its task still there, one that answers a value gives that of its task's last poll, not yet received, and one that answers Cancelled had its result received or its task panicked; after a panic it always answers so. |
| `ExecutorValues.HandleDelivers` | src/executor.rs:260-322 | Over every run, for the task spawned as number n: its handle delivers only the value of the first poll of that task's script that is not pending, or its final value if all are; it answers Cancelled only if that poll panics or the value was received, and pending only while all its polls were. |
| `ExecutorValues.QueueIsFifo` | src/executor.rs:281-322 | Over every run the ready queue is first in, first out and neither loses nor invents a wake. |
| `ExecutorProofs.AskingLosesResultIff` | src/task.rs:101-106 | Over every run, asking changes the next answer of the handle, from then on Cancelled, if and only if the task has ended with a result that nobody received. |
| `ExecutorProofs.PanicIsolation` | src/executor.rs:296-317 | Replacing any panics by results, or back, leaves the remaining tasks, the ready queue and the sequence of polled ids the same over every run. |
| `ExecutorProofs.TickFinishes` | src/executor.rs:287-322 | If every task is queued and wakes itself while pending, one tick ends them all. |
| `ExecutorTermination.TickLeavesIff` | src/executor.rs:287-322 | A tick leaves a task if and only if there are numbers of polls, one per task, after which some task has not ended and no such task has been queued more often than polled. |
| `ExecutorTermination.RunReturnsIff` | src/executor.rs:325-333 | Without outside wakes `run` returns if and only if there are no such numbers before the call. |
| `ExecutorTermination.SelfWakingEnds` | src/executor.rs:325-333 | There are none if every task is queued and wakes itself while pending. |
| `ExecutorTermination.UnwokenTaskSpins` | src/executor.rs:325-333 | A spawned task whose first poll is pending and wakes nobody makes `run` spin for ever. |
| `ExecutorTermination.AllEnded` | src/executor.rs:325-333 | When `run` returns, every task ever spawned has ended with a result or a panic. |
| `HttpText.LinesCons` | src/http.rs:105-105 | A text that begins with a line and CR LF has that line first and then the lines of the rest. |
| `HttpText.JoinLinesIff` | src/http.rs:142-144 | Splitting a text into lines and joining them with LF gives it back if and only if it has no CR LF and does not end in LF. |
| `Http.ReadHeaders` | src/http.rs:123-139 | The loop over the header lines computes the header map and the index of the first body line of the recursive definition. |
| `Http.Parse` | src/http.rs:101-156 | The method computes the request, or the error, of the recursive definition. |
| `Http.ToBytes` | src/http.rs:197-210 | The loop over the headers builds the whole printed message. |
| `HttpProofs.ParsedGood` | src/http.rs:128-139 | Whatever the header loop accepts has lower-case, trimmed names without colon or LF and trimmed values without LF. |
| `HttpProofs.LineRoundTrip` | src/http.rs:134-138 | A printed good header is read back as it was. |
| `HttpProofs.HeadersRoundTripIff` | src/http.rs:124-147 | In every iteration order the header loop reads back exactly the printed map if and only if all names and values are good. |
| `HttpMessages.ResponseRoundTripIff` | src/http.rs:192-210 | For every version string, `parse` accepts a printed response if and only if its first line has three words, returns them in their places, and returns the headers if and only if they are all good and cover those that further lines of the version make, or such a line ends the headers and those before it are just these. |
| `HttpMessages.OneLineVersion` | src/http.rs:192-210 | For a version without LF: accepted if and only if version and reason have two words together; then the headers come back if and only if they are all good, and a one-word version, the code and the reason are returned in their places. |
| `HttpBodies.BodyRoundTripIff` | src/http.rs:141-147 | For every accepted response: if no line of its head behind the first is empty, the body comes back if and only if it has no CR LF and does not end in LF; if only the last line is, if and only if it is nothing but LF; otherwise it does not. |
| `HttpBodies.GoodHeadPasses` | src/http.rs:197-206 | For a version without LF and good headers no line of the head is empty. |
| `HttpMessages.PassesIff` | src/http.rs:127-132 | The header loop gets past given lines if and only if none behind the first is empty. |
| `HttpMessages.DecimalRoundTrip` | src/http.rs:75-75 | The printed status code stands for the code. |
| `HttpMessages.StatusLineWords` | src/http.rs:65-76 | The words of a printed status line are those of the version, the code, and those of the reason, for every version. |
| `HttpRequests.ParsedFirstLine` | src/http.rs:101-121 | Each error occurs only for its reason: invalid UTF-8, an empty text, a first line without three words; otherwise path and version are the second and third word and the method is that of the first. |
| `HttpRequests.HeadersAreDefined` | src/http.rs:123-139 | A header has a value if and only if, among the lines up to the first empty one, the last line that names it, left of its first colon, trimmed and in lower case, has that value right of it, trimmed; so a line without a colon adds none. |
| `HttpRequests.MethodNames` | src/http.rs:41-53 | A word is read as the named method whose name it is in upper case, and any other is kept as it is. |
| `HttpRequests.StatusPhrases` | src/http.rs:65-76 | The status line of each code: 200, 400, 404 and 500 with their phrases, all others as unknown. |
| `HttpText.TrimCuts` | src/http.rs:135-136 | Trimming cuts off all white space at both ends and nothing else. |
| `HttpProofs.MethodRoundTripIff` | src/http.rs:24-53 | A printed method is read back as it was if and only if it is a known one or its name, in upper case, is none of theirs. |
| `BufferPools.BufferPool.Get` | src/buffer.rs:112-135 | From a well-kept pool a buffer of length n with all bytes zero, taken from the front exactly if the size allows it and the pool is not empty. |
| `BufferPools.BufferPool.Recycle` | src/buffer.rs:25-38 | The pool stays within 100 vectors, all empty and of capacity 4096, and grows exactly if the vector has capacity 0 or 4096 and there is room. |
| `BufferPools.BufferPool.FromSlice` | src/buffer.rs:20-22 | A buffer made from a slice shows just its bytes and has no memory beyond them. |
| `BufferRuns.StepKeeps` | src/buffer.rs:25-135 | Every operation keeps the pool well, and no vector is pooled twice, held twice, or both. |
| `BufferRuns.NeverTooSmall` | src/buffer.rs:122-132 | In every reachable state a pooled vector is large enough, so the branch that drops one is dead. |
| `BufferRuns.RecycledIff` | src/buffer.rs:25-38 | In every reachable state, a vector got from the pool or made from a slice is pooled if and only if it has no memory or 4096 bytes and there is room; otherwise the pool is unchanged. |
| `BufferRuns.StepAgreesIff` | src/buffer.rs:25-135 | An operation shows the same bytes as in a program that allocates every time if and only if it is not a `set_len` beyond the length and within the capacity. |
| `BufferRuns.RefinesAllocationIff` | src/buffer.rs:25-135 | Over every run, all buffers show at every moment the bytes of a program that allocates every time if and only if no `set_len` lengthens. |
| `BufferRuns.ReadShowsData` | src/io/uring.rs:402-417 | After a read the reported length is within the capacity, and the buffer shows exactly the bytes the kernel wrote. |
| `BufferRuns.LengtheningShowsOldBytes` | src/buffer.rs:82-85 | A recycled buffer got again with length n and then set to any greater length within its capacity shows, behind n zeros, the bytes its last user left. |
| `WriteAll.Write` | src/net.rs:114-129 | The loop computes the trace of calls of the recursive definition, for any replies. |
| `WriteAll.OkIffAllTaken` | src/net.rs:114-129 | What the kernel took, in order, is a prefix of the input, and all of it if and only if the result is Ok. |
| `WriteAll.OffersTheRest` | src/net.rs:114-129 | Every write offers exactly what was not taken before it. |
| `WriteAll.EndsWithinAnswers` | src/net.rs:114-129 | However many interruptions, the loop has ended once there were as many other replies as bytes. |
| `WriteAll.ByteByByteWaits` | src/net.rs:114-129 | With fewer it may still be waiting. |
| `WriteAll.LastReplyDecides` | src/net.rs:117-126 | Every reply before the last was an interruption or took some bytes. An error carries the code of the last reply, a zero write comes from a count of 0 and the panic from one above what was offered; only an unanswered write leaves the loop waiting. |
| `WriteAll.TakenAsReported` | src/net.rs:114-129 | A write took as many of the bytes it was offered as its reply says, and none if it failed. |
| `WriteAll.PanicsIffDishonest` | src/net.rs:124-124 | The slice is out of bounds if and only if the kernel reported more bytes than it was offered. |

## Left out

- The epoll and kqueue backends: the same protocol over system calls and raw descriptors.
- Unsafe memory, socket addresses, `RawWaker` reference counts and pinning: memory layout outside the model.
- Wrap-around of tick, token and task counters of 64 bits, except in `RoundRobin`, and the casts of milliseconds to `u64` and `usize`: they need runs of astronomical length.
- Weak memory ordering: atomics are sequentially consistent.
- A panicking poll on a `Cpu` or `CpuCore` thread: nothing catches it there, so the thread ends.
- `Runtime::block_on` and its delivery of completions, `MultiCoreRuntime::block_on` and `Executor::block_on`: single futures polled in a loop.
- The timers of a `Cpu` inside its tick: a tick is given the ids whose timers the wheel reports; the wheel itself is the timer model.
- Dropping an `IoFuture` outside a runtime thread: it panics for lack of the thread's I/O state.
- The capacity of the message channels, parking, and thread creation and affinity: no effect on the modelled state.
- `JoinHandle`'s stored waker: the code stores it and never wakes it, so the model has none.
- What a core drops when its thread ends: tasks left in its inbox and queue stay there in the model.
- `cancel_task`, `ping_all`, `process_timers` and `process_io` of the multi-core runtime: stubs, or they discard what they receive; the protocol model lets anyone send pings and cancellations at any time.
- A wake from another thread that arrives while a tick handles messages or stores completions is queued behind them: only the order of entries in the ready queue.
- In the shutdown protocol a core takes one message or polls one task per step, in any order, which includes the batched turns of the loop.
- UTF-8 decoding and Unicode case mapping in HTTP: the decoded text, or that it is invalid, and the two mappings are parameters; the theorems ask of a mapping only that it is idempotent and makes no colon, LF or outer white space.
- `with_header`, `with_body`, the HTTP connection and its handlers, `src/fs.rs`, and the rest of `src/net.rs`: straight-line code around the modelled parts.
- Vectors whose allocator gives more memory than asked for: `vec!` and `reserve_exact` are exact here, as in the standard library's present implementation.
- `set_len` beyond the capacity, and a kernel that writes more than it was offered: outside Rust's semantics; `Io.Filled` then keeps the memory it has.
- `src/signal.rs`, `src/cancellation.rs`, `src/timer/timeout.rs`, `src/timer/sleep.rs`, `src/config.rs`: single-branch behaviour or constants.
