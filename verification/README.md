# Verification model of the avctool concurrency kernel

A Dafny model of the parts of `avctool` that other threads lean on: the event loop (its task queue, delay
tasks and registrations), timers and cancellable tasks, the send side of a socket, the counting semaphore with
the thread pool, `sync` and the log writer built on it, the load counter and the program clock.

`dafny verify dfyconfig.toml` checks everything.

## How it is built

Concurrent code is a state machine. A `Step` is what one thread does between two points where another thread
may come in: a locked block, one wait, one write to a pipe, one access to a shared flag. `Enabled` and `Apply`
follow the code branch by branch, `Legal` and `Run` speak about whole runs, and a theorem about
`Run(s, steps)` is about every interleaving of any number of threads. Beside the machines stand classes with
the source's own fields, whose methods are its functions; they are proved against the same step functions, or
against a specification function (`Push`, `Flush`, `After`, `Trim`, ...) about which the properties are then
proved. The kernel is a script of replies, callbacks are oracles, clocks are parameters.

| file | models |
|---|---|
| `Semphore.dfy` | the semaphore at condition-variable level, with barging and spurious wake-ups |
| `ThreadPool.dfy` | workers, producers and shutdown over that semaphore |
| `TaskSync.dfy` | `sync` and `sync_first` |
| `AsyncLogWriter.dfy` | the asynchronous log writer |
| `Deque.dfy` | the order that `push_back`, `push_front` and `pop_front` give to a shared deque |
| `PollerTasks.dfy` | the poller's task queue, its pipe and its shutdown |
| `DelayTasks.dfy` | the multimap of delay tasks and `scheduleDelayTask` |
| `Timer.dfy` | repeating timers over whole runs, with passes cut open at every callback |
| `TaskCancelable.dfy`, `StampClock.dfy` | cancellable tasks; the program clock |
| `Registration.dfy` | event records, the kernel's interest set and the closing of descriptors |
| `BufferSock.dfy`, `Socket.dfy`, `SendHistory.dfy` | the two-level send cache, one call at a time and over any history |
| `SendProtocol.dfy`, `SendOrder.dfy`, `SendRuns.dfy` | the same send side with users, poller, binding and closing interleaved: the flag, the bytes, and runs from the start |
| `ThreadLoadCounter.dfy` | the load counter |

## What the proofs say about the code

Properties that the comments promise and the code keeps only under a condition. For each, the condition is
proved to be exact, over all runs or inputs, and a run or an input that violates it is given.

- As wired, nothing is ever sent: `onWritable` is empty (`avctool/network/Socket.cc:452-454`), so nothing raises
  `sendable_`. The comments at `avctool/network/Socket.cc:229-234` say that `sendable_` starts true; it starts
  false, and the code is followed. The poller's flush is modelled as the step that `avctool/network/Socket.h:149-175`
  describes.
- `startWritableEvent` calls for the write interest before `flushData` stores its rest. A write event in that
  window lets newer bytes overtake, overwrite or strand older ones. The comment that two flushes never run at
  once is right about sending, but not about storing. `SendProtocol.ProtocolIff`, `SendOrder.OrderKeptIff`,
  `SendOrder.OverwritesIff` and `SendOrder.CollisionIff` say exactly when.
- Binding a socket again while the poller is inside a flush of it can leave the flag up with write events on, and
  can make `stopWritableEvent` use a descriptor that is gone. `SendProtocol.InterestAgreesIff` and
  `SendRuns.FaultIff` say exactly when.
- `BufferSendTo::send` repeats on EAGAIN and reports a hard error after the first byte as a success, so
  `flushData`'s EAGAIN branches are dead, and a hard error in the middle of a list is forgotten.
- `send_l` returns -1 both for "lost" and for "queued, the poller is in charge".
- A semaphore with a negative initial count lets waits through.
- A callback that leaves a deadline at or before the sampled time makes `scheduleDelayTask` return a value that is
  not positive, on which the loop blocks without a timeout. One `addDelayTask(0, ...)` from a callback is enough.
  So is a wait of 2^31 ms, about 25 days, which is negative as the int that `epoll_wait` takes.
- Two calls of a Timer can be closer than its period, by as much as the earlier one was late in its pass; the
  times sampled by the passes are never closer, unless two starts crowd each other.
- `Timer::start` tests `delay_task_`, posts, and stores it afterwards, without a lock. Two starts at once leave two
  live delay tasks, and a `stop` between posting and storing, from another thread or a callback, cancels
  nothing: `Timer.OneLiveIff` and `Timer.StopCancelsAllIff`.
- The log writer's `exit` and the pool's `shutdown` drop entries and jobs; which ones, exactly, is stated.
- `load` reads the clock before it takes its lock (`avctool/thread/ThreadLoadCounter.cc:93-94`). If the thread
  changes its state in between, the unsigned open interval wraps and the result can be any number;
  `ThreadLoadCounter.HistoryInRangeIff` says exactly when.
- While sleeping, `load` counts from the last wake-up, and while running from the last falling asleep, so the last
  sample is counted twice, the second time as the opposite kind.
- A call of a cancelled task's `operator()` still starts the body while an earlier call is running.
- A descriptor detached from another thread is closed before the detach runs; if its number comes back in
  between, the new registration is taken away.

## Model

| member | source | states |
|---|---|---|
| Semphore.StepKeepsInv | avctool/util/Semphore.h:21-61 | every step of a waiter or poster keeps: while somebody sleeps un-notified, the count is at most the number of notified threads |
| Semphore.StepKeepsBalance | avctool/util/Semphore.h:21-61 | every step keeps count + completed waits - posted, and never makes a non-negative count negative |
| Semphore.WakeupInvariant | avctool/util/Semphore.h:21-61 | both over any run of any threads, with barging and spurious wake-ups |
| Semphore.QuietMeansNoPermit | avctool/util/Semphore.h:21-37 | if somebody sleeps and no notification is out, there is no permit, and all that were posted have been taken |
| Semphore.NeverOverdrawnIff | avctool/util/Semphore.h:16-37 | completed waits never exceed initial count plus posted, in all runs, iff the initial count is not negative |
| Semphore.NotifiedThreadsClaimPermits | avctool/util/Semphore.h:29-36 | in whatever order notified threads resume, exactly min(permits, notified) of them return, and none is left asleep beside a permit |
| Semphore.RefinesCountingSemaphore | avctool/util/Semphore.h:10-61 | each step is an atomic post, the taking of one available permit, or invisible |
| Semphore.Semphore.constructor | avctool/util/Semphore.h:16 | the initial state |
| Semphore.Semphore.Wait | avctool/util/Semphore.h:21-37 | one turn of `wait` is the machine's Enter or Resume and returns iff the thread did not go to sleep |
| Semphore.Semphore.Post | avctool/util/Semphore.h:46-61 | wakes one sleeper for n = 1 and all otherwise, and is the machine's Post |
| ThreadPool.StepKeepsInv | avctool/thread/ThreadPool.h:69-141 | every step keeps placement of the workers, permit accounting, the semaphore's invariant and the shutdown guarantee |
| ThreadPool.InvAlways | avctool/thread/ThreadPool.h:69-141 | and so does every run |
| ThreadPool.WokenWorkerFindsTask | avctool/thread/ThreadPool.h:111-131 | before shutdown posts, queued jobs = count + workers about to pop + producers about to post, so a woken worker always finds a job |
| ThreadPool.NoJobBesideSleepers | avctool/thread/ThreadPool.h:75-81 | a worker sleeps beside queued jobs only if each of them has a worker about to pop, unless a notification or a post is under way |
| ThreadPool.StepLine | avctool/thread/ThreadPool.h:76-95 | only submitting changes the hand-out order; `async_first` overtakes queued jobs and never one that was taken |
| ThreadPool.LineGrows | avctool/thread/ThreadPool.h:69-141 | over any run the hand-out order is what the pushes make of it, and what was taken stays taken |
| ThreadPool.JobsConserved | avctool/thread/ThreadPool.h:69-141 | taken and queued jobs are, with multiplicity, those submitted |
| ThreadPool.SubmissionOrder | avctool/thread/ThreadPool.h:69-82 | without `async_first` jobs are handed out in submission order |
| ThreadPool.EachJobTakenOnce | avctool/thread/ThreadPool.h:125-132 | no job goes to two workers |
| ThreadPool.ReleaseFrees | avctool/thread/ThreadPool.h:99-101 | posting one permit per thread wakes every sleeper and covers every worker that will still wait |
| ThreadPool.WorkerStepCounts | avctool/thread/ThreadPool.h:111-140 | after that each worker step lowers the measure by exactly one |
| ThreadPool.WorkerCanMove | avctool/thread/ThreadPool.h:99-112 | and while a worker is left, a worker step is possible |
| ThreadPool.ShutdownTerminates | avctool/thread/ThreadPool.h:99-112 | over any run after the permits are out: steps taken plus measure left is constant, zero means all have left, and no state is stuck before |
| ThreadPool.ShutdownDropsSurplus | avctool/thread/ThreadPool.h:99-140 | the jobs left behind are exactly those beyond the workers that were past their loop test when `exit_` was set |
| ThreadPool.ShutdownMayDropAJob | avctool/thread/ThreadPool.h:99-140 | a run in which a job that was submitted and posted is dropped |
| ThreadPool.Pool.constructor | avctool/thread/ThreadPool.h:39-52 | an empty queue, no permit, all workers at the loop test |
| ThreadPool.Pool.Push | avctool/thread/ThreadPool.h:75-95 | the locked block of `async` and `async_first` is the machine's Submit |
| ThreadPool.Pool.PostOne | avctool/thread/ThreadPool.h:80 | the post is the machine's Posted |
| ThreadPool.Pool.LoopTest | avctool/thread/ThreadPool.h:111 | goes on iff `exit_` is not set |
| ThreadPool.Pool.Wait | avctool/thread/ThreadPool.h:122 | one turn of `sem_.wait()` inside the pool |
| ThreadPool.Pool.Take | avctool/thread/ThreadPool.h:125-131 | takes the front job; finds none only after shutdown has posted |
| ThreadPool.Pool.SetExitFlag | avctool/thread/ThreadPool.h:100 | the machine's SetExit |
| ThreadPool.Pool.PostAll | avctool/thread/ThreadPool.h:101 | the machine's Release |
| TaskSync.StepKeepsInv | avctool/thread/TaskExecutor.h:43-69 | each step keeps: a permit exists iff the task is over and the caller has not returned |
| TaskSync.SleeperIsNotified | avctool/thread/TaskExecutor.h:43-55 | a caller asleep when its task ends has been notified |
| TaskSync.SyncWaitsForItsTask | avctool/thread/TaskExecutor.h:43-69 | `sync` returns only after its task; on the executor's own thread it never sleeps, and leaves by the exception iff the task threw; a caller in `wait` can go on iff its task is over, thrown or not |
| AsyncLogWriter.StepKeepsInv | avctool/log/Log.h:218-256 | every step keeps order and content of the entries, and a permit for each waiting one |
| AsyncLogWriter.InvAlways | avctool/log/Log.h:218-256 | and so does every run |
| AsyncLogWriter.DeliveredIsPrefix | avctool/log/Log.h:218-243 | the channels see a prefix of what was accepted; a waiting thread with entries pending has a permit free or about to be posted |
| AsyncLogWriter.ExitDeliversAllIff | avctool/log/Log.h:226-256 | everything accepted is delivered before the thread leaves iff, when `exit_` was set, nothing was pending or the thread was between its test and its swap |
| AsyncLogWriter.ExitMayDropAnEntry | avctool/log/Log.h:226-256 | a run in which an accepted entry is dropped |
| AsyncLogWriter.Writer.constructor | avctool/log/Log.h:206-209 | the initial state |
| AsyncLogWriter.Writer.WriteLog | avctool/log/Log.h:218-224 | appends under the lock and posts |
| AsyncLogWriter.Writer.SwapOut | avctool/log/Log.h:231-237 | takes the whole list, or continues if it is empty |
| AsyncLogWriter.Writer.WriteOut | avctool/log/Log.h:239-241 | hands the whole swapped list to the channels, in order |
| AsyncLogWriter.Writer.Exit | avctool/log/Log.h:251-252 | sets the flag and posts |
| Deque.LineUp | avctool/poller/EventPoller.cc:264-285 | a push adds exactly its item and leaves what is fixed in place |
| Deque.GrowKeepsAll | avctool/poller/EventPoller.cc:264-285 | any number of pushes at either end keeps every element, once for each push |
| Deque.BackKeepsOrder | avctool/poller/EventPoller.cc:264-267 | pushes at the back only keep the order of the pushes |
| PollerTasks.NoLostWakeup | avctool/poller/EventPoller.cc:258-290 | in every interleaving a queued task means a byte in the pipe, a producer before its write, or a loop before its swap; so a poll with tasks queued and no producer under way can wake |
| PollerTasks.BlockedLoopDelivers | avctool/poller/EventPoller.cc:425-480 | from there the loop alone passes every queued task in order, however full the pipe is |
| PollerTasks.StepLine | avctool/poller/EventPoller.cc:264-288 | only posting changes the order; `async_first` overtakes queued tasks, never the swapped batch |
| PollerTasks.LineGrows | avctool/poller/EventPoller.cc:258-290 | over any run the order of the tasks is what the postings make of it, and what was passed stays passed |
| PollerTasks.TasksConserved | avctool/poller/EventPoller.cc:258-290 | posted = passed + current batch + queue, with multiplicity |
| PollerTasks.PostingOrder | avctool/poller/EventPoller.cc:258-273 | without `async_first` tasks are passed in posting order |
| PollerTasks.PassedAreRunOrSkipped | avctool/poller/EventPoller.cc:456-480 | passed = executed + skipped, with multiplicity |
| PollerTasks.SkippedWereCancelled | avctool/poller/EventPoller.cc:457 | only cancelled tasks are skipped |
| PollerTasks.CancelledNeverRuns | avctool/poller/EventPoller.cc:456-460 | a task cancelled before it is reached never runs |
| PollerTasks.OnlyPostedRuns | avctool/poller/EventPoller.cc:425-480 | what runs was posted |
| PollerTasks.RunsAtMostOnce | avctool/poller/EventPoller.cc:425-480 | no task runs twice |
| PollerTasks.QuitFinishesItsBatch | avctool/poller/EventPoller.cc:155-161 | once `Exit` is thrown, the loop passes exactly the rest of the batch that held it and stops |
| PollerTasks.StoppedMeansQuitRan | avctool/poller/EventPoller.cc:29 | the loop stops only after a live Exit task ran, with nothing left in its hands |
| PollerTasks.BatchIsWork | avctool/poller/EventPoller.cc:456-480 | the batch loop, with tasks that cancel and post, has a run of the machine that comes to exactly the specified work |
| PollerTasks.TaskQueue.constructor | avctool/poller/EventPoller.cc:323-335 | empty queue, empty pipe |
| PollerTasks.TaskQueue.Async | avctool/poller/EventPoller.cc:258-290 | on the loop thread with `may_sync` runs the task and queues nothing; else queues at either end and writes one byte |
| PollerTasks.TaskQueue.Drain | avctool/poller/EventPoller.cc:426-447 | reads until the pipe is empty or broken, and what is left then |
| PollerTasks.TaskQueue.OnPipeEvent | avctool/poller/EventPoller.cc:425-481 | passes the whole queue, runs in order exactly the tasks not cancelled when their turn comes, keeps what they post for the next time, and sets `exit_` iff one of them threw Exit |
| PollerTasks.TaskQueue.Execute | avctool/poller/EventPoller.cc:456-480 | one live task of the batch is executed: what it cancels and posts takes effect, and `exit_` is set if it threw Exit |
| PollerTasks.TaskQueue.Post | avctool/poller/EventPoller.cc:264-288 | what one running task posts |
| DelayTasks.EmplaceKeeps | avctool/poller/EventPoller.cc:306 | inserting keeps the deadline order and adds exactly one entry |
| DelayTasks.DueSplits | avctool/poller/EventPoller.cc:371 | the loop bound cuts the map into due and not due |
| DelayTasks.PassRunsTheLive | avctool/poller/EventPoller.cc:371-380 | a pass runs exactly the due tasks that are live at their turn, once per entry, in deadline order |
| DelayTasks.PassArrivals | avctool/poller/EventPoller.cc:373-379 | what a pass puts into the map is what the tasks that ran asked for and added |
| DelayTasks.ScheduleSpec | avctool/poller/EventPoller.cc:354-389 | new map = not due + re-armed at sampled time + delay + added by callbacks, ordered |
| DelayTasks.AfterEntries | avctool/poller/EventPoller.cc:368-383 | the same, entry by entry |
| DelayTasks.WhatComes | avctool/poller/EventPoller.cc:368-383 | and in terms of the map before and the replies of the tasks live at their turn |
| DelayTasks.CancelledLeaves | avctool/poller/EventPoller.cc:371-380 | an entry of a cancelled task that no callback adds anew is left iff it was there and not due: it goes at the first call past its deadline |
| DelayTasks.RemainingAheadIff | avctool/poller/EventPoller.cc:371-383 | all remaining deadlines exceed the sampled time iff every task that ran asked for nothing else, overflow included |
| DelayTasks.NextIsTimeToEarliest | avctool/poller/EventPoller.cc:385-389 | the result is the time to the earliest deadline if that lies ahead, zero iff there is none or it is now |
| DelayTasks.SleepsForeverOnPendingIff | avctool/poller/EventPoller.cc:34-44 | with the conversion to int: the loop blocks without end beside a pending delay task iff the earliest entry that the map and the replies of live tasks call for is not ahead, or so far ahead that the low half of the wait is negative as an int (for the select build: 2^63 ms ahead) |
| DelayTasks.NearDeadlinesSleepIff | avctool/poller/EventPoller.cc:34-44 | with deadlines less than 2^31 ms away, iff a task that ran left an entry at or before the sampled time |
| DelayTasks.NeverWakesLate | avctool/poller/EventPoller.cc:44 | a timeout never ends after the earliest deadline |
| DelayTasks.MonthStallsTheLoop | avctool/poller/EventPoller.cc:34-44 | a callback that asks for 30 days, with nothing else pending, makes the timeout negative |
| DelayTasks.ZeroDelayStallsTheLoop | avctool/poller/EventPoller.cc:34-44 | one added delay task with delay 0 does it |
| DelayTasks.DelayQueue.constructor | avctool/poller/EventPoller.cc:323-335 | an empty map |
| DelayTasks.DelayQueue.AddDelayTask | avctool/poller/EventPoller.cc:292-311 | takes clock + delay in 64-bit arithmetic; inserts at once on the loop thread, else goes to the front of the task queue; all other entries are kept |
| DelayTasks.DelayQueue.RunPosted | avctool/poller/EventPoller.cc:305-307 | a posted insertion runs |
| DelayTasks.DelayQueue.CallAndRearm | avctool/poller/EventPoller.cc:373-379 | one callback: its insertions, its cancellations, then its own next entry |
| DelayTasks.DelayQueue.RunDue | avctool/poller/EventPoller.cc:371-380 | the loop over the swapped-out map runs the specified pass and stops at the first entry not due |
| DelayTasks.DelayQueue.ScheduleDelayTask | avctool/poller/EventPoller.cc:354-389 | map, result, callbacks run and cancellations are those of the specification |
| Timer.StepKeepsInv | avctool/timer/Timer.cc:12-32 | every event but a crowding `start` keeps: one live delay task at most, one entry of it at most, a period away from its start or last firing |
| Timer.InvAlways | avctool/timer/Timer.cc:12-32 | and so does every run in which no `start` crowds another |
| Timer.NextKeepsPace | avctool/poller/EventPoller.cc:371-374 | an entry of the Timer that fires is the current one and a period has passed |
| Timer.ReturnKeepsInv | avctool/poller/EventPoller.cc:374-378 | a callback that returns its period comes back one period after the sampled time, also if the Timer was stopped or restarted meanwhile |
| Timer.TimerSpacing | avctool/timer/Timer.cc:12-32 | for any starts and stops with periods of at least p, from any thread and any callback, unless starts crowd: sampled firing times are at least p apart, t0 + n * p <= t for n calls up to t, at most one live delay task |
| Timer.OneLiveIff | avctool/timer/Timer.cc:12-32 | for any periods at all, zero and negative ones included, and calls from any threads: at most one delay task of the Timer is live throughout iff no `start` posts one while another is there or about to be stored |
| Timer.CrowdedStartsFireTwice | avctool/timer/Timer.cc:12-25 | for every period, the run in which two calls of `start` both find `delay_task_` null: the Timer fires twice at the same time, and only one of its delay tasks can be stopped |
| Timer.NegativePeriodGoesBack | avctool/timer/Timer.cc:16-23 | a negative period puts the entry behind the sampled time, which is what stalls the loop |
| Timer.CallSpacing | avctool/poller/EventPoller.cc:361-378 | calls are at least a period apart less the lag of the earlier one |
| Timer.LateCallShortensTheGap | avctool/poller/EventPoller.cc:361-378 | for every period and lag a run reaches that bound |
| Timer.UndisturbedPassIsSchedule | avctool/poller/EventPoller.cc:354-389 | with no Timer about and callbacks that take no time, the pass cut open at its callbacks has a run that does exactly what `scheduleDelayTask` is specified to do: the two models of it agree |
| Timer.StopCancelsAllIff | avctool/timer/Timer.cc:12-32 | `stop` leaves every delay task that the Timer ever created cancelled iff no `start` is between its posting and its assignment |
| Timer.StoppedInTheGapFires | avctool/timer/Timer.cc:12-32 | for every period, the run in which it is: the Timer fires after its last `stop`, with no later `start` |
| Timer.StoppedNeverFires | avctool/timer/Timer.cc:27-32 | with all of them cancelled nothing fires until a `start` posts the next, not even an entry already in a pass |
| Timer.Timer.constructor | avctool/timer/Timer.cc:34-36 | no delay task |
| Timer.Timer.Start | avctool/timer/Timer.cc:12-25 | uninterrupted, for any int: does nothing if a delay task is there, else test, posting and assignment follow each other and it creates the only live one |
| Timer.Timer.Stop | avctool/timer/Timer.cc:27-32 | outside a `start`: cancels and clears it, after which all delay tasks ever created are cancelled |
| TaskCancelable.CancelIsFinalIff | avctool/thread/TaskCancelable.h:77-103 | after cancel `operator bool` stays false, and no call starts the body iff no call comes while an earlier one is running |
| TaskCancelable.IdleCancelIsFinal | avctool/thread/TaskCancelable.h:77-103 | a task idle when cancelled never runs again |
| TaskCancelable.CallAfterCancelCanStart | avctool/thread/TaskCancelable.h:77-103 | the run in which a call after cancel starts the body |
| TaskCancelable.TaskCancelable.constructor | avctool/thread/TaskCancelable.h:65-69 | a live task |
| TaskCancelable.TaskCancelable.Cancel | avctool/thread/TaskCancelable.h:77-85 | drops the strong pointer |
| TaskCancelable.TaskCancelable.Enter | avctool/thread/TaskCancelable.h:97-103 | runs the body iff somebody still owns a non-empty function |
| TaskCancelable.TaskCancelable.Leave | avctool/thread/TaskCancelable.h:98-101 | a call gives its hold up |
| StampClock.TickAdvancesIff | avctool/util/Util.cc:240-247 | for which steps of the system clock the program clock moves, and when it goes back, for all 64-bit values |
| StampClock.ClockIsMonotoneIff | avctool/util/Util.cc:231-247 | for any readings, backward jumps included, it never goes back iff the accepted steps fit 64 bits, and then has grown by them |
| StampClock.GainBound | avctool/util/Util.cc:242 | it grows by less than a second per reading, which bounds how soon that can happen |
| StampClock.OrdinaryStepsIff | avctool/util/Util.cc:240-242 | the accepted steps are the ordinary forward ones iff no reading jumps back through almost all 64 bits |
| StampClock.SteadyClockIsExact | avctool/util/Util.cc:240-245 | without jumps it measures exactly the time that passes |
| StampClock.StampThread.constructor | avctool/util/Util.cc:228-230 | starts at zero |
| StampClock.StampThread.Loop | avctool/util/Util.cc:231-253 | after any number of readings the loop has published the clock of the specification and the last reading |
| Registration.ExecuteRefines | avctool/poller/EventPoller.cc:197-250 | each operation, failing or not, does to the records what it does to the plain map and keeps the interest set equal to the keys |
| Registration.RefinesPlainMap | avctool/poller/EventPoller.cc:197-250 | any mix of inline and deferred calls equals folding the operations in execution order, and the key set the interest set, if descriptors are closed after detaching |
| Registration.KeysAgreeIff | avctool/poller/EventPoller.cc:509-534 | with any closing, the two differ by exactly the descriptors closed while registered and not detached or attached since |
| Registration.RegistrationSurvivesIff | avctool/poller/EventPoller.cc:197-216 | over any run in which the descriptor is not closed, it is registered at the end iff the operations carried out decide so; those on it are, while everybody leaves it alone, the ones waiting in the queue at the start, in order |
| Registration.LastDecides | avctool/poller/EventPoller.cc:197-216 | the last of them that is a detach, or an attach not refused, decides: it is the attach iff registered |
| Registration.ReusedNumberLosesRegistration | avctool/network/Socket.h:52-86 | the run in which a reused number loses its new registration |
| Registration.EventRecords.constructor | avctool/poller/EventPoller.cc:323-335 | no registration |
| Registration.EventRecords.AttachEvent | avctool/poller/EventPoller.cc:509-534 | inline: recorded iff the kernel accepts; elsewhere: deferred, result 0; a negative descriptor is refused |
| Registration.EventRecords.ModifyEvent | avctool/poller/EventPoller.cc:218-250 | the record changes if there is one, whatever the kernel says |
| Registration.EventRecords.DetachEvent | avctool/poller/EventPoller.cc:197-216 | the record goes, whatever the kernel says |
| BufferSock.PushBounds | avctool/network/BufferSock.cc:33-81 | a send takes no more than there is, what is left is the rest, it uses replies in order, and stops short only on a hard error |
| BufferSock.AgainNeverEscapes | avctool/network/BufferSock.cc:57-62 | a send that returns -1 never leaves EAGAIN behind |
| BufferSock.PushUsesScript | avctool/network/BufferSock.cc:36-78 | a send of a non-empty list uses up a reply, so sending ends for every finite script |
| BufferSock.Kernel.SendTo | avctool/network/BufferSock.cc:40-47 | one call appends what was taken to the wire |
| BufferSock.BufferSendTo.constructor | avctool/network/BufferSock.cc:91-93 | everything pending |
| BufferSock.BufferSendTo.Advance | avctool/network/BufferSock.cc:65-72 | n bytes leave the front of the pending stream; the offset stays inside the front buffer |
| BufferSock.BufferSendTo.SendFront | avctool/network/BufferSock.cc:36-72 | one call on the front buffer moves exactly the accepted bytes from pending to the wire |
| BufferSock.BufferSendTo.Send | avctool/network/BufferSock.cc:33-81 | the bytes taken are the first n pending ones, n and the sizes of what is left as the kernel script determines; -1 iff none |
| Socket.PollerFlushOutcome | avctool/network/Socket.cc:142-265 | a poller flush sends everything unless the kernel reports a hard error, fails iff that comes before the first byte of one of the two lists, stalls otherwise, and uses replies only |
| Socket.UserFlushOutcome | avctool/network/Socket.cc:142-265 | a user flush completes its level, stalls after at least one byte, or sends nothing; the last two only on a hard error |
| Socket.FlushKeepsStream | avctool/network/Socket.cc:142-265 | on 0 wire ++ level two ++ level one is unchanged; on -1 wire and caches are a beginning and an end of it that do not overlap, so the only loss lies between them |
| Socket.FlushAgreesIff | avctool/network/Socket.cc:142-265 | for both callers and both values of the flag: a flush keeps level two, flag and interest in agreement iff it is not the poller's with the flag up where the kernel script stalls, as levels and script before it determine |
| Socket.FlushIsDetermined | avctool/network/Socket.cc:142-265 | result and everything left behind, sizes in level two and content of level one included, are determined by what was before, so the next flush can be computed from the specification |
| Socket.OnceThenFlush | avctool/network/Socket.cc:264 | a complete pass and the recursive flush after it compose to one flush |
| Socket.Socket.constructor | avctool/network/Socket.cc:308-313 | closed, nothing cached, not sendable |
| Socket.Socket.CloseSocket | avctool/network/Socket.cc:366-375 | not sendable, no descriptor, caches untouched |
| Socket.Socket.FromSockFd | avctool/network/Socket.cc:267-281 | attached with write events, or -1 and no record if the kernel refuses; not sendable, caches untouched |
| Socket.Socket.StartWritableEvent | avctool/network/Socket.cc:284-296 | flag down, interest up |
| Socket.Socket.StopWritableEvent | avctool/network/Socket.cc:297-306 | flag up, interest down |
| Socket.Socket.TakeHand | avctool/network/Socket.cc:143-176 | level two if it holds anything, else one list of the whole of level one |
| Socket.Socket.SendHand | avctool/network/Socket.cc:178-217 | the sending loop: result, what is left in hand, flag and interest for every kernel script |
| Socket.Socket.SendAndStore | avctool/network/Socket.cc:178-264 | with the final store: bytes moved, level two holds exactly the rest iff stalled, flag and interest, for both callers and both values of the flag |
| Socket.Socket.SendTaken | avctool/network/Socket.cc:176-264 | the same, tied to what was before the list was taken |
| Socket.Socket.FlushOnce | avctool/network/Socket.cc:142-264 | one pass of `flushData` |
| Socket.Socket.FlushData | avctool/network/Socket.cc:142-265 | the whole of it, with its recursion, for both callers and both values of the flag: result, wire, level two with the sizes of its buffers, level one, flag and interest are those of the specification; it terminates; level two holds at most one list, with unsent bytes |
| Socket.Socket.FlushAll | avctool/network/Socket.cc:86-102 | flushes iff open and sendable, else -1 and no change |
| Socket.Socket.SendL | avctool/network/Socket.cc:62-84 | ignores an empty buffer, queues any other behind everything, flushes on request; what -1 and the size mean |
| SendHistory.EventKeepsStream | avctool/network/Socket.cc:62-265 | one event adds what was accepted and loses at most what a failing flush drops |
| SendHistory.StreamOverHistory | avctool/network/Socket.cc:62-265 | over any history and script: the wire only grows, wire and caches hold accepted bytes in order and each once, and all of them if no flush returned -1 |
| SendProtocol.StepKeepsFlags | avctool/network/Socket.cc:267-306 | every step of users, poller and the binding or closing thread but a late raise keeps flag, record, queued calls and positions in agreement |
| SendProtocol.InterestAgreesIff | avctool/network/Socket.cc:267-306 | in every interleaving, binding and closing included and from any thread: the interest that the calls under way and queued lead to is the negation of `sendable_` in every state (but for the step that is about to call), and the flag is down while closed or being bound, iff the poller never raises the flag while the socket is closed, being closed or being bound; then at most one modify is pending and user and poller never send together |
| SendProtocol.StepKeepsProtocol | avctool/network/Socket.cc:86-102 | every step but a bad raise keeps the send-flag protocol |
| SendProtocol.ProtocolIff | avctool/network/Socket.cc:142-175 | over every run: agreement, and a raised flag means an empty second level with nobody about to store, in every state, iff the poller never raises the flag late, over a stored rest, or while a user is about to store one; then every user flush starts from an empty second level |
| SendProtocol.StepKeepsAttended | avctool/network/Socket.cc:62-102 | while users may flush, a byte no newer than the last send that asked for a flush has a flush coming |
| SendProtocol.NothingWaitsUnattended | avctool/network/Socket.cc:62-102 | for sends of both kinds: with no flush on its way, whatever waits in level two, or in level one from before the last send that asked for a flush, is the poller's, with write events on or about to be |
| SendOrder.StepKeepsOrder | avctool/network/Socket.cc:142-265 | every step that lets no byte pass an older one, failures and stores included, keeps wire, hands and levels in accepted order |
| SendOrder.PassingBreaksOrder | avctool/network/Socket.cc:176-191 | and every other breaks it at once |
| SendOrder.OrderKeptIff | avctool/network/Socket.cc:142-265 | over every run, hard errors, binding and closing included: the wire rises, is older than everything held, and everything held is in order, in every state, iff no step lets a byte pass an older one |
| SendOrder.OnlyTheWindowPasses | avctool/network/Socket.cc:195-199 | unless the flag is raised late, the only way to pass is a poller send between a user's modify call and its store, or after that store |
| SendOrder.StepConserves | avctool/network/Socket.cc:142-265 | each step leaves a byte in exactly as many places as before, less what a failing send or a store drops, plus what was accepted |
| SendOrder.OnlyFailuresAndStoresLose | avctool/network/Socket.cc:142-265 | over every run each accepted byte is in exactly one place or was lost once, with the list in hand of a failing send or by a store that found it in level two |
| SendOrder.OverwritesIff | avctool/network/Socket.cc:219-249 | over every run a final swap overwrites data iff two stores follow each other in the schedule with nobody taking level two in between |
| SendOrder.OnlyPartialSendsRisk | avctool/network/Socket.cc:219-249 | without a partial send in the window no store is ever due that would find something |
| SendOrder.CollisionIff | avctool/network/Socket.cc:219-249 | unless the flag is raised late, data is overwritten iff the poller sends part of a list in the window and the stores that follow meet |
| SendRuns.EveryRun | avctool/network/Socket.cc:62-306 | all of these equivalences for every run of a socket from before it is bound |
| SendRuns.Window | avctool/network/Socket.cc:195-199 | the window is reachable |
| SendRuns.WindowReordersAndLoses | avctool/network/Socket.cc:219-255 | a run that reorders and loses bytes without any error |
| SendRuns.WindowStrandsARest | avctool/network/Socket.cc:151-172 | a run that leaves a rest where nobody looks for it |
| SendRuns.RebindingRaisesLate | avctool/network/Socket.cc:267-306 | a run of binding again after which the flag is up and write events are on |
| SendRuns.FaultIff | avctool/network/Socket.cc:297-306 | the poller uses a null descriptor iff, in the schedule, it reaches `stopWritableEvent` after the dropping of one and before the setting of the next |
| SendRuns.ClosingMeetsStop | avctool/network/Socket.cc:297-306 | a run in which `stopWritableEvent` finds no descriptor |
| SendRuns.StepKeepsUnsent | avctool/network/Socket.cc:452-454 | with the empty `onWritable` no step sends a byte or raises the flag |
| SendRuns.NothingSentWithoutWriteEvents | avctool/network/Socket.cc:452-454 | as wired, nothing is ever sent and everything stays queued, however often the socket is bound |
| ThreadLoadCounter.KeepsLongestFit | avctool/thread/ThreadLoadCounter.cc:127-138 | for any samples and any reading of the clock, `load` keeps exactly the longest suffix whose 64-bit total with the open interval fits the window, or nothing |
| ThreadLoadCounter.LoadInRangeIff | avctool/thread/ThreadLoadCounter.cc:89-144 | for any samples and times below 2^63, with the totals in uint64_t: the result is between 0 and 100 iff the reading is no older than the start of the open interval, or the samples that fit a window longer by the lateness do not outlast it, or hold that much of the present kind, or (asleep) the time run in them does not stand out |
| ThreadLoadCounter.TotalsAreExactIff | avctool/thread/ThreadLoadCounter.cc:89-138 | after any history below 2^63 the uint64_t totals are the exact ones, whatever is dropped, iff the reading is no older than the start of the open interval |
| ThreadLoadCounter.LateLoadLeavesRange | avctool/thread/ThreadLoadCounter.cc:93-144 | a history of three transitions, and a `load` that read the clock before them, whose result is (2^64 - 2) * 100 / 993 |
| ThreadLoadCounter.StepMeasures | avctool/thread/ThreadLoadCounter.cc:36-138 | every call keeps the samples the lengths of disjoint stretches of time; a `load` may carry any reading |
| ThreadLoadCounter.StepAlternates | avctool/thread/ThreadLoadCounter.cc:36-138 | every call keeps the list alternating, ending with the kind that is over, and bounded; a `load` may carry any reading |
| ThreadLoadCounter.StepTiles | avctool/thread/ThreadLoadCounter.cc:36-138 | calls in turn keep the stretches adjacent; a `load` may carry any reading |
| ThreadLoadCounter.HistoryInvariant | avctool/thread/ThreadLoadCounter.cc:36-138 | all three over any sequence of calls, with any readings of `load`; the samples add up to no more than the time passed |
| ThreadLoadCounter.AlternatingCallsTile | avctool/thread/ThreadLoadCounter.cc:36-84 | with alternating transitions, and any number of `load`s with any readings, the samples tile an interval ending at the last transition |
| ThreadLoadCounter.OpenCountsLastSampleTwice | avctool/thread/ThreadLoadCounter.cc:104-109 | for any reading: the window counts the last sample twice, and is exact iff that sample is empty |
| ThreadLoadCounter.HistoryInRangeIff | avctool/thread/ThreadLoadCounter.cc:36-144 | after every history of calls from construction, in any order and with any readings of `load` among them, on a clock below 2^63: the result of a `load` with any reading is a percentage iff that condition holds |
| ThreadLoadCounter.ThreadLoadCounter.constructor | avctool/thread/ThreadLoadCounter.cc:8-12 | sleeping, no samples |
| ThreadLoadCounter.ThreadLoadCounter.OnSleep | avctool/thread/ThreadLoadCounter.cc:36-47 | the specified transition |
| ThreadLoadCounter.ThreadLoadCounter.OnWakeup | avctool/thread/ThreadLoadCounter.cc:72-83 | the specified transition |
| ThreadLoadCounter.ThreadLoadCounter.AddUp | avctool/thread/ThreadLoadCounter.cc:104-121 | the two totals in uint64_t are the time of each kind, modulo 2^64 |
| ThreadLoadCounter.ThreadLoadCounter.Load | avctool/thread/ThreadLoadCounter.cc:89-144 | list and ratio are those of the specified shedding in 64-bit arithmetic, which `LoadInRangeIff` and `TotalsAreExactIff` relate to the exact one |

## Left out

- Epoll masks: the mask macros of `avctool/poller/EventPoller.h:24-30` keep one bit only; masks follow the per-bit select build, and for epoll only the key sets are related.
- System calls and platform shims: epoll, select, pipes, sockets and their Windows branches are oracle results; a pipe that is full and blocks its writer is not modelled, nor one whose re-creation fails.
- TCP lists: `BufferSendMsg` is unfinished in the source, so the send side is the UDP list; addresses, reading and accepting have no invariant of their own.
- Socket.Socket.SendHand: straight code for the source's loop over the list in hand, which holds one list, as the invariant shows; `onFlushed` is an empty function and left out.
- BufferSock.BufferSendTo.Send: after the end of a kernel script every call fails with a hard error, so "EAGAIN for ever" is not modelled; the total is unbounded where the source has an int.
- Semphore.Semphore.Post: the count is unbounded; 32-bit overflow of `nn_` is not modelled. A notification for `n == 1` reaches some sleeper, which one is left open.
- DelayTasks.DelayQueue.ScheduleDelayTask: a callback's insertions and cancellations are one reply, and callbacks return; that they may take time and interleave is the subject of `Timer`, and `Timer.UndisturbedPassIsSchedule` connects the two. Exceptions from delay callbacks are not caught by the source and not modelled.
- Socket.Socket.StartWritableEvent: `interest` stands for what the record says once the calls made so far have run; that a call from another thread than the poller's is deferred is the subject of `SendProtocol`.
- Socket.Socket.FromSockFd: the same holds of an attach from another thread.
- SendProtocol.InterestAgreesIff: one thread at a time binds or closes, the kernel accepts the registration, and descriptor numbers are not reused; reuse is the subject of `Registration`.
- SendRuns.ClosingMeetsStop: what happens after a null descriptor is used is not modelled.
- PollerTasks.TaskQueue.Async: the push and the write of one producer that is not interrupted; interruptions are in the machine. Calls made before the loop thread exists count as inline in the source. `shutdown` called on the loop's own thread, and the join, are not modelled.
- Timer.OneLiveIff: `stop` is one step; a `stop` cut open between its test, its cancelling and its clearing by another thread's `start` or `stop` is not modelled.
- Timer.TimerSpacing: the clock stays below 2^63 ms; for negative periods there is no spacing to state, `Timer.NegativePeriodGoesBack` says what they do.
- StampClock.StampThread.Loop: the thread never ends in the source; here it ends after any finite number of readings.
- ThreadLoadCounter.ThreadLoadCounter.Load: the quotient is an integer division instead of `float`, whose rounding can change the last unit, and is not cut to an int, for which large values are undefined in the source.
- TaskSync.SyncWaitsForItsTask: a job of the thread pool that throws ends the program, because its loop does not catch; that is not modelled.
- ThreadLoadCounter.HistoryInvariant: the clock does not run backwards between the thread's own transitions, on which `StampClock.ClockIsMonotoneIff` is exact; `load` may carry any reading.
- Registration.EventRecords.AttachEvent: the event loop's own detaching of unknown descriptors is an inline Detach; file descriptors are not shared between pollers.
- C++ memory order: steps are atomic and sequentially consistent, including `exit_` of the log writer, which the source shares without a lock.
- Easy parts: load balancing between executors, DNS cache, error tables, log formatting and channels, thread naming, buffer memory.
