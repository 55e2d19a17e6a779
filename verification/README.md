# gokue in Dafny

gokue is an in-process job queue for Go. This project models its three hard parts and proves
what they promise:

1. **The dispatcher as a concurrent protocol** (`Dispatcher*.dfy`, `Execute.dfy`, `Stats.dfy`). Any
   number of `Submit`, `TrySubmit`, `CloseWithMode` and `Stats` calls interleave with
   `WorkerCount` worker goroutines over a bounded FIFO channel, a reader/writer lock, the
   `closed` flag, the `quit` signal, a wait group and six counters. One step is one lock, channel
   or counter operation, one outcome of a job, of the retry predicate or of a sleep, or one panic
   inside the dispatcher's own code. Whenever Go leaves a choice (a `select` with several ready
   cases, the scheduler, a job outcome) every choice is a step. One inductive invariant
   (`DispatcherInvariant.Inv`) is kept by every step; conservation, FIFO order, accounting and
   shutdown follow from it for every reachable state and every run.
2. **The backoff arithmetic** (`GoInts.dfy`, `PowersOfTwo.dfy`, `Float64.dfy`, `Backoff.dfy`).
   `retryDelay` computes in float64 what its comment specifies over integers. binary64 is modelled
   on naturals: round to nearest, ties to even, at 53 binary digits, +Inf on overflow (section
   4.3.1 of IEEE 754-2008).
3. **MemoryStore** (`Records.dfy`, `StoreModel.dfy`, `StoreHistory.dfy`, `MemoryStore.dfy`), in two
   layers: operations on a map, with theorems about whole histories of calls; and a class whose
   payloads are byte arrays and whose times are pointers, every method of which is proved to
   answer as the map model does, whatever the iteration order of the map and whatever the callers
   do with the records they passed in or got back.

## How the source is represented

- `Submit` and `TrySubmit` (dispatcher/dispatcher.go:133-202): `Dispatcher.SubmitEnabled`, `SubmitNext`, `SubmitApply`.
- `CloseWithMode` and `signalQuit` (dispatcher/dispatcher.go:100-104, 263-312): `CloseEnabled`, `CloseNext`, `CloseApply`.
- `worker`, `execute` and `runJob` (dispatcher/dispatcher.go:322-431): `WorkEnabled`, `BusyEnabled`, `WorkNext`, `BusyNext`,
  `CountWork`, `WorkApply`; and, as sequential code with its loops, `Execute.ExecuteTask` and `Execute.Drain`.
- `retryDelay` (dispatcher/dispatcher.go:445-481): `Backoff.RetryDelay`.
- `stats.Collector` (stats/stats.go:7-83): `Stats.Collector`; its loads interleaved with increments are `Dispatcher.Observer`.
- `MemoryStore` (backend/memory.go:16-239): `MemoryStore.MemoryStore`, specified by `StoreModel.Call`.
- `Config.Valid` is what the dispatcher needs of `Config.Validate` (config/config.go:146-152): at least one worker, a positive
  queue size. A negative `MaxRetries` is allowed, because the per-task one is never validated (gokue.go:27-31).
- The history fields of `Dispatcher.State` (`sent`, `received`, `finished`, `lost`, `calls`) only record what happened.
  `fault` is set by the three Go run-time panics the protocol could cause; `NoRunTimePanic` says it never is.

## Where the code and its documentation differ

The model follows the code.

- README.md:592-593 says rejected submissions increment `Dropped`. Rejections with `ErrClosed` do not
  (`DispatcherWitnesses.ClosedIsNotDropped`; exactly which ones do: `DispatcherSafety.SubmitAccounting`).
- `Close` is documented to return when its context ends (dispatcher/dispatcher.go:204-216). It does not look at the context
  while it waits for the write lock (`CloseWaitsIff` lists every point where it may wait). Two things can then keep it
  waiting for ever behind a `Submit` that is blocked on the full queue and holds the read lock: every worker has died of an
  internal panic (`CloseCanHang`, `HungForever`), or a task whose limit is the largest int is retried without end
  (`CloseCanStarve`). Without tasks of that limit only the first is left: every run comes to rest, and at rest every
  `Close` has returned if and only if the dispatcher is not hung (`EveryRunSettles`).
- `TrySubmit` is documented not to block (dispatcher/dispatcher.go:167). Behind a pending `Close` its RLock waits
  (`TryWaitsIff` says when), in a hung dispatcher for ever (`TrySubmitCanHang`, `HungForever`, `StuckTryMeansHung`).
- dispatcher/dispatcher.go:236-238 says that after an immediate Close workers finish their current attempt and stop
  instead of continuing to retry. The timer may win the select, and a non-positive delay never looks at quit: the signal
  rules no attempt out, and all that the limit leaves can follow (`AttemptAfterQuitIff`, `QuitWhileSleeping`).
- dispatcher/dispatcher.go:438 promises min(maxDelay, base * 2^attempt). The float64 result is that integer rounded to 53
  binary digits: equal if and only if it is representable, and above the cap for some caps over 2^53 ns (`ExponentialExactIff`,
  `CapHolds`, `CapFails`). From 2^63 - 512 ns on the conversion to an integer is out of range, for both exponential
  strategies: a base of 1 ns without a cap gets there at attempt 63 (`OutOfRangeIff`, `OutOfRangeExample`).
- dispatcher/dispatcher.go:437 promises base * (attempt + 1). A product from 2^63 on wraps (`LinearExactIff`,
  `LinearWrapsExample`).
- README.md:37 calls Stats an atomic snapshot and stats/stats.go:22 a point-in-time capture. The six loads are separate: a
  snapshot can show a task as processed but not as enqueued although no counter ever stood so (`SnapshotIsNotAnInstant`).
  It is the counters at one instant if none changed during the call (`QuietSnapshotIsAnInstant`).
- dispatcher/dispatcher.go:404 counts on the retries running out. With the largest int as limit, `attempt++` wraps and
  they never do (`NeverExhausted`); the attempt bounds are stated for every smaller limit (`Bounded`).
- backend/backend.go:89-90 says RequeueStale takes records older than the cutoff. One started exactly at the cutoff is
  taken too (`StoreHistory.RequeuedIff`).
- backend/backend.go:35-38 says writers cannot clobber each other. They can once an ID is deleted and saved again
  (`DeleteAndSaveDefeatFencing`), or after 2^64 changes (`Fencing`).

## Model

| member | source | states |
|---|---|---|
| DispatcherPreservation.StepKeepsInv | dispatcher/dispatcher.go:133-408 | Every step of every actor keeps the invariant: lock discipline, closing discipline, counter equations, FIFO, each task in exactly one place, attempt accounts, snapshot bounds. |
| DispatcherPreservation.RunsKeepInv | dispatcher/dispatcher.go:133-408 | So does every run, of any length and interleaving. |
| DispatcherPreservation.ReachableInv | dispatcher/dispatcher.go:109-128 | It holds in every state a new dispatcher can reach. |
| DispatcherSafety.Conservation | dispatcher/dispatcher.go:133-202 | The tasks sent are, as a multiset and as a count, the queue plus those held by workers plus Processed plus Failed plus lost; lost is at most the number of panicked workers, that at most WorkerCount; sent = Enqueued + submitters before the counter; RetryPredicatesFailed is at most Failed plus workers between the two counters. |
| DispatcherSafety.EndedWithinEnqueuedIff | dispatcher/dispatcher.go:155-158 | Processed + Failed <= Enqueued holds iff the submitters between send and counter are no more than the tasks queued, held or lost. |
| DispatcherSafety.EndedWithinEnqueued | dispatcher/dispatcher.go:155-158 | So it holds whenever no submitter is between the two, lost tasks included. |
| DispatcherSafety.NoRunTimePanic | dispatcher/dispatcher.go:147-156 | No interleaving sends on a closed channel, closes `tasks` or `quit` twice or takes the wait group below zero; outside the write lock `closed` holds iff the channel is closed; `quit` implies `closed`; a submitter past its `closed` check holds the read lock and finds the channel open. |
| DispatcherSafety.FirstInFirstOut | dispatcher/dispatcher.go:118-125 | Tasks received, then the queue, are the tasks sent, in order; the queue is bounded by QueueSize; with one worker tasks end in the order they were sent. |
| DispatcherSafety.SubmitAccounting | dispatcher/dispatcher.go:147-201 | Enqueued is the number of calls answered nil, Dropped of those answered ErrQueueFull or the ctx error; ErrClosed and nil arguments count nowhere; once all calls have returned the three classes add up to the calls made and Enqueued to the sends. |
| DispatcherAnswers.SubmitAnswer | dispatcher/dispatcher.go:133-202 | A nil ctx, then a nil job, is reported iff passed; ErrClosed only when closed; ErrQueueFull only from TrySubmit; a ctx error only from Submit, with its ctx ended. |
| DispatcherCalls.LoneSubmit | dispatcher/dispatcher.go:133-202 | A Submit or TrySubmit that runs alone while the lock is free stops after at most six steps where its arguments and the state put it: a nil-argument error, ErrClosed, nil, ErrQueueFull, the ctx error, or (Submit, full queue, live ctx) waiting; with exactly the effect of that answer on queue, counters and lock, and none on the rest. |
| DispatcherCalls.LoneTrySubmit | dispatcher/dispatcher.go:192-201 | In particular a TrySubmit on an open dispatcher: with room it returns nil, its task last in the queue and Enqueued one up; on a full queue ErrQueueFull, nothing sent and Dropped one up. |
| DispatcherCalls.GivesUpOnlyWhenFull | dispatcher/dispatcher.go:160-163 | In any interleaving, a TrySubmit gives up only while the queue is full and a Submit only once its ctx has ended; neither sends. |
| DispatcherCalls.CancelledSubmitReturns | dispatcher/dispatcher.go:160-163 | A blocked Submit whose ctx ends returns the ctx error by itself, counts as dropped, sends nothing and holds no lock. |
| DispatcherCalls.ArgumentsStay | dispatcher/dispatcher.go:133-312 | Through every run a call's arguments stay as they were passed, and a ctx that has ended stays so. |
| DispatcherOutcomes.SubmitSelectsAny | dispatcher/dispatcher.go:155-164 | With room and its ctx ended, a Submit may take either case of its select. |
| DispatcherAnswers.CloseAnswer | dispatcher/dispatcher.go:263-312 | A nil ctx, then an unknown mode, is reported iff passed; every other Close leaves `closed` set and the channel closed; a ctx error means a drain whose ctx ended; an immediate Close and a cancelled drain leave quit closed; a nil drain leaves no worker alive. |
| DispatcherAnswers.AcceptedIsExecuted | dispatcher/dispatcher.go:155-159 | Each task was accepted by Submit or TrySubmit exactly as often as it is in the queue, held, ended or lost, and a returned call was accepted iff it returned nil: rejected tasks never run, accepted ones never vanish or run twice. |
| DispatcherSafety.DrainedBalance | dispatcher/dispatcher.go:291-303 | When a drain Close returns nil every worker has exited; either the queue is empty or every worker panicked; Enqueued = queue + Processed + Failed + lost; without internal panics Enqueued = Processed + Failed exactly. |
| DispatcherSafety.SettledForever | dispatcher/dispatcher.go:150-153 | Once closed with all workers gone, no further calls of any kind move the queue, a counter or a worker. |
| DispatcherSafety.DrainIsFinal | dispatcher/dispatcher.go:213-213 | So the balance at a nil drain Close holds in every later state. |
| DispatcherSafety.AbandonedOnlyAfterQuit | dispatcher/dispatcher.go:389-399 | A task is abandoned only after an immediate Close or a drain whose ctx ended signalled quit, and only with a positive base delay. |
| DispatcherSafety.NothingAbandoned | dispatcher/dispatcher.go:349-407 | Without such a Close every counted task ended by success, by a refusal of a predicate of the task or the configuration, or after exactly limit + 1 attempts, the limit being the task's own if it has one and the configured one otherwise; with the largest int as limit, by one of the first two. |
| DispatcherSafety.NeverExhausted | dispatcher/dispatcher.go:364-364 | With the largest int as limit a task never runs out of retries. |
| DispatcherSafety.AttemptAccounting | dispatcher/dispatcher.go:349-407 | With no task held or lost: Process calls + abandoned tasks + tasks never called = Retried + Processed + Failed; the tasks never called are exactly those with a negative limit. |
| DispatcherOutcomes.CountersMeanOutcomes | dispatcher/dispatcher.go:367-399 | Over any run, Processed is the number of Process calls that returned nil, never of one that failed or panicked; RetryPredicatesFailed the number of refusals; the abandoned tasks those whose sleep saw quit (each but for those not yet counted). |
| DispatcherOutcomes.JobsEndAnyWay | dispatcher/dispatcher.go:367-376 | A job may return nil, fail or panic, and only nil is a success; after a failure the task may be refused iff it or the configuration has a predicate. |
| DispatcherOutcomes.PanicKillsWorker | dispatcher/dispatcher.go:322-335 | A worker can be lost exactly where the dispatcher's own code runs (log calls, predicate, delay); it leaves, its task is counted nowhere and lost. |
| DispatcherOutcomes.SleepSelectsAny | dispatcher/dispatcher.go:390-399 | A sleeping worker may see its timer, and quit iff it is closed. |
| DispatcherOutcomes.DrainSelectsAny | dispatcher/dispatcher.go:299-310 | A drain whose ctx has ended may return nil or the ctx error once the workers are gone. |
| DispatcherDelays.WorkerWaitsAsDocumented | dispatcher/dispatcher.go:384-391 | In any reachable state, a worker that waits after n failed attempts may wait ns iff ns is as documented for n, the base delay of the task or else the configuration, the configured cap and strategy: base; base * n; min(cap, base * 2^(n-1)); anything below that; 0 without a positive base (Linear while it fits 63 bits, exponential up to 2^53 ns). |
| DispatcherDelays.ExecWaitsAsDocumented | dispatcher/dispatcher.go:384-391 | The sequential code waits by the same formulas. |
| DispatcherSafety.AttemptBound | dispatcher/dispatcher.go:349-385 | Whether counted, lost or held, a task has made at most max(0, limit + 1) attempts and max(0, limit) retries, and exactly that many when they ran out; the limit, the base delay that lets it be abandoned and the predicate that refuses it are the task's own before the configured ones. |
| DispatcherSafety.SnapshotBounds | stats/stats.go:74-83 | Whatever increments interleave with the six loads, each field, by name, lies between its counter at the start and at the end of the call. |
| DispatcherSafety.QuietSnapshotIsAnInstant | stats/stats.go:74-83 | A field whose counter did not change during the call is that counter; if none changed the snapshot is the counters at one instant. |
| DispatcherWitnesses.SnapshotIsNotAnInstant | stats/stats.go:22-23 | Reachable: a snapshot with one task processed and none enqueued, although the Submit had counted and returned before the task was received. |
| DispatcherSafety.SnapshotsMonotone | stats/stats.go:74-83 | A snapshot begun after another has completed is at least as large in every field. |
| DispatcherSafety.SnapshotAfterDrain | dispatcher/dispatcher.go:315-317 | A snapshot begun after a nil drain Close is exactly the six final counters, field by field, so balanced if no worker panicked. |
| DispatcherWitnesses.ProcessedBeforeEnqueued | dispatcher/dispatcher.go:156-157 | Processed > Enqueued is reachable: the send precedes its counter. |
| DispatcherWitnesses.ClosedIsNotDropped | dispatcher/dispatcher.go:150-153 | A Submit or TrySubmit answered ErrClosed with Dropped still 0 is reachable. |
| DispatcherQuit.AttemptsAreBounded | dispatcher/dispatcher.go:364-402 | In every run, whatever the other actors do, a held task is attempted at most CallsLeft more times: what its limit leaves, 0 once its end is settled. |
| DispatcherQuit.AllAttemptsPossible | dispatcher/dispatcher.go:384-401 | That bound is reached by the worker alone, whether quit is closed or not. |
| DispatcherQuit.AttemptAfterQuitIff | dispatcher/dispatcher.go:389-399 | Once quit is closed, a held task can be attempted again iff CallsLeft > 0: the signal itself rules no attempt out. |
| DispatcherQuit.QuitWhileSleeping | dispatcher/dispatcher.go:284-289 | Reachable: an immediate Close has returned, and a worker sleeps with an attempt left. |
| DispatcherShutdown.StepLowersMeasure | dispatcher/dispatcher.go:276-408 | Once `closed` is set, every step of a worker, of a pending call or of a snapshot lowers a measure; attempts left plus attempts made never grow. |
| DispatcherShutdown.ShutdownIsBounded | dispatcher/dispatcher.go:332-402 | From a closed state every run, with any new calls and cancellations, has at most RemainingCalls further attempts (those left to queued and held tasks), at most WorkLeft worker steps, and at most Measure steps in all plus a constant per new call. |
| DispatcherProgress.RunIsBounded | dispatcher/dispatcher.go:133-408 | From any state, closed or not, with limits below the largest int: every run has at most OpenCalls further attempts, OpenWorkLeft worker steps and OpenMeasure steps in all, plus what each new call adds. |
| DispatcherProgress.EveryRunSettles | dispatcher/dispatcher.go:276-311 | So, whichever enabled steps are chosen and whatever is called or cancelled, after that many steps nothing can move; at rest every Close has returned iff the dispatcher is not hung, and if one got the write lock everything has ended. |
| DispatcherProgress.EveryShutdownFinishes | dispatcher/dispatcher.go:332-408 | In particular from a closed state without new calls: after Measure steps every worker and waiting goroutine is gone and every call has returned; before that, either so or some step is enabled. |
| DispatcherProgress.AttemptWraps | dispatcher/dispatcher.go:364-385 | With the largest int as limit, the attempt of that number is followed by the most negative one, whose failure is retried like any other. |
| DispatcherProgress.EndlessRetries | dispatcher/dispatcher.go:364-402 | A held task whose limit is the largest int and whose end is not settled can be retried for any number of steps while nobody else moves. |
| DispatcherProgress.CloseCanStarve | dispatcher/dispatcher.go:276-276 | Reachable: a Close whose ctx has ended waits for the lock behind a blocked Submit, and for any n the only worker can take n more steps with every Close as it was. |
| DispatcherShutdown.RestsOnlyWhenDone | dispatcher/dispatcher.go:286-303 | A closed dispatcher can come to rest only with every worker and every goroutine that waits for the workers gone and every Submit, Close and Stats call returned. |
| DispatcherShutdown.ShutdownCompletes | dispatcher/dispatcher.go:332-408 | From every closed state some run, with no help from any context, leads to all workers gone and every call returned. |
| DispatcherHang.StuckCloseMeansHung | dispatcher/dispatcher.go:276-281 | A state of rest in which a Close has not returned is hung: that Close waits for the write lock, every worker died of a panic, and a Submit with a live context is blocked on the full queue, inside the read lock. States that are not at rest are the subject of DispatcherProgress. |
| DispatcherHang.StuckTryMeansHung | dispatcher/dispatcher.go:184-193 | So is a state of rest in which a TrySubmit has not returned: it waits for the read lock behind the pending Close. |
| DispatcherHang.TryWaitsIff | dispatcher/dispatcher.go:184-201 | A TrySubmit that has not returned cannot move iff it is about to take the read lock while a Close holds the write lock or waits for it. |
| DispatcherHang.CloseWaitsIff | dispatcher/dispatcher.go:276-311 | A Close that has not returned cannot move iff it waits for the write lock behind another Close or behind readers, or, its ctx not ended, for workers still alive. |
| DispatcherHang.HungForever | dispatcher/dispatcher.go:276-276 | From a hung state no run, before the blocked submitter's ctx ends, lets a Close that waits for the lock return, its own ctx cancelled or not, nor a Submit or TrySubmit that waits for the read lock. |
| DispatcherHang.CloseCanHang | dispatcher/dispatcher.go:155-164 | A hung state is reachable: a concrete run with one worker and a queue of one. |
| DispatcherHang.TrySubmitCanHang | dispatcher/dispatcher.go:170-185 | ... and a TrySubmit that comes next waits as well. |
| Execute.ExecuteTask | dispatcher/dispatcher.go:345-408 | The attempt loop returns the record given by the recursive specification, within the bounds of its outcome and of the task's own settings before the configured ones, and moves the 64-bit counters by exactly that record. |
| Execute.ExecOutcome | dispatcher/dispatcher.go:364-407 | Every attempt before the last failed, was not refused and was not cut short; the last one is what the outcome says: it returned nil, failed and was refused, failed and its sleep saw quit, or failed as the last allowed. |
| Execute.Attempt | dispatcher/dispatcher.go:364-402 | One iteration returns iff the task ends in it, with the record of the whole specification and its counter changes; otherwise it counts at most one retry and the specification of the next attempt is the same. |
| Execute.ExecRecordOk | dispatcher/dispatcher.go:364-407 | Whatever the environment, the specification's calls and retries fit its outcome: success or refusal, retries = calls - 1; abandonment, retries = calls; exhaustion, exactly maxRetries + 1 calls. |
| Execute.Drain | dispatcher/dispatcher.go:332-334 | A worker on a closed channel executes every remaining task once, in order, and tallies each once. |
| Execute.TallyAllSums | dispatcher/dispatcher.go:369-406 | Over a drain, Processed grows by the successes, Failed by the rest, Retried by the sum of the retries, RetryPredicatesFailed by the refusals, modulo 2^64; nothing else moves. |
| Execute.TrySubmitAll | dispatcher/dispatcher.go:192-201 | TrySubmit of a list with no worker running: the first QueueSize tasks are queued and counted, the rest dropped and counted. |
| Execute.SubmitThenDrain | stats/stats.go:74-83 | A whole sequential run: those first tasks are executed in order, and the final snapshot has Enqueued = Processed + Failed and every counter equal to the sum over the records, modulo 2^64. |
| Execute.ExecutionIsARun | dispatcher/dispatcher.go:364-407 | From the loop condition after any number of failures, steps inside execute lead to the record and counters of the specification. |
| Execute.ExecuteRefinesSteps | dispatcher/dispatcher.go:345-408 | In any dispatcher state, the sequential execution of a received task is a run of that worker alone, with the same record and the same counter changes. |
| Stats.Collector.IncRetryPredicatesFailed | stats/stats.go:69-71 | Adds one modulo 2^64 to that counter and leaves the other five (likewise the other five methods). |
| Float64.Round53Nearest | dispatcher/dispatcher.go:460-460 | No 53-digit number is nearer than the rounded one, and a tie goes to the even significand. |
| Float64.Round53Exact | dispatcher/dispatcher.go:460-460 | Rounding keeps a number iff it is representable with 53 digits. |
| Float64.Round53Scale | dispatcher/dispatcher.go:460-460 | Rounding commutes with scaling by a power of two, so base * 2^attempt is rounded once. |
| Backoff.ExpFloatIsRounded | dispatcher/dispatcher.go:460-463 | Capped or not, the float64 value is the documented integer rounded once, +Inf exactly from 2^1024 on. |
| Backoff.ExponentialIsRounded | dispatcher/dispatcher.go:458-464 | Exponential is the documented integer rounded to 53 digits; the conversion is out of range exactly when that is at least 2^63. |
| Backoff.OutOfRangeIff | dispatcher/dispatcher.go:464-476 | With either exponential strategy the conversion is out of range iff min(maxDelay, base * 2^attempt) is at least 2^63 - 512. |
| Backoff.OutOfRangeExample | dispatcher/dispatcher.go:464-476 | A base of 1 ns without a cap is out of range at attempt 63. |
| Backoff.ExponentialExactIff | dispatcher/dispatcher.go:458-464 | Exponential equals min(maxDelay, base * 2^attempt) iff that integer is representable and below 2^63. |
| Backoff.ExponentialExactUnderCap | dispatcher/dispatcher.go:458-464 | With a cap in (0, 2^53] ns it is exact for every base and attempt, overflow to +Inf included, and within the cap. |
| Backoff.ExponentialNearCap | dispatcher/dispatcher.go:461-464 | With any positive cap the delay is within 512 ns of the documented value and of the cap, and undefined only for caps that round to 2^63. |
| Backoff.CapHolds | dispatcher/dispatcher.go:461-463 | The cap is respected for all bases and attempts when it does not round up ... |
| Backoff.CapFails | dispatcher/dispatcher.go:461-463 | ... and exceeded, or the conversion out of range, for some base when it does: together, exactly when. |
| Backoff.SmallCapHolds | dispatcher/dispatcher.go:461-463 | No cap below 2^53 + 3 ns rounds up ... |
| Backoff.CapFailsExample | dispatcher/dispatcher.go:461-463 | ... and that cap is exceeded by one. |
| Backoff.ExponentialMonotone | dispatcher/dispatcher.go:458-464 | While in range the delay never falls as attempts go up; once out of range it stays out of range. |
| Backoff.JitterBelowExponential | dispatcher/dispatcher.go:466-476 | While the conversion is in range Int63n is called with a positive argument, the Exponential delay, and the result is in [0, that) and takes every value there; otherwise the documented integer is at least 2^63 - 512 and nothing is specified. |
| Backoff.JitterUnderCap | dispatcher/dispatcher.go:439-439 | With a cap in (0, 2^53] ns the jittered delay is in [0, min(maxDelay, base * 2^attempt)). |
| Backoff.LinearExactIff | dispatcher/dispatcher.go:454-456 | Linear is base * (attempt + 1) iff that product fits 63 bits. |
| Backoff.LinearWrapsExample | dispatcher/dispatcher.go:454-456 | A base of 2^62 ns wraps at the second retry to -2^63, so there is no wait. |
| Backoff.LinearIncreasing | dispatcher/dispatcher.go:437-437 | It is positive and strictly increasing up to such an attempt. |
| Backoff.StrategiesOrdered | dispatcher/dispatcher.go:436-438 | Uncapped and up to 2^53 ns, Constant = base <= Linear <= Exponential, all equal at the first retry. |
| Backoff.WaitsIff | dispatcher/dispatcher.go:446-480 | Without jitter, and while a Linear product fits 63 bits: the delay is unspecified iff Exponential is out of range, and otherwise never negative, and positive iff the base is positive and the strategy known. |
| GoInts.IncrementsReturn | backend/memory.go:103-103 | A version is back at its value exactly after a multiple of 2^64 increments. |
| Records.SortedUnique | backend/memory.go:168-173 | A sequence strictly sorted by (CreatedAt, ID) is determined by its elements. |
| Records.BeforeIff | backend/memory.go:87-91 | The order of the records is: smaller CreatedAt, or equal CreatedAt and an ID that is a proper prefix of the other or has the smaller byte at the first difference. |
| StoreModel.CallKeepsValid | backend/memory.go:16-20 | Every call keeps each map key equal to its record's ID and every stored record normal. |
| StoreAnswers.RefusedIff | backend/memory.go:30-216 | A call is refused with an error iff it has that error's cause, in the source's order of checks (ctx, negative lease, closed, then the ID, the version or the lack of pending records), and then changes nothing. |
| StoreAnswers.SaveStores | backend/memory.go:40-50 | A saved record keeps every field as passed, but for no status (pending), no version (1) and an empty payload (none); nothing else changes. |
| StoreAnswers.UpdateStores | backend/memory.go:119-128 | An updated record keeps every field as passed, at the next version; nothing else changes. |
| StoreAnswers.DeleteRemoves | backend/memory.go:142-146 | A deleted ID is not found, by Get or Delete, until it is saved again, whatever else is called; every other record is as before. |
| StoreAnswers.ClosedRefuses | backend/memory.go:214-223 | After Close every later call but Close is refused, with ErrStoreClosed if its own ctx is live and its lease not negative. |
| StoreHistory.InOrderSorted | backend/memory.go:161-173 | The model's listing is sorted and holds exactly the matching records. |
| StoreHistory.ListIsUnique | backend/memory.go:150-178 | Any sorted sequence of exactly the matching records, cut to the limit, is what List returns; sorted means created earlier, or at the same time with the ID whose bytes come first. |
| StoreAnswers.ListAnswers | backend/memory.go:150-178 | List returns stored records of the wanted status, or of every status if none is given, the earlier created first and the smaller ID at equal times; all of them without a limit, otherwise the first ones up to it. |
| StoreHistory.ClaimsDrainInListOrder | backend/memory.go:83-105 | n consecutive Claims return the first n pending records in List order, each once and claimed, then find nothing, whatever the clock reads. |
| StoreHistory.ClaimsMatchList | backend/memory.go:161-177 | The first k Claims are exactly List(pending, limit k), claimed. |
| StoreHistory.VersionCountsMutations | backend/memory.go:102-127 | Over any history that does not delete the record, its version has been incremented exactly once per successful Claim, Update or RequeueStale of it, and with none the record is unchanged. |
| StoreHistory.AttemptsCountClaims | backend/memory.go:102-102 | Over any history that neither updates nor deletes the record, Attempts has grown by the number of Claims of it, however often it was requeued. |
| StoreHistory.Fencing | backend/memory.go:119-128 | An Update presenting the version a record had at some point succeeds later iff the changes since are a multiple of 2^64; otherwise ErrConflict. |
| StoreHistory.NoLostUpdate | backend/memory.go:123-127 | Of two Updates presenting the same version of the same ID at most one succeeds, for histories shorter than 2^64 without a Delete of it. |
| StoreHistory.ExpiredClaimIsFenced | backend/memory.go:197-208 | Once RequeueStale has hit a record, an Update with the version its claim returned is refused with ErrConflict. |
| StoreHistory.DeleteAndSaveDefeatFencing | backend/memory.go:46-48 | After a Delete and a Save of the same ID, an Update read from the old record overwrites the new one. |
| StoreHistory.StaysClaimed | backend/memory.go:86-89 | A record that is not pending stays so until a RequeueStale hits it, an Update sets it to pending, or it is deleted. |
| StoreHistory.ExclusiveClaim | backend/memory.go:72-106 | Between two successful Claims of one ID there is such a release. |
| StoreHistory.RequeueMovesStale | backend/memory.go:195-210 | RequeueStale moves exactly the running records started at or before the cutoff from running to pending, as sets and in number. |
| StoreHistory.RequeueResetsStale | backend/memory.go:195-210 | It clears their StartedAt, adds one to their version, leaves all others alone, returns their number, and returns 0 when repeated at the same cutoff. |
| StoreHistory.RequeuedIff | backend/memory.go:198-203 | A running record is requeued iff it has a StartedAt at least the lease ago; one started exactly at the cutoff is requeued. |
| StoreHistory.SaveThenGet | backend/memory.go:43-50 | What Get returns after any history that neither changes nor deletes a saved record is that record with status and version defaulted. |
| StoreHistory.UpdateThenGet | backend/memory.go:126-128 | What Get returns after an Update, and any history that neither changes nor deletes the record, is the caller's record one version on. |
| StoreHistory.ClaimThenGet | backend/memory.go:83-105 | Claim returns, claimed, the pending record created before every other pending one, or at the same time with the smaller ID; Get returns the same until it is changed or deleted. |
| StoreHistory.CallFrame | backend/memory.go:29-223 | A refused call changes nothing; no call touches a record but by saving, changing or deleting that ID. |
| StoreHistory.IdsStay | backend/memory.go:49-145 | Over histories, only a Save brings an ID in and only a Delete takes it out. |
| StoreHistory.ClosedForever | backend/memory.go:214-223 | A closed store never changes again and refuses everything but Close. |
| MemoryStore.CloneRecord | backend/memory.go:225-239 | The clone has the same value, an empty payload made nil, and shares no object with the original. |
| MemoryStore.SortRecords | backend/memory.go:168-173 | Sorts by (CreatedAt, ID) and permutes, for records of different IDs. |
| MemoryStore.MemoryStore.constructor | backend/memory.go:25-27 | A new store is empty, open and owns no object. |
| MemoryStore.MemoryStore.Put | backend/memory.go:127-127 | Stores the record's value under its ID, in objects the store has just allocated. |
| MemoryStore.MemoryStore.Save | backend/memory.go:30-51 | Answers and changes the store as the model's Save on the record's value; owns only new objects beyond its old ones. |
| MemoryStore.MemoryStore.Get | backend/memory.go:54-69 | As the model's Get; the record handed out is fresh and shares nothing with the store. |
| MemoryStore.MemoryStore.Oldest | backend/memory.go:83-97 | The scan, in any map order, finds a pending record iff there is one, and every other pending record was created later, or at the same time with a larger ID. |
| MemoryStore.MemoryStore.Claim | backend/memory.go:72-106 | As the model's Claim; the record handed out is fresh and shares nothing with the store. |
| MemoryStore.MemoryStore.Update | backend/memory.go:109-129 | As the model's Update on the record's value. |
| MemoryStore.MemoryStore.Delete | backend/memory.go:132-147 | As the model's Delete. |
| MemoryStore.MemoryStore.Close | backend/memory.go:214-223 | As the model's Close. |
| MemoryStore.MemoryStore.Collect | backend/memory.go:161-167 | The loop, in any map order, collects fresh clones of exactly the matching records, each once. |
| MemoryStore.MemoryStore.List | backend/memory.go:150-178 | As the model's List, record by record; the records handed out share nothing with the store. |
| MemoryStore.MemoryStore.RewriteStale | backend/memory.go:196-210 | The loop that rewrites the map it ranges over requeues exactly the stale records, in any order, and counts them. |
| MemoryStore.MemoryStore.RequeueStale | backend/memory.go:181-211 | As the model's RequeueStale, allocating nothing. |
| MemoryStore.AnyCall | backend/memory.go:29-223 | Any call, on any record, even one leading into the store, answers and changes the store as the model does on the record's value; it hands out only fresh objects that are not the store's, and takes over none from outside. |
| MemoryStore.ClientWrites | backend/memory.go:225-239 | Arbitrary writes to objects that are not the store's leave its invariant and its value as they were. |
| MemoryStore.AnyClient | backend/memory.go:225-239 | A client that runs any script of calls, overwrites in between every object it ever passed in or got back, and reuses them in the records it passes, finds exactly the answers and the final state of the model on that script; its objects and the store's stay apart. |

## Left out

- Execute.ExecuteRefinesSteps: one direction only, because the other is covered by the invariant: the record of every task in every run of the transition system meets the same bounds (`RecordOk`).
- Execute.ExecuteTask: requires a limit below the largest int, because at it the loop of the source does not end (`NeverExhausted`).
- DispatcherSafety.Conservation: the transition system counts with unbounded naturals, because its balances are about counters that have not wrapped; the wrap at 2^64 is in `Stats.Collector` and `Execute` only.
- MemoryStore.SortRecords: an insertion sort on a sequence of records, because sort.Slice is a library whose algorithm is not part of this model; its in-place swaps are not captured.
- The mutex of MemoryStore, which every method holds throughout, is modelled by the atomicity of each method; a byte slice is a whole array, so slices that overlap within one array are not distinguished.
- Backoff.ExpFloatIsRounded: math.Pow(2, n) is taken to be exact below 2^1024 and +Inf from there, because its source is not part of this model.
- Backoff.ExponentialIsRounded: the result of an out-of-range float-to-integer conversion is left unspecified, as in the Go specification, and not fixed to what one processor returns.
- sync.RWMutex serves the readers that a writer kept waiting before the next writer; in the model the next Close may
  announce itself first. Writers do keep new readers out. The model has all of Go's runs and states of rest, so the theorems
  about every run and every state of rest cover Go's.
- No theorem says that a waiting Close is served while the dispatcher is open and other steps go on for ever.
- That each `Process`, predicate, logger and random draw returns or panics is assumed; a job that blocks forever or calls runtime.Goexit is not modelled, nor is a panic of `LogWorkerPanic` or of a log call made by a submitter or a closer.
- Time is an arbitrary input: which of timer and quit fires first, when contexts end and what the clock reads are not related to durations. Instants are integers without location or monotonic reading.
- Job timeouts, job names, SubmittedAt, log output and error texts.
- backend/mongodb, backend/codec.go, the option setters of gokue.go, and the rest of config/config.go.
