/** The inductive invariant of the dispatcher, kept by every step of every actor. */
module DispatcherInvariant {
  import opened Wrappers
  import opened GoInts
  import opened Dispatcher

  // ---- Locking and shutdown ----

  predicate HoldsRead(c: Submitter) {
    c.pc.SLocked? || c.pc.SSelect? || c.pc.SSent? || c.pc.SGaveUp? || c.pc.SUnlock?
  }

  predicate HoldsWrite(c: Closer) {
    c.pc.CLocked? || c.pc.CMarked? || c.pc.CUnlock?
  }

  /** A submitter between the `closed` check and its counter. */
  predicate PastCheck(c: Submitter) {
    c.pc.SSelect? || c.pc.SSent? || c.pc.SGaveUp?
  }

  /** A closer that has left the write-lock section. */
  predicate PastClose(c: Closer) {
    || c.pc.CUnlock? || c.pc.CSpawn? || c.pc.CWait? || c.pc.CSignal?
    || c.pc == CDone(CloseOk) || c.pc == CDone(CloseCtxErr)
  }

  /** A closer entitled to close quit: an immediate one, or a drain whose ctx ended. */
  predicate Signalled(c: Closer) {
    (c.mode.Immediate? && c.pc == CDone(CloseOk)) || (c.mode.Drain? && c.pc == CDone(CloseCtxErr))
  }

  ghost predicate LockInv(s: State) {
    && (forall i :: 0 <= i < |s.submitters| ==> (HoldsRead(s.submitters[i]) <==> i in s.readers))
    && (forall i :: i in s.readers ==> i < |s.submitters|)
    && (forall i :: 0 <= i < |s.closers| ==> (HoldsWrite(s.closers[i]) <==> s.writer == Some(i)))
    && (s.writer.Some? ==> s.writer.value < |s.closers| && s.readers == {} && s.pending.None?)
    && (forall i :: 0 <= i < |s.closers| ==> (s.closers[i].pc.CPending? <==> s.pending == Some(i)))
    && (s.pending.Some? ==> s.pending.value < |s.closers|)
  }

  predicate CloserOk(s: State, c: Closer) {
    && (c.pc.CMarked? ==> s.closed && !s.tasksClosed)
    && (PastClose(c) ==> s.closed && s.tasksClosed)
    && (c.pc.CSignal? ==> (c.pc.result.CloseOk? && c.mode.Immediate?) || (c.pc.result.CloseCtxErr? && c.mode.Drain?))
    && (c.pc.CSpawn? || c.pc.CWait? || c.waiter.Waiting? || c.waiter.Finished? ==> c.mode.Drain?)
    && (c.pc.CWait? ==> !c.waiter.NotStarted?)
    && (c.waiter.NotStarted? || c.pc.CWait? || c.pc.CSignal? || c.pc.CDone?)
    && (c.waiter.Finished? ==> s.wg == 0)
    && (c.pc == CDone(CloseOk) && c.mode.Drain? ==> c.waiter.Finished?)
    && (c.pc == CDone(CloseCtxErr) ==> c.mode.Drain?)
    && (c.mode.OtherMode? || c.nilCtx ==> c.pc.CStart? || c.pc == CDone(CloseNilCtx) || c.pc == CDone(InvalidMode))
    && ((c.pc == CDone(CloseNilCtx) ==> c.nilCtx) && (c.pc == CDone(InvalidMode) ==> c.mode.OtherMode?))
  }

  ghost predicate CloseInv(s: State) {
    && !s.fault
    && (s.tasksClosed ==> s.closed)
    && (s.closed && !s.tasksClosed ==>
          s.writer.Some? && s.writer.value < |s.closers| && s.closers[s.writer.value].pc.CMarked?)
    && (s.quit <==> s.quitOnce)
    && (s.quit ==> s.tasksClosed && exists i :: 0 <= i < |s.closers| && Signalled(s.closers[i]))
    && (forall i :: 0 <= i < |s.closers| ==> CloserOk(s, s.closers[i]))
    && (s.closed ==> forall i :: 0 <= i < |s.submitters| ==> !PastCheck(s.submitters[i]))
  }

  // ---- Counting ----

  function One(b: bool): int {
    if b then 1 else 0
  }

  function Uncounted(c: Submitter): int { One(c.pc.SSent?) }

  function GotEnqueued(c: Submitter): int { One(c.pc == SUnlock(Enqueued) || c.pc == SDone(Enqueued)) }

  function GotDropped(c: Submitter): int {
    One(c.pc == SUnlock(QueueFull) || c.pc == SDone(QueueFull) || c.pc == SUnlock(CtxErr) || c.pc == SDone(CtxErr))
  }

  function Holds(w: Worker): int { One(w.Busy?) }

  function Alive(w: Worker): int { One(!w.Gone?) }

  function Died(w: Worker): int { One(w.Unwinding? || w == Gone(true)) }

  function BetweenRefusalCounts(w: Worker): int { One(w.Busy? && w.phase == Ending(Refused)) }

  function CallsOf(w: Worker): int { if w.Busy? then w.calls else 0 }

  function RetriesOf(w: Worker): int { if w.Busy? then w.retries else 0 }

  function RecordCalls(r: Record): int { r.calls }

  function RecordRetries(r: Record): int { r.retries }

  function Succeeded(r: Record): int { One(r.outcome.Success?) }

  function WasRefused(r: Record): int { One(r.outcome.Refused?) }

  ghost predicate SubmitCounts(s: State) {
    && |s.sent| == s.counters.enqueued + SumBy(Uncounted, s.submitters)
    && s.counters.enqueued == SumBy(GotEnqueued, s.submitters)
    && s.counters.dropped == SumBy(GotDropped, s.submitters)
    && forall i :: 0 <= i < |s.submitters| ==> SubmitterOk(s.submitters[i])
  }

  predicate SubmitterOk(c: Submitter) {
    && (c.pc.SGaveUp? ==> c.pc.why == if c.kind.Try? then QueueFull else CtxErr)
    && (c.pc.SUnlock? ==> c.pc.result.Enqueued? || c.pc.result.Closed?
                          || c.pc.result == if c.kind.Try? then QueueFull else CtxErr)
  }

  ghost predicate WorkCounts(s: State) {
    && s.counters.processed == SumBy(Succeeded, s.finished)
    && s.counters.processed + s.counters.failed == |s.finished|
    && s.counters.predicatesFailed == SumBy(WasRefused, s.finished) + SumBy(BetweenRefusalCounts, s.workers)
    && s.counters.retried
       == SumBy(RecordRetries, s.finished) + SumBy(RecordRetries, s.lost) + SumBy(RetriesOf, s.workers)
    && s.calls == SumBy(RecordCalls, s.finished) + SumBy(RecordCalls, s.lost) + SumBy(CallsOf, s.workers)
    && |s.received| == SumBy(Holds, s.workers) + |s.finished| + |s.lost|
    && |s.workers| == s.cfg.workerCount
    && s.wg == SumBy(Alive, s.workers)
    && |s.lost| <= SumBy(Died, s.workers)
  }

  // ---- Order ----

  ghost predicate FifoInv(s: State) {
    && s.sent == s.received + s.queue
    && |s.queue| <= s.cfg.queueSize
  }

  /** The tasks that workers hold. */
  ghost function Held(ws: seq<Worker>): multiset<Task> {
    if ws == [] then multiset{}
    else (if ws[0].Busy? then multiset{ws[0].task} else multiset{}) + Held(ws[1..])
  }

  function Tasks(rs: seq<Record>): seq<Task> {
    seq(|rs|, i requires 0 <= i < |rs| => rs[i].task)
  }

  ghost predicate EachOnce(s: State) {
    multiset(s.received) == Held(s.workers) + multiset(Tasks(s.finished)) + multiset(Tasks(s.lost))
  }

  function HeldBy(w: Worker): seq<Task> {
    if w.Busy? then [w.task] else []
  }

  ghost predicate SingleWorkerInv(s: State) {
    |s.workers| == 1 ==>
      && s.received == Tasks(s.finished) + Tasks(s.lost) + HeldBy(s.workers[0])
      && (s.lost != [] ==> s.workers[0].Unwinding? || s.workers[0].Gone?)
  }

  // ---- Attempts ----

  /** The largest number of attempts of a task: none when its limit is negative. */
  function MaxAttempts(cfg: Config, t: Task): nat {
    if MaxRetries(cfg, t) < 0 then 0 else MaxRetries(cfg, t) + 1
  }

  /** At the 64-bit maximum the loop counter wraps and the loop never ends. */
  predicate Bounded(cfg: Config, t: Task) {
    MaxRetries(cfg, t) < MAX_INT
  }

  predicate AttemptsOk(cfg: Config, w: Worker)
    requires w.Busy?
  {
    var m := MaxRetries(cfg, w.task);
    match w.phase
    case Check =>
      && 0 <= w.attempt == w.calls <= MaxAttempts(cfg, w.task)
      && w.retries == (if w.attempt <= m then w.attempt else if m < 0 then 0 else m)
    case Calling => 0 <= w.attempt == w.calls == w.retries <= m
    case Errored => 0 <= w.attempt == w.calls - 1 == w.retries <= m
    case Retrying => 0 <= w.attempt == w.calls - 1 == w.retries < m
    case Delaying => 0 <= w.attempt == w.calls - 1 == w.retries - 1 < m
    case Sleeping => 0 <= w.attempt == w.calls - 1 == w.retries - 1 < m
    case Counting => 0 <= w.attempt == w.calls - 1 == w.retries <= m
    case Ending(o) => RecordOk(cfg, Record(w.task, w.calls, w.retries, o))
  }

  /** What the attempt loop promises of each way to end a task. */
  predicate RecordOk(cfg: Config, r: Record) {
    var m := MaxRetries(cfg, r.task);
    match r.outcome
    case Success => 1 <= r.calls <= m + 1 && r.retries == r.calls - 1
    case Refused => 1 <= r.calls <= m + 1 && r.retries == r.calls - 1
    case Abandoned => 1 <= r.calls <= m && r.retries == r.calls
    case Exhausted => r.calls == MaxAttempts(cfg, r.task) && r.retries == (if m < 0 then 0 else m)
    case Lost =>
      && r.retries <= r.calls <= r.retries + 1
      && r.calls <= MaxAttempts(cfg, r.task) && (r.retries == 0 || r.retries <= m)
  }

  /** What ending a task that way needs of the configuration and of the dispatcher. */
  predicate EndingOk(cfg: Config, quit: bool, t: Task, o: Outcome) {
    && (o.Abandoned? ==> quit && SleepPossible(cfg, t))
    && (o.Refused? ==> HasPredicate(cfg, t))
    && (o.Exhausted? ==> Bounded(cfg, t))
    && !o.Lost?
  }

  /** A positive delay needs a positive base and a known strategy. */
  predicate SleepPossible(cfg: Config, t: Task) {
    BaseDelay(cfg, t) > 0 && !cfg.strategy.Unknown?
  }

  predicate WorkerOk(s: State, w: Worker) {
    && (w.Busy? ==>
          && (Bounded(s.cfg, w.task) ==> AttemptsOk(s.cfg, w))
          && (w.phase.Sleeping? ==> SleepPossible(s.cfg, w.task))
          && (w.phase.Ending? ==> EndingOk(s.cfg, s.quit, w.task, w.phase.outcome))
          && (w.phase == Counting ==> HasPredicate(s.cfg, w.task)))
    && (w.Leaving? || w == Gone(false) ==> s.tasksClosed && s.queue == [])
  }

  ghost predicate RecordsOk(s: State) {
    && (forall i :: 0 <= i < |s.workers| ==> WorkerOk(s, s.workers[i]))
    && (forall i :: 0 <= i < |s.finished| ==> FinishedOk(s, s.finished[i]))
    && (forall i :: 0 <= i < |s.lost| ==> LostOk(s.cfg, s.lost[i]))
  }

  predicate FinishedOk(s: State, r: Record) {
    && (Bounded(s.cfg, r.task) ==> RecordOk(s.cfg, r))
    && EndingOk(s.cfg, s.quit, r.task, r.outcome)
  }

  predicate LostOk(cfg: Config, r: Record) {
    r.outcome.Lost? && (Bounded(cfg, r.task) ==> RecordOk(cfg, r))
  }

  // ---- Settings, the task's own first ----

  /** At most limit + 1 attempts and limit retries, none of either below 0, and exactly limit + 1
      attempts when they ran out; with the largest int they never run out. */
  predicate KeepsLimit(limit: Int64, r: Record) {
    if limit == MAX_INT then !r.outcome.Exhausted?
    else if limit < 0 then r.calls == 0 && r.retries == 0
    else
      && r.calls <= limit + 1 && r.retries <= limit
      && (r.outcome.Exhausted? ==> r.calls == limit + 1 && r.retries == limit)
  }

  /** The limit is the task's own if it has one, else the configured one; only a positive delay,
      the task's own or else the configured one, can be cut short; and only a predicate, of the
      task or configured, can refuse. */
  predicate KeepsSettings(cfg: Config, r: Record) {
    && (match r.task.maxRetries
        case Some(own) => KeepsLimit(own, r)
        case None => KeepsLimit(cfg.maxRetries, r))
    && (r.outcome.Abandoned? ==>
          match r.task.retryDelay
          case Some(own) => own > 0
          case None => cfg.retryDelay > 0)
    && (r.outcome.Refused? ==> r.task.hasPredicate || cfg.hasPredicate)
  }

  // ---- Snapshots ----

  predicate ObserverOk(c: Counters, o: Observer) {
    && |o.loads| <= FIELDS
    && (forall k :: 0 <= k < FIELDS ==> Field(o.start, k) <= Field(c, k))
    && (forall k :: 0 <= k < |o.loads| ==> Field(o.start, k) <= o.loads[k] <= Field(c, k))
  }

  ghost predicate ObserverInv(s: State) {
    forall i :: 0 <= i < |s.observers| ==> ObserverOk(s.counters, s.observers[i])
  }

  ghost predicate Inv(s: State) {
    && s.cfg.Valid()
    && LockInv(s) && CloseInv(s)
    && SubmitCounts(s) && WorkCounts(s)
    && FifoInv(s) && EachOnce(s) && SingleWorkerInv(s)
    && RecordsOk(s) && ObserverInv(s)
  }
}
