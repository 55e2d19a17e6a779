/** The dispatcher of dispatcher/dispatcher.go as a transition system. Any number of Submit,
    TrySubmit, CloseWithMode and Stats calls and WorkerCount worker goroutines interleave;
    one step is one lock operation, channel operation, counter operation, job outcome or
    sleep outcome. The Go run-time panics (send on or close of a closed channel, negative
    wait group) are steps into `fault`. */
module Dispatcher {
  import opened Wrappers
  import opened GoInts
  import opened Backoff

  /** What the dispatcher reads of config.Config. The two positive sizes are what
      Config.Validate demands. */
  datatype Config = Config(
    workerCount: nat, queueSize: nat, maxRetries: Int64, retryDelay: Nanos, maxRetryDelay: Nanos,
    strategy: Strategy, hasPredicate: bool)
  {
    predicate Valid() {
      workerCount > 0 && queueSize > 0
    }
  }

  /** A task, with its per-task overrides. `tag` stands for the job. */
  datatype Task = Task(tag: nat, maxRetries: Option<Int64>, retryDelay: Option<Nanos>, hasPredicate: bool)

  function MaxRetries(cfg: Config, t: Task): Int64 {
    if t.maxRetries.Some? then t.maxRetries.value else cfg.maxRetries
  }

  function BaseDelay(cfg: Config, t: Task): Nanos {
    if t.retryDelay.Some? then t.retryDelay.value else cfg.retryDelay
  }

  predicate HasPredicate(cfg: Config, t: Task) {
    t.hasPredicate || cfg.hasPredicate
  }

  // ---- Submit and TrySubmit ----

  datatype SubmitKind = Blocking | Try
  datatype SubmitResult = Enqueued | Closed | QueueFull | CtxErr | NilCtx | NilJob
  datatype SubmitPc =
    | SStart
    | SLocking
    | SLocked
    | SSelect
    | SSent
    | SGaveUp(why: SubmitResult)
    | SUnlock(result: SubmitResult)
    | SDone(result: SubmitResult)

  datatype Submitter = Submitter(
    kind: SubmitKind, task: Task, nilCtx: bool, nilJob: bool, ctxDone: bool, pc: SubmitPc)

  datatype SubmitAct = SValidate | SLock | SCheck | SSend | SQuit | SCount | SRelease

  // ---- CloseWithMode ----

  datatype Mode = Drain | Immediate | OtherMode
  datatype CloseResult = CloseOk | CloseCtxErr | CloseNilCtx | InvalidMode
  datatype ClosePc =
    | CStart
    | CLocking         // waits for other closers
    | CPending         // announced: no new reader is admitted; waits for those inside
    | CLocked
    | CMarked
    | CUnlock
    | CSpawn
    | CWait
    | CSignal(result: CloseResult)
    | CDone(result: CloseResult)

  /** The goroutine of a drain Close that waits for the wait group and closes `done`. */
  datatype Waiter = NotStarted | Waiting | Finished

  datatype Closer = Closer(mode: Mode, nilCtx: bool, ctxDone: bool, pc: ClosePc, waiter: Waiter)

  datatype CloseAct = CValidate | CAnnounce | CLock | CMark | CCloseTasks | CRelease | CStartWaiter | CWaitDone
                    | CDrained | CCancelled | CSignalQuit

  // ---- Workers ----

  datatype Outcome = Success | Refused | Abandoned | Exhausted | Lost

  /** What became of a task: its Process calls, its IncRetried calls and how it ended. */
  datatype Record = Record(task: Task, calls: nat, retries: nat, outcome: Outcome)

  /** Where execute is in one iteration of its attempt loop. */
  datatype Phase =
    | Check            // at the loop condition
    | Calling          // inside the loop, before Process returns
    | Errored          // Process failed or panicked
    | Retrying         // before IncRetried
    | Delaying         // after IncRetried, before the delay is known
    | Sleeping         // in the select of timer and quit
    | Counting         // before IncRetryPredicatesFailed
    | Ending(outcome: Outcome)   // before IncProcessed or IncFailed

  datatype Worker =
    | Idle
    | Busy(task: Task, attempt: Int64, calls: nat, retries: nat, phase: Phase)
    | Reporting        // task counted, final log call
    | Unwinding        // recovered from an internal panic
    | Leaving          // the range loop has ended
    | Gone(panicked: bool)

  datatype JobOutcome = JobOk | JobErr | JobPanic

  datatype WorkAct =
    | Receive
    | SeeClosed
    | Loop
    | Call(job: JobOutcome)
    | Decide(allow: bool)
    | CountRetry
    | Delay(ns: int)
    | Timer
    | SeeQuit
    | CountRefusal
    | Finish
    | Report
    | Panic
    | Leave

  // ---- Stats ----

  datatype Counters = Counters(
    enqueued: nat, processed: nat, failed: nat, retried: nat, dropped: nat, predicatesFailed: nat)

  const FIELDS: nat := 6

  /** The counters in the order Snapshot loads them. */
  function Field(c: Counters, k: nat): nat
    requires k < FIELDS
  {
    if k == 0 then c.enqueued else if k == 1 then c.processed else if k == 2 then c.failed
    else if k == 3 then c.retried else if k == 4 then c.dropped else c.predicatesFailed
  }

  /** A Snapshot call: the counters when it began, and the loads made so far. */
  datatype Observer = Observer(start: Counters, loads: seq<nat>)

  // ---- State ----

  /** `readers` and `writer` are the holders of submitMu, `pending` is the closer inside Lock that
      waits for the readers and already keeps new ones out. The fields from `sent` on are the
      history: sends, receives, ended tasks, tasks lost to an internal panic, Process calls. */
  datatype State = State(
    cfg: Config,
    queue: seq<Task>, tasksClosed: bool,
    closed: bool, quitOnce: bool, quit: bool,
    readers: set<nat>, pending: Option<nat>, writer: Option<nat>,
    wg: nat,
    counters: Counters,
    submitters: seq<Submitter>, closers: seq<Closer>, workers: seq<Worker>, observers: seq<Observer>,
    sent: seq<Task>, received: seq<Task>, finished: seq<Record>, lost: seq<Record>, calls: nat,
    fault: bool)

  function Init(cfg: Config): State {
    State(cfg, [], false, false, false, false, {}, None, None, cfg.workerCount, Counters(0, 0, 0, 0, 0, 0),
          [], [], seq(cfg.workerCount, _ => Idle), [], [], [], [], [], 0, false)
  }

  datatype Step =
    | NewSubmit(kind: SubmitKind, task: Task, nilCtx: bool, nilJob: bool)
    | NewClose(mode: Mode, nilCtx: bool)
    | NewStats
    | CancelSubmit(i: nat)
    | CancelClose(i: nat)
    | SubmitStep(i: nat, sact: SubmitAct)
    | CloseStep(i: nat, cact: CloseAct)
    | WorkStep(i: nat, wact: WorkAct)
    | Load(i: nat)

  // ---- Submit steps ----

  predicate SubmitEnabled(s: State, i: nat, a: SubmitAct) {
    i < |s.submitters| &&
    var c := s.submitters[i];
    match a
    case SValidate => c.pc.SStart?
    case SLock => c.pc.SLocking? && s.writer.None? && s.pending.None?
    case SCheck => c.pc.SLocked?
    case SSend => c.pc.SSelect? && (s.tasksClosed || |s.queue| < s.cfg.queueSize)
    case SQuit => c.pc.SSelect? && if c.kind.Try? then !s.tasksClosed && |s.queue| >= s.cfg.queueSize else c.ctxDone
    case SCount => c.pc.SSent? || c.pc.SGaveUp?
    case SRelease => c.pc.SUnlock?
  }

  function SubmitNext(s: State, c: Submitter, a: SubmitAct): SubmitPc {
    match a
    case SValidate => if c.nilCtx then SDone(NilCtx) else if c.nilJob then SDone(NilJob) else SLocking
    case SLock => SLocked
    case SCheck => if s.closed then SUnlock(Closed) else SSelect
    case SSend => SSent
    case SQuit => SGaveUp(if c.kind.Try? then QueueFull else CtxErr)
    case SCount => SUnlock(if c.pc.SGaveUp? then c.pc.why else Enqueued)
    case SRelease => SDone(if c.pc.SUnlock? then c.pc.result else Closed)
  }

  function CountSubmit(n: Counters, pc: SubmitPc): Counters {
    if pc.SSent? then n.(enqueued := n.enqueued + 1) else n.(dropped := n.dropped + 1)
  }

  function SubmitApply(s: State, i: nat, a: SubmitAct): State
    requires SubmitEnabled(s, i, a)
  {
    var c := s.submitters[i];
    s.(submitters := s.submitters[i := c.(pc := SubmitNext(s, c, a))],
       readers := if a.SLock? then s.readers + {i} else if a.SRelease? then s.readers - {i} else s.readers,
       queue := if a.SSend? then s.queue + [c.task] else s.queue,
       sent := if a.SSend? then s.sent + [c.task] else s.sent,
       counters := if a.SCount? then CountSubmit(s.counters, c.pc) else s.counters,
       fault := s.fault || (a.SSend? && s.tasksClosed))
  }

  // ---- Close steps ----

  predicate CloseEnabled(s: State, i: nat, a: CloseAct) {
    i < |s.closers| &&
    var c := s.closers[i];
    match a
    case CValidate => c.pc.CStart?
    case CAnnounce => c.pc.CLocking? && s.writer.None? && s.pending.None?
    case CLock => c.pc.CPending? && s.readers == {}
    case CMark => c.pc.CLocked?
    case CCloseTasks => c.pc.CMarked?
    case CRelease => c.pc.CUnlock?
    case CStartWaiter => c.pc.CSpawn?
    case CWaitDone => c.waiter.Waiting? && s.wg == 0
    case CDrained => c.pc.CWait? && c.waiter.Finished?
    case CCancelled => c.pc.CWait? && c.ctxDone
    case CSignalQuit => c.pc.CSignal?
  }

  function CloseNext(s: State, c: Closer, a: CloseAct): ClosePc {
    match a
    case CValidate =>
      if c.nilCtx then CDone(CloseNilCtx) else if c.mode.OtherMode? then CDone(InvalidMode) else CLocking
    case CAnnounce => CPending
    case CLock => CLocked
    case CMark => if s.closed then CUnlock else CMarked
    case CCloseTasks => CUnlock
    case CRelease => if c.mode.Immediate? then CSignal(CloseOk) else CSpawn
    case CStartWaiter => CWait
    case CWaitDone => c.pc
    case CDrained => CDone(CloseOk)
    case CCancelled => CSignal(CloseCtxErr)
    case CSignalQuit => CDone(if c.pc.CSignal? then c.pc.result else CloseOk)
  }

  function CloseApply(s: State, i: nat, a: CloseAct): State
    requires CloseEnabled(s, i, a)
  {
    var c := s.closers[i];
    var waiter := if a.CStartWaiter? then Waiting else if a.CWaitDone? then Finished else c.waiter;
    s.(closers := s.closers[i := c.(pc := CloseNext(s, c, a), waiter := waiter)],
       pending := if a.CAnnounce? then Some(i) else if a.CLock? then None else s.pending,
       writer := if a.CLock? then Some(i) else if a.CRelease? then None else s.writer,
       closed := s.closed || a.CMark?,
       tasksClosed := s.tasksClosed || a.CCloseTasks?,
       quitOnce := s.quitOnce || a.CSignalQuit?,
       quit := s.quit || (a.CSignalQuit? && !s.quitOnce),
       fault := s.fault || (a.CCloseTasks? && s.tasksClosed) || (a.CSignalQuit? && !s.quitOnce && s.quit))
  }

  // ---- Worker steps ----

  /** The delays retryDelay may return: any 64-bit value where it is unspecified, and for
      the negative attempts that follow a wrap of the loop counter. */
  ghost predicate DelayPossible(cfg: Config, t: Task, attempt: int, ns: int) {
    if BaseDelay(cfg, t) <= 0 || cfg.strategy.Unknown? then ns == 0
    else if attempt >= 0 then exists draw: nat :: DelayIs(cfg, t, attempt, draw, ns)
    else -TWO_63 <= ns < TWO_63
  }

  predicate DelayIs(cfg: Config, t: Task, attempt: nat, draw: nat, ns: int) {
    var d := RetryDelay(BaseDelay(cfg, t), cfg.maxRetryDelay, attempt, cfg.strategy, draw);
    if d.Exactly? then ns == d.ns else -TWO_63 <= ns < TWO_63
  }

  /** Where a worker runs code that may panic inside the dispatcher: a log call, the retry
      predicate, the delay computation. */
  predicate MayPanic(cfg: Config, w: Worker) {
    w.Reporting? ||
    (w.Busy? && (w.phase.Calling? || w.phase.Delaying? || (w.phase.Errored? && HasPredicate(cfg, w.task))))
  }

  /** The steps of a worker inside execute. */
  ghost predicate BusyEnabled(cfg: Config, quit: bool, w: Worker, a: WorkAct)
    requires w.Busy?
  {
    match a
    case Loop => w.phase.Check?
    case Call(_) => w.phase.Calling?
    case Decide(allow) => w.phase.Errored? && (allow || HasPredicate(cfg, w.task))
    case CountRetry => w.phase.Retrying?
    case Delay(ns) => w.phase.Delaying? && DelayPossible(cfg, w.task, w.attempt, ns)
    case Timer => w.phase.Sleeping?
    case SeeQuit => w.phase.Sleeping? && quit
    case CountRefusal => w.phase.Counting?
    case Finish => w.phase.Ending?
    case Panic => MayPanic(cfg, w)
    case _ => false
  }

  ghost predicate WorkEnabled(s: State, i: nat, a: WorkAct) {
    i < |s.workers| &&
    var w := s.workers[i];
    if w.Busy? then BusyEnabled(s.cfg, s.quit, w, a)
    else
      match a
      case Receive => w.Idle? && s.queue != []
      case SeeClosed => w.Idle? && s.queue == [] && s.tasksClosed
      case Report => w.Reporting?
      case Panic => MayPanic(s.cfg, w)
      case Leave => w.Unwinding? || w.Leaving?
      case _ => false
  }

  /** The end of one loop iteration: attempt++ on a 64-bit int. */
  function NextAttempt(w: Worker): Worker
    requires w.Busy?
  {
    w.(attempt := Wrap64(w.attempt + 1), phase := Check)
  }

  /** A worker inside execute. */
  function BusyNext(cfg: Config, w: Worker, a: WorkAct): Worker
    requires w.Busy?
  {
    match a
    case Loop => w.(phase := if w.attempt <= MaxRetries(cfg, w.task) then Calling else Ending(Exhausted))
    case Call(job) => w.(calls := w.calls + 1, phase := if job.JobOk? then Ending(Success) else Errored)
    case Decide(allow) =>
      if !allow then w.(phase := Counting)
      else if w.attempt < MaxRetries(cfg, w.task) then w.(phase := Retrying)
      else NextAttempt(w)
    case CountRetry => w.(retries := w.retries + 1, phase := Delaying)
    case Delay(ns) => if ns > 0 then w.(phase := Sleeping) else NextAttempt(w)
    case Timer => NextAttempt(w)
    case SeeQuit => w.(phase := Ending(Abandoned))
    case CountRefusal => w.(phase := Ending(Refused))
    case Finish => Reporting
    case Panic => Unwinding
    case _ => w
  }

  function WorkNext(s: State, w: Worker, a: WorkAct): Worker {
    if w.Busy? then BusyNext(s.cfg, w, a)
    else if a.Receive? && s.queue != [] then Busy(s.queue[0], 0, 0, 0, Check)
    else if a.SeeClosed? then Leaving
    else if a.Report? then Idle
    else if a.Panic? then Unwinding
    else if a.Leave? then Gone(w.Unwinding?)
    else w
  }

  /** The record of what execute has done so far with the task it holds. */
  function RecordOf(w: Worker): Record
    requires w.Busy?
  {
    Record(w.task, w.calls, w.retries, if w.phase.Ending? then w.phase.outcome else Lost)
  }

  function CountWork(n: Counters, w: Worker, a: WorkAct): Counters {
    if a.CountRetry? then n.(retried := n.retried + 1)
    else if a.CountRefusal? then n.(predicatesFailed := n.predicatesFailed + 1)
    else if a.Finish? && w.Busy? then
      (if w.phase == Ending(Success) then n.(processed := n.processed + 1) else n.(failed := n.failed + 1))
    else n
  }

  function WorkApply(s: State, i: nat, a: WorkAct): State
    requires WorkEnabled(s, i, a)
  {
    var w := s.workers[i];
    s.(workers := s.workers[i := WorkNext(s, w, a)],
       queue := if a.Receive? then s.queue[1..] else s.queue,
       received := if a.Receive? then s.received + [s.queue[0]] else s.received,
       calls := if a.Call? then s.calls + 1 else s.calls,
       counters := CountWork(s.counters, w, a),
       finished := if a.Finish? then s.finished + [RecordOf(w)] else s.finished,
       lost := if a.Panic? && w.Busy? then s.lost + [RecordOf(w)] else s.lost,
       wg := if a.Leave? && s.wg > 0 then s.wg - 1 else s.wg,
       fault := s.fault || (a.Leave? && s.wg == 0))
  }

  // ---- All steps ----

  /** Steps of the calling program: new calls and cancelled contexts. */
  predicate External(a: Step) {
    a.NewSubmit? || a.NewClose? || a.NewStats? || a.CancelSubmit? || a.CancelClose?
  }

  ghost predicate Enabled(s: State, a: Step) {
    match a
    case NewSubmit(_, _, _, _) => true
    case NewClose(_, _) => true
    case NewStats => true
    case CancelSubmit(i) => i < |s.submitters|
    case CancelClose(i) => i < |s.closers|
    case SubmitStep(i, act) => SubmitEnabled(s, i, act)
    case CloseStep(i, act) => CloseEnabled(s, i, act)
    case WorkStep(i, act) => WorkEnabled(s, i, act)
    case Load(i) => i < |s.observers| && |s.observers[i].loads| < FIELDS
  }

  function Apply(s: State, a: Step): State
    requires Enabled(s, a)
  {
    match a
    case NewSubmit(kind, task, nilCtx, nilJob) =>
      s.(submitters := s.submitters + [Submitter(kind, task, nilCtx, nilJob, false, SStart)])
    case NewClose(mode, nilCtx) => s.(closers := s.closers + [Closer(mode, nilCtx, false, CStart, NotStarted)])
    case NewStats => s.(observers := s.observers + [Observer(s.counters, [])])
    case CancelSubmit(i) => s.(submitters := s.submitters[i := s.submitters[i].(ctxDone := true)])
    case CancelClose(i) => s.(closers := s.closers[i := s.closers[i].(ctxDone := true)])
    case SubmitStep(i, act) => SubmitApply(s, i, act)
    case CloseStep(i, act) => CloseApply(s, i, act)
    case WorkStep(i, act) => WorkApply(s, i, act)
    case Load(i) =>
      var o := s.observers[i];
      s.(observers := s.observers[i := o.(loads := o.loads + [Field(s.counters, |o.loads|)])])
  }

  /** The steps lead from s to t, each enabled where it is taken. */
  ghost predicate Runs(s: State, steps: seq<Step>, t: State)
    decreases |steps|
  {
    if steps == [] then t == s
    else Enabled(s, steps[0]) && Runs(Apply(s, steps[0]), steps[1..], t)
  }
}
