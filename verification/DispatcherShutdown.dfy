/** Progress: what a closed dispatcher still does is bounded and ends with every goroutine
    gone. */
module DispatcherShutdown {
  import opened Wrappers
  import opened Backoff
  import opened Dispatcher
  import opened DispatcherInvariant
  import opened DispatcherPreservation
  import opened DispatcherSafety

  // ---- The measure ----

  function Left(cfg: Config, w: Worker): int
    requires w.Busy?
  {
    MaxAttempts(cfg, w.task) - w.attempt
  }

  /** An upper bound on the steps a worker can still take on what it holds. */
  function WorkerWeight(cfg: Config, w: Worker): int {
    match w
    case Gone(_) => 0
    case Unwinding => 1
    case Leaving => 1
    case Idle => 2
    case Reporting => 3
    case Busy(_, _, _, _, phase) =>
      (match phase
       case Check => 10 * Left(cfg, w) + 8
       case Calling => 10 * Left(cfg, w) + 7
       case Errored => 10 * Left(cfg, w) + 6
       case Retrying => 10 * Left(cfg, w) + 5
       case Delaying => 10 * Left(cfg, w) + 4
       case Sleeping => 10 * Left(cfg, w) + 3
       case Counting => 5
       case Ending(_) => 4)
  }

  function TaskWeight(cfg: Config, t: Task): int {
    10 * MaxAttempts(cfg, t) + 10
  }

  function SubmitterWeight(c: Submitter): int {
    match c.pc
    case SStart => 6
    case SLocking => 5
    case SLocked => 4
    case SSelect => 3
    case SSent => 2
    case SGaveUp(_) => 2
    case SUnlock(_) => 1
    case SDone(_) => 0
  }

  function CloserWeight(c: Closer): int {
    (match c.pc
     case CStart => 11
     case CLocking => 10
     case CPending => 9
     case CLocked => 8
     case CMarked => 7
     case CUnlock => 6
     case CSpawn => 5
     case CWait => 2
     case CSignal(_) => 1
     case CDone(_) => 0) + if c.waiter.Waiting? then 1 else 0
  }

  function ObserverWeight(o: Observer): int {
    if |o.loads| <= FIELDS then FIELDS - |o.loads| else 0
  }

  function WorkerWeightIn(cfg: Config): Worker -> int {
    w => WorkerWeight(cfg, w)
  }

  function TaskWeightIn(cfg: Config): Task -> int {
    t => TaskWeight(cfg, t)
  }

  /** The worker steps that the queued and the held tasks may still take. */
  ghost function WorkLeft(s: State): int {
    SumBy(TaskWeightIn(s.cfg), s.queue) + SumBy(WorkerWeightIn(s.cfg), s.workers)
  }

  /** All steps left: those of the workers and of the calls and snapshots under way. */
  ghost function Measure(s: State): int {
    WorkLeft(s)
    + SumBy(SubmitterWeight, s.submitters) + SumBy(CloserWeight, s.closers) + SumBy(ObserverWeight, s.observers)
  }

  /** The Process calls that the queued and the held tasks may still make. */
  function CallsLeft(cfg: Config, w: Worker): int {
    if !w.Busy? then 0
    else if w.phase.Check? || w.phase.Calling? then Left(cfg, w)
    else if w.phase.Ending? || w.phase.Counting? then 0
    else Left(cfg, w) - 1
  }

  function CallsLeftIn(cfg: Config): Worker -> int {
    w => CallsLeft(cfg, w)
  }

  function MaxAttemptsIn(cfg: Config): Task -> int {
    t => MaxAttempts(cfg, t)
  }

  ghost function RemainingCalls(s: State): int {
    SumBy(MaxAttemptsIn(s.cfg), s.queue) + SumBy(CallsLeftIn(s.cfg), s.workers)
  }

  /** Every task still to be worked on has a limit below the largest int. */
  ghost predicate AllBounded(s: State) {
    && (forall t <- s.queue :: Bounded(s.cfg, t))
    && (forall i :: 0 <= i < |s.workers| && s.workers[i].Busy? ==> Bounded(s.cfg, s.workers[i].task))
  }

  lemma WorkKeepsBounded(s: State, i: nat, a: WorkAct)
    requires AllBounded(s) && WorkEnabled(s, i, a)
    ensures AllBounded(WorkApply(s, i, a))
  {
    var t := WorkApply(s, i, a);
    forall j | 0 <= j < |t.workers| && t.workers[j].Busy?
      ensures Bounded(t.cfg, t.workers[j].task)
    {
      if j == i && a.Receive? {
        assert s.queue[0] in s.queue;
      }
    }
  }

  lemma AllBoundedStep(s: State, a: Step, t: State)
    requires AllBounded(s) && CloseInv(s) && s.closed && Enabled(s, a) && t == Apply(s, a)
    ensures AllBounded(t) && t.closed
  {
    match a
    case WorkStep(i, act) => WorkKeepsBounded(s, i, act);
    case SubmitStep(i, act) => assert !PastCheck(s.submitters[i]);
    case _ =>
  }

  lemma TermOk(cfg: Config, w: Worker)
    requires w.Busy? ==> Bounded(cfg, w.task) && AttemptsOk(cfg, w)
    ensures WorkerWeight(cfg, w) >= 0
    ensures CallsLeft(cfg, w) >= 0
    ensures !w.Gone? ==> WorkerWeight(cfg, w) > 0
  {
  }

  /** One worker step lowers the weight of the worker and what it takes from the queue, and
      each Process call uses up one of the calls left. */
  lemma WorkStepFalls(s: State, i: nat, a: WorkAct)
    requires WorkEnabled(s, i, a) && WorkerOk(s, s.workers[i])
    requires s.workers[i].Busy? ==> Bounded(s.cfg, s.workers[i].task)
    requires a.Receive? ==> Bounded(s.cfg, s.queue[0])
    ensures var w, w' := s.workers[i], WorkNext(s, s.workers[i], a);
            var taken := if a.Receive? then TaskWeight(s.cfg, s.queue[0]) else 0;
            var calls := if a.Receive? then MaxAttempts(s.cfg, s.queue[0]) else 0;
            && WorkerWeight(s.cfg, w') < WorkerWeight(s.cfg, w) + taken
            && CallsLeft(s.cfg, w') + (if a.Call? then 1 else 0) <= CallsLeft(s.cfg, w) + calls
  {
  }

  lemma WorkLowersMeasure(s: State, i: nat, a: WorkAct, t: State)
    requires Inv(s) && AllBounded(s) && WorkEnabled(s, i, a) && t == WorkApply(s, i, a)
    ensures Measure(t) < Measure(s) && WorkLeft(t) < WorkLeft(s)
    ensures RemainingCalls(t) + t.calls <= RemainingCalls(s) + s.calls
  {
    var w := WorkNext(s, s.workers[i], a);
    assert WorkerOk(s, s.workers[i]);
    WorkStepFalls(s, i, a);
    SumByUpdate(WorkerWeightIn(s.cfg), s.workers, i, w);
    SumByUpdate(CallsLeftIn(s.cfg), s.workers, i, w);
  }

  lemma SubmitLowersMeasure(s: State, i: nat, a: SubmitAct, t: State)
    requires Inv(s) && s.closed && SubmitEnabled(s, i, a) && t == SubmitApply(s, i, a)
    ensures Measure(t) < Measure(s) && WorkLeft(t) == WorkLeft(s)
    ensures RemainingCalls(t) + t.calls == RemainingCalls(s) + s.calls
  {
    assert !PastCheck(s.submitters[i]);
    SumByUpdate(SubmitterWeight, s.submitters, i, t.submitters[i]);
  }

  lemma CloseStepFalls(s: State, i: nat, a: CloseAct)
    requires CloseEnabled(s, i, a) && CloserOk(s, s.closers[i])
    ensures CloserWeight(CloseApply(s, i, a).closers[i]) < CloserWeight(s.closers[i])
  {
  }

  lemma CloseLowersMeasure(s: State, i: nat, a: CloseAct, t: State)
    requires CloseInv(s) && CloseEnabled(s, i, a) && t == CloseApply(s, i, a)
    ensures Measure(t) < Measure(s) && WorkLeft(t) == WorkLeft(s)
    ensures RemainingCalls(t) + t.calls == RemainingCalls(s) + s.calls
  {
    assert CloserOk(s, s.closers[i]);
    CloseStepFalls(s, i, a);
    SumByUpdate(CloserWeight, s.closers, i, t.closers[i]);
  }

  lemma LoadLowersMeasure(s: State, i: nat, t: State)
    requires Enabled(s, Load(i)) && t == Apply(s, Load(i))
    ensures Measure(t) < Measure(s) && WorkLeft(t) == WorkLeft(s)
    ensures RemainingCalls(t) + t.calls == RemainingCalls(s) + s.calls
  {
    SumByUpdate(ObserverWeight, s.observers, i, t.observers[i]);
  }

  function WorkSteps(a: Step): int {
    One(a.WorkStep?)
  }

  /** After closed is set, every step that is not a new call or a cancelled context lowers
      the measure. */
  lemma StepLowersMeasure(s: State, a: Step, t: State)
    requires Inv(s) && s.closed && AllBounded(s) && Enabled(s, a) && !External(a) && t == Apply(s, a)
    ensures Measure(t) < Measure(s)
    ensures WorkLeft(t) + WorkSteps(a) <= WorkLeft(s)
    ensures RemainingCalls(t) + t.calls <= RemainingCalls(s) + s.calls
  {
    match a
    case SubmitStep(i, act) => SubmitLowersMeasure(s, i, act, t);
    case CloseStep(i, act) => CloseLowersMeasure(s, i, act, t);
    case WorkStep(i, act) => WorkLowersMeasure(s, i, act, t);
    case Load(i) => LoadLowersMeasure(s, i, t);
  }

  lemma CancelKeepsMeasure(s: State, a: Step, t: State)
    requires Enabled(s, a) && (a.CancelSubmit? || a.CancelClose?) && t == Apply(s, a)
    ensures Measure(t) == Measure(s) && WorkLeft(t) == WorkLeft(s)
    ensures RemainingCalls(t) + t.calls == RemainingCalls(s) + s.calls
  {
    match a
    case CancelSubmit(i) => SumByUpdate(SubmitterWeight, s.submitters, i, t.submitters[i]);
    case CancelClose(i) => SumByUpdate(CloserWeight, s.closers, i, t.closers[i]);
  }

  lemma WorkersNonNegative(s: State)
    requires Inv(s) && AllBounded(s)
    ensures SumBy(WorkerWeightIn(s.cfg), s.workers) >= 0 && SumBy(CallsLeftIn(s.cfg), s.workers) >= 0
  {
    forall w | w in s.workers
      ensures WorkerWeightIn(s.cfg)(w) >= 0 && CallsLeftIn(s.cfg)(w) >= 0
    {
      var i :| 0 <= i < |s.workers| && s.workers[i] == w;
      assert WorkerOk(s, s.workers[i]);
      TermOk(s.cfg, w);
    }
    SumByNonNegative(WorkerWeightIn(s.cfg), s.workers);
    SumByNonNegative(CallsLeftIn(s.cfg), s.workers);
  }

  lemma MeasureNonNegative(s: State)
    requires Inv(s) && AllBounded(s)
    ensures Measure(s) >= 0 && WorkLeft(s) >= 0 && RemainingCalls(s) >= 0
  {
    WorkersNonNegative(s);
    SumByNonNegative(TaskWeightIn(s.cfg), s.queue);
    SumByNonNegative(MaxAttemptsIn(s.cfg), s.queue);
    SumByNonNegative(SubmitterWeight, s.submitters);
    SumByNonNegative(CloserWeight, s.closers);
    SumByNonNegative(ObserverWeight, s.observers);
  }

  // ---- Termination after close ----

  predicate NewCall(a: Step) {
    a.NewSubmit? || a.NewClose? || a.NewStats?
  }

  function Internal(a: Step): int {
    One(!External(a))
  }

  /** The steps that a new call adds. */
  function NewWeight(a: Step): int {
    match a
    case NewSubmit(_, _, _, _) => 6
    case NewClose(_, _) => 11
    case NewStats => FIELDS
    case _ => 0
  }

  lemma NewCallAddsWeight(s: State, a: Step, t: State)
    requires Enabled(s, a) && NewCall(a) && t == Apply(s, a)
    ensures Measure(t) == Measure(s) + NewWeight(a) && WorkLeft(t) == WorkLeft(s)
    ensures RemainingCalls(t) + t.calls == RemainingCalls(s) + s.calls
  {
    match a
    case NewSubmit(_, _, _, _) => SumByAppend(SubmitterWeight, s.submitters, t.submitters[|s.submitters|]);
    case NewClose(_, _) => SumByAppend(CloserWeight, s.closers, t.closers[|s.closers|]);
    case NewStats => SumByAppend(ObserverWeight, s.observers, t.observers[|s.observers|]);
  }

  /** What any step, of the dispatcher or of the calling program, does to the three measures. */
  lemma StepMeasures(s: State, a: Step, t: State)
    requires Inv(s) && s.closed && AllBounded(s) && Enabled(s, a) && t == Apply(s, a)
    ensures Measure(t) + Internal(a) <= Measure(s) + NewWeight(a)
    ensures WorkLeft(t) + WorkSteps(a) <= WorkLeft(s)
    ensures RemainingCalls(t) + t.calls <= RemainingCalls(s) + s.calls
  {
    if NewCall(a) {
      NewCallAddsWeight(s, a, t);
    } else if External(a) {
      CancelKeepsMeasure(s, a, t);
    } else {
      StepLowersMeasure(s, a, t);
    }
  }

  /** From a closed state every run, whatever is called or cancelled on the way, takes at most
      WorkLeft(s) worker steps and RemainingCalls(s) Process calls; and at most Measure(s)
      steps in all, plus a constant for each new Submit, Close or Stats call. */
  lemma {:induction false} ShutdownIsBounded(s: State, steps: seq<Step>, t: State)
    requires Inv(s) && s.closed && AllBounded(s) && Runs(s, steps, t)
    ensures Inv(t) && t.closed && AllBounded(t)
    ensures t.calls - s.calls <= RemainingCalls(s)
    ensures SumBy(WorkSteps, steps) <= WorkLeft(s)
    ensures 0 <= Measure(t) <= Measure(s) + SumBy(NewWeight, steps) - SumBy(Internal, steps)
    decreases |steps|
  {
    if steps == [] {
      MeasureNonNegative(s);
    } else {
      var a, u := steps[0], Apply(s, steps[0]);
      StepKeepsInv(s, a);
      AllBoundedStep(s, a, u);
      StepMeasures(s, a, u);
      ShutdownIsBounded(u, steps[1..], t);
    }
  }

  // ---- Progress ----

  /** No goroutine of the dispatcher or of a pending call can move. */
  ghost predicate Stuck(s: State) {
    forall a: Step :: Enabled(s, a) ==> External(a)
  }

  lemma SomeDelay(cfg: Config, t: Task, attempt: int) returns (ns: int)
    ensures DelayPossible(cfg, t, attempt, ns)
  {
    if BaseDelay(cfg, t) <= 0 || cfg.strategy.Unknown? || attempt < 0 {
      ns := 0;
    } else {
      var d := RetryDelay(BaseDelay(cfg, t), cfg.maxRetryDelay, attempt, cfg.strategy, 0);
      ns := if d.Exactly? then d.ns else 0;
      assert DelayIs(cfg, t, attempt, 0, ns);
    }
  }

  /** A worker waits only for a task that may still come. */
  predicate WorkerRests(s: State, w: Worker) {
    w.Gone? || (w.Idle? && s.queue == [] && !s.tasksClosed)
  }

  lemma WorkerMove(s: State, i: nat) returns (a: Step)
    requires i < |s.workers| && !WorkerRests(s, s.workers[i])
    ensures Enabled(s, a) && !External(a)
  {
    var w := s.workers[i];
    if w.Busy? {
      a := BusyMove(s, i);
    } else {
      a := WorkStep(i, if w.Reporting? then Report else if !w.Idle? then Leave
                       else if s.queue != [] then Receive else SeeClosed);
    }
  }

  lemma BusyMove(s: State, i: nat) returns (a: Step)
    requires i < |s.workers| && s.workers[i].Busy?
    ensures Enabled(s, a) && !External(a)
  {
    var w := s.workers[i];
    match w.phase
    case Check => a := WorkStep(i, Loop);
    case Calling => a := WorkStep(i, Call(JobOk));
    case Errored => a := WorkStep(i, Decide(true));
    case Retrying => a := WorkStep(i, CountRetry);
    case Delaying =>
      var ns := SomeDelay(s.cfg, w.task, w.attempt);
      a := WorkStep(i, Delay(ns));
    case Sleeping => a := WorkStep(i, Timer);
    case Counting => a := WorkStep(i, CountRefusal);
    case Ending(_) => a := WorkStep(i, Finish);
  }

  /** A Submit that waits for room in the queue with a live context. */
  predicate Blocked(s: State, c: Submitter) {
    c.kind.Blocking? && c.pc.SSelect? && !s.tasksClosed && !c.ctxDone && |s.queue| >= s.cfg.queueSize
  }

  predicate SubmitterRests(s: State, c: Submitter) {
    c.pc.SDone? || Blocked(s, c) || (c.pc.SLocking? && (s.writer.Some? || s.pending.Some?))
  }

  lemma SubmitterMove(s: State, i: nat) returns (a: Step)
    requires i < |s.submitters| && !SubmitterRests(s, s.submitters[i])
    ensures a.SubmitStep? && a.i == i && Enabled(s, a) && !External(a)
  {
    match s.submitters[i].pc
    case SStart => a := SubmitStep(i, SValidate);
    case SLocking => a := SubmitStep(i, SLock);
    case SLocked => a := SubmitStep(i, SCheck);
    case SSelect => a := SubmitStep(i, if s.tasksClosed || |s.queue| < s.cfg.queueSize then SSend else SQuit);
    case SSent => a := SubmitStep(i, SCount);
    case SGaveUp(_) => a := SubmitStep(i, SCount);
    case SUnlock(_) => a := SubmitStep(i, SRelease);
  }

  predicate CloserRests(s: State, c: Closer) {
    || c.pc.CDone?
    || (c.pc.CLocking? && (s.writer.Some? || s.pending.Some?))
    || (c.pc.CPending? && s.readers != {})
    || (c.pc.CWait? && s.wg > 0)
  }

  lemma CloserMove(s: State, i: nat) returns (a: Step)
    requires i < |s.closers| && !CloserRests(s, s.closers[i]) && CloserOk(s, s.closers[i])
    ensures a.CloseStep? && a.i == i && Enabled(s, a) && !External(a)
  {
    match s.closers[i].pc
    case CStart => a := CloseStep(i, CValidate);
    case CLocking => a := CloseStep(i, CAnnounce);
    case CPending => a := CloseStep(i, CLock);
    case CLocked => a := CloseStep(i, CMark);
    case CMarked => a := CloseStep(i, CCloseTasks);
    case CUnlock => a := CloseStep(i, CRelease);
    case CSpawn => a := CloseStep(i, CStartWaiter);
    case CWait => a := CloseStep(i, if s.closers[i].waiter.Finished? then CDrained else CWaitDone);
    case CSignal(_) => a := CloseStep(i, CSignalQuit);
  }

  /** In a stuck state every actor is at a point where it may wait. */
  ghost predicate AllRest(s: State) {
    && (forall i :: 0 <= i < |s.workers| ==> WorkerRests(s, s.workers[i]))
    && (forall i :: 0 <= i < |s.submitters| ==> SubmitterRests(s, s.submitters[i]))
    && (forall i :: 0 <= i < |s.closers| ==> CloserRests(s, s.closers[i]))
    && (forall i :: 0 <= i < |s.observers| ==> |s.observers[i].loads| >= FIELDS)
  }

  lemma StuckRests(s: State)
    requires CloseInv(s) && Stuck(s)
    ensures AllRest(s)
  {
    forall i | 0 <= i < |s.workers|
      ensures WorkerRests(s, s.workers[i])
    {
      if !WorkerRests(s, s.workers[i]) {
        var a := WorkerMove(s, i);
      }
    }
    forall i | 0 <= i < |s.submitters|
      ensures SubmitterRests(s, s.submitters[i])
    {
      if !SubmitterRests(s, s.submitters[i]) {
        var a := SubmitterMove(s, i);
      }
    }
    forall i | 0 <= i < |s.closers|
      ensures CloserRests(s, s.closers[i])
    {
      if !CloserRests(s, s.closers[i]) {
        var a := CloserMove(s, i);
      }
    }
    forall i | 0 <= i < |s.observers|
      ensures |s.observers[i].loads| >= FIELDS
    {
      assert Enabled(s, Load(i)) ==> External(Load(i));
    }
  }

  /** The write lock is never what a stuck state waits for. */
  lemma NoStuckWriter(s: State)
    requires LockInv(s) && AllRest(s)
    ensures s.writer.None?
  {
    assert forall i :: 0 <= i < |s.closers| ==> CloserRests(s, s.closers[i]) ==> !HoldsWrite(s.closers[i]);
  }

  lemma AllGoneEmptiesGroup(s: State)
    requires WorkCounts(s) && forall i :: 0 <= i < |s.workers| ==> s.workers[i].Gone?
    ensures s.wg == 0
  {
    SumByZero(Alive, s.workers);
  }

  /** A closed dispatcher only comes to rest with every worker gone and every call returned:
      with ShutdownIsBounded, every maximal run from a closed state ends there. */
  lemma RestsOnlyWhenDone(s: State)
    requires Inv(s) && s.closed && Stuck(s)
    ensures forall i :: 0 <= i < |s.workers| ==> s.workers[i].Gone?
    ensures forall i :: 0 <= i < |s.submitters| ==> s.submitters[i].pc.SDone?
    ensures forall i :: 0 <= i < |s.closers| ==> s.closers[i].pc.CDone? && !s.closers[i].waiter.Waiting?
    ensures forall i :: 0 <= i < |s.observers| ==> |s.observers[i].loads| == FIELDS
  {
    StuckRests(s);
    NoStuckWriter(s);
    assert forall i :: 0 <= i < |s.workers| ==> WorkerRests(s, s.workers[i]);
    AllGoneEmptiesGroup(s);
    assert forall i :: 0 <= i < |s.submitters| ==> SubmitterRests(s, s.submitters[i]);
    assert forall i :: 0 <= i < |s.submitters| ==> !HoldsRead(s.submitters[i]);
    assert s.readers == {};
    assert forall i :: 0 <= i < |s.closers| ==> CloserRests(s, s.closers[i]);
    forall i | 0 <= i < |s.closers|
      ensures !s.closers[i].waiter.Waiting?
    {
      assert !CloseEnabled(s, i, CWaitDone) by {
        assert Enabled(s, CloseStep(i, CWaitDone)) ==> External(CloseStep(i, CWaitDone));
      }
    }
    assert forall i :: 0 <= i < |s.observers| ==> ObserverOk(s.counters, s.observers[i]);
  }

  /** Every pending call returned, every worker and every wait-group goroutine gone. */
  ghost predicate AllDone(s: State) {
    && (forall i :: 0 <= i < |s.workers| ==> s.workers[i].Gone?)
    && (forall i :: 0 <= i < |s.closers| ==> !s.closers[i].waiter.Waiting?)
    && (forall i :: 0 <= i < |s.submitters| ==> s.submitters[i].pc.SDone?)
    && (forall i :: 0 <= i < |s.closers| ==> s.closers[i].pc.CDone?)
  }

  /** A closed dispatcher can always finish by itself, with no help from any context. */
  lemma {:induction false} ShutdownCompletes(s: State) returns (steps: seq<Step>, t: State)
    requires Inv(s) && s.closed && AllBounded(s)
    ensures Runs(s, steps, t) && AllDone(t)
    ensures forall a <- steps :: !External(a)
    decreases Measure(s)
  {
    MeasureNonNegative(s);
    if a: Step :| Enabled(s, a) && !External(a) {
      var u := Apply(s, a);
      StepKeepsInv(s, a);
      AllBoundedStep(s, a, u);
      StepLowersMeasure(s, a, u);
      var rest;
      rest, t := ShutdownCompletes(u);
      RunsCons(s, a, rest, t);
      steps := [a] + rest;
    } else {
      RestsOnlyWhenDone(s);
      steps, t := [], s;
    }
  }
}
