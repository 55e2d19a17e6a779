/** Progress from any state, closed or not: with limits below the largest int every run settles,
    and every Close has returned by then unless the dispatcher is hung; without, one task can
    be retried for ever and keep a Close waiting. */
module DispatcherProgress {
  import opened Wrappers
  import opened GoInts
  import opened Dispatcher
  import opened DispatcherInvariant
  import opened DispatcherPreservation
  import opened DispatcherSafety
  import opened DispatcherShutdown
  import opened DispatcherWitnesses
  import opened DispatcherHang

  // ---- What the calls under way may still send ----

  /** A call whose task is not sent yet and may still be. */
  predicate Unsent(c: Submitter) {
    c.pc.SStart? || c.pc.SLocking? || c.pc.SLocked? || c.pc.SSelect?
  }

  function UnsentBy(f: Task -> int): Submitter -> int {
    c => if Unsent(c) then f(c.task) else 0
  }

  ghost function Coming(f: Task -> int, s: State): int {
    if s.closed then 0 else SumBy(UnsentBy(f), s.submitters)
  }

  ghost function OpenMeasure(s: State): int {
    Measure(s) + Coming(TaskWeightIn(s.cfg), s)
  }

  ghost function OpenWorkLeft(s: State): int {
    WorkLeft(s) + Coming(TaskWeightIn(s.cfg), s)
  }

  ghost function OpenCalls(s: State): int {
    RemainingCalls(s) + Coming(MaxAttemptsIn(s.cfg), s)
  }

  ghost predicate EveryoneBounded(s: State) {
    && AllBounded(s)
    && (!s.closed ==> forall c <- s.submitters :: Unsent(c) ==> Bounded(s.cfg, c.task))
  }

  /** What a new call may add. */
  function NewTask(f: Task -> int): Step -> int {
    (a: Step) => if a.NewSubmit? then f(a.task) else 0
  }

  function NewOpenWeight(cfg: Config): Step -> int {
    (a: Step) => NewWeight(a) + NewTask(TaskWeightIn(cfg))(a)
  }

  predicate NewBounded(cfg: Config, a: Step) {
    a.NewSubmit? ==> Bounded(cfg, a.task)
  }

  // ---- Every step lowers it ----

  lemma ComingNonNegative(f: Task -> int, s: State)
    requires forall x :: f(x) >= 0
    ensures Coming(f, s) >= 0
  {
    forall c: Submitter
      ensures UnsentBy(f)(c) >= 0
    {
      assert f(c.task) >= 0;
    }
    SumByNonNegative(UnsentBy(f), s.submitters);
  }

  /** What a Submit step moves into the queue it takes from what is coming. */
  lemma SubmitMovesTask(f: Task -> int, s: State, i: nat, a: SubmitAct, t: State)
    requires forall x :: f(x) >= 0
    requires Inv(s) && SubmitEnabled(s, i, a) && t == SubmitApply(s, i, a)
    ensures SumBy(f, t.queue) + Coming(f, t) <= SumBy(f, s.queue) + Coming(f, s)
  {
    SumByUpdate(UnsentBy(f), s.submitters, i, t.submitters[i]);
    if a.SSend? {
      assert PastCheck(s.submitters[i]);
      SumByAppend(f, s.queue, s.submitters[i].task);
    }
  }

  lemma SubmitPcFalls(s: State, i: nat, a: SubmitAct, t: State)
    requires SubmitEnabled(s, i, a) && t == SubmitApply(s, i, a)
    ensures SumBy(SubmitterWeight, t.submitters) < SumBy(SubmitterWeight, s.submitters)
  {
    SumByUpdate(SubmitterWeight, s.submitters, i, t.submitters[i]);
  }

  lemma SubmitLowersOpen(s: State, i: nat, a: SubmitAct, t: State)
    requires Inv(s) && SubmitEnabled(s, i, a) && t == SubmitApply(s, i, a)
    ensures OpenMeasure(t) < OpenMeasure(s) && OpenWorkLeft(t) <= OpenWorkLeft(s)
    ensures OpenCalls(t) + t.calls <= OpenCalls(s) + s.calls
  {
    SubmitMovesTask(TaskWeightIn(s.cfg), s, i, a, t);
    SubmitMovesTask(MaxAttemptsIn(s.cfg), s, i, a, t);
    SubmitPcFalls(s, i, a, t);
  }

  /** Steps that leave the submitters alone. */
  lemma ComingFrame(f: Task -> int, s: State, t: State)
    requires forall x :: f(x) >= 0
    requires t.submitters == s.submitters && (s.closed ==> t.closed)
    ensures Coming(f, t) <= Coming(f, s)
  {
    ComingNonNegative(f, s);
  }

  lemma OtherLowersOpen(s: State, a: Step, t: State)
    requires Inv(s) && EveryoneBounded(s) && Enabled(s, a) && t == Apply(s, a)
    requires a.CloseStep? || a.WorkStep? || a.Load?
    ensures OpenMeasure(t) < OpenMeasure(s) && OpenWorkLeft(t) + WorkSteps(a) <= OpenWorkLeft(s)
    ensures OpenCalls(t) + t.calls <= OpenCalls(s) + s.calls
  {
    StepKeepsConfig(s, a);
    ComingFrame(TaskWeightIn(s.cfg), s, t);
    ComingFrame(MaxAttemptsIn(s.cfg), s, t);
    match a
    case CloseStep(i, act) => CloseLowersMeasure(s, i, act, t);
    case WorkStep(i, act) => WorkLowersMeasure(s, i, act, t);
    case Load(i) => LoadLowersMeasure(s, i, t);
  }

  lemma NewTaskComes(f: Task -> int, s: State, a: Step, t: State)
    requires forall x :: f(x) >= 0
    requires Enabled(s, a) && External(a) && t == Apply(s, a)
    ensures Coming(f, t) <= Coming(f, s) + NewTask(f)(a)
  {
    match a
    case NewSubmit(_, _, _, _) => SumByAppend(UnsentBy(f), s.submitters, t.submitters[|s.submitters|]);
    case CancelSubmit(i) => SumByUpdate(UnsentBy(f), s.submitters, i, t.submitters[i]);
    case _ =>
  }

  lemma ExternalKeepsOpen(s: State, a: Step, t: State)
    requires Enabled(s, a) && External(a) && t == Apply(s, a)
    ensures OpenMeasure(t) <= OpenMeasure(s) + NewOpenWeight(s.cfg)(a)
    ensures OpenWorkLeft(t) <= OpenWorkLeft(s) + NewTask(TaskWeightIn(s.cfg))(a)
    ensures OpenCalls(t) + t.calls <= OpenCalls(s) + s.calls + NewTask(MaxAttemptsIn(s.cfg))(a)
  {
    StepKeepsConfig(s, a);
    NewTaskComes(TaskWeightIn(s.cfg), s, a, t);
    NewTaskComes(MaxAttemptsIn(s.cfg), s, a, t);
    if NewCall(a) {
      NewCallAddsWeight(s, a, t);
    } else {
      CancelKeepsMeasure(s, a, t);
    }
  }

  lemma NoNewWeight(cfg: Config, a: Step)
    ensures !NewCall(a) ==> NewTask(TaskWeightIn(cfg))(a) == 0 && NewTask(MaxAttemptsIn(cfg))(a) == 0
    ensures !NewCall(a) ==> NewOpenWeight(cfg)(a) == 0
  {
    assert NewOpenWeight(cfg)(a) == NewWeight(a) + NewTask(TaskWeightIn(cfg))(a);
    if !NewCall(a) {
      assert NewWeight(a) == 0;
    }
  }

  lemma OpenStepFalls(s: State, a: Step, t: State)
    requires Inv(s) && EveryoneBounded(s) && Enabled(s, a) && t == Apply(s, a)
    ensures OpenMeasure(t) + Internal(a) <= OpenMeasure(s) + NewOpenWeight(s.cfg)(a)
    ensures OpenWorkLeft(t) + WorkSteps(a) <= OpenWorkLeft(s) + NewTask(TaskWeightIn(s.cfg))(a)
    ensures OpenCalls(t) + t.calls <= OpenCalls(s) + s.calls + NewTask(MaxAttemptsIn(s.cfg))(a)
  {
    NoNewWeight(s.cfg, a);
    if External(a) {
      ExternalKeepsOpen(s, a, t);
    } else if a.SubmitStep? {
      SubmitLowersOpen(s, a.i, a.sact, t);
    } else {
      OtherLowersOpen(s, a, t);
    }
  }

  lemma SubmitKeepsBounded(s: State, i: nat, a: SubmitAct, t: State)
    requires Inv(s) && EveryoneBounded(s) && SubmitEnabled(s, i, a) && t == SubmitApply(s, i, a)
    ensures EveryoneBounded(t)
  {
    assert s.submitters[i] in s.submitters;
    if a.SSend? {
      assert PastCheck(s.submitters[i]);
    }
  }

  lemma OpenStepKeepsBounded(s: State, a: Step, t: State)
    requires Inv(s) && EveryoneBounded(s) && Enabled(s, a) && t == Apply(s, a)
    requires s.closed || NewBounded(s.cfg, a)
    ensures EveryoneBounded(t)
  {
    match a
    case WorkStep(i, act) => WorkKeepsBounded(s, i, act);
    case SubmitStep(i, act) => SubmitKeepsBounded(s, i, act, t);
    case CancelSubmit(i) => assert s.submitters[i] in s.submitters;
    case _ =>
  }

  lemma OpenNonNegative(s: State)
    requires Inv(s) && EveryoneBounded(s)
    ensures OpenMeasure(s) >= 0 && OpenWorkLeft(s) >= 0 && OpenCalls(s) >= 0
  {
    MeasureNonNegative(s);
    ComingNonNegative(TaskWeightIn(s.cfg), s);
    ComingNonNegative(MaxAttemptsIn(s.cfg), s);
  }

  // ---- Every run settles ----

  /** From any state every run takes at most OpenMeasure(s) steps of the dispatcher, at most
      OpenWorkLeft(s) worker steps and OpenCalls(s) Process calls, plus what each new call adds. */
  lemma {:induction false} RunIsBounded(s: State, steps: seq<Step>, t: State)
    requires Inv(s) && EveryoneBounded(s) && Runs(s, steps, t)
    requires s.closed || forall a <- steps :: NewBounded(s.cfg, a)
    ensures Inv(t) && EveryoneBounded(t)
    ensures t.calls - s.calls <= OpenCalls(s) + SumBy(NewTask(MaxAttemptsIn(s.cfg)), steps)
    ensures SumBy(WorkSteps, steps) <= OpenWorkLeft(s) + SumBy(NewTask(TaskWeightIn(s.cfg)), steps)
    ensures 0 <= OpenMeasure(t) <= OpenMeasure(s) + SumBy(NewOpenWeight(s.cfg), steps) - SumBy(Internal, steps)
    decreases |steps|
  {
    if steps == [] {
      OpenNonNegative(s);
    } else {
      var a, u := steps[0], Apply(s, steps[0]);
      StepKeepsInv(s, a);
      StepKeepsConfig(s, a);
      OpenStepKeepsBounded(s, a, u);
      OpenStepFalls(s, a, u);
      RunIsBounded(u, steps[1..], t);
    }
  }

  /** Some Close that waits for the write lock waits for ever. */
  ghost predicate IsHung(s: State) {
    exists p, j :: Hung(s, p, j)
  }

  /** At rest every Close has returned if and only if the dispatcher is not hung, and once one
      has got the write lock everything has ended. */
  lemma RestIff(s: State)
    requires Inv(s) && Stuck(s)
    ensures (forall i :: 0 <= i < |s.closers| ==> s.closers[i].pc.CDone?) <==> !IsHung(s)
    ensures s.closed ==> AllDone(s)
  {
    if i: nat :| i < |s.closers| && !s.closers[i].pc.CDone? {
      var p, j := StuckCloseMeansHung(s, i);
    }
    if s.closed {
      RestsOnlyWhenDone(s);
    }
  }

  lemma MoveMeansMeasure(s: State, a: Step)
    requires Inv(s) && EveryoneBounded(s) && Enabled(s, a) && !External(a)
    ensures OpenMeasure(s) > 0
  {
    var t := Apply(s, a);
    StepKeepsInv(s, a);
    OpenStepKeepsBounded(s, a, t);
    OpenStepFalls(s, a, t);
    OpenNonNegative(t);
  }

  /** Every order of steps settles: whichever steps are taken, whatever is called and cancelled
      on the way, from any state, closed or not, once the run has taken as many steps of the
      dispatcher as the measure and the new calls allow, nothing can move, and every Close has
      returned unless the dispatcher is hung; before that, something can move or it is so too. */
  lemma EveryRunSettles(s: State, steps: seq<Step>, t: State)
    requires Inv(s) && EveryoneBounded(s) && Runs(s, steps, t)
    requires s.closed || forall a <- steps :: NewBounded(s.cfg, a)
    ensures SumBy(Internal, steps) <= OpenMeasure(s) + SumBy(NewOpenWeight(s.cfg), steps)
    ensures SumBy(Internal, steps) == OpenMeasure(s) + SumBy(NewOpenWeight(s.cfg), steps) ==> Stuck(t)
    ensures Stuck(t) ==> ((forall i :: 0 <= i < |t.closers| ==> t.closers[i].pc.CDone?) <==> !IsHung(t))
    ensures Stuck(t) && t.closed ==> AllDone(t)
  {
    RunIsBounded(s, steps, t);
    if Stuck(t) {
      RestIff(t);
    } else {
      var a :| Enabled(t, a) && !External(a);
      MoveMeansMeasure(t, a);
    }
  }

  /** In particular after Close: from a closed state without new calls, everything has ended
      after Measure(s) steps of the dispatcher. */
  lemma EveryShutdownFinishes(s: State, steps: seq<Step>, t: State)
    requires Inv(s) && s.closed && AllBounded(s) && Runs(s, steps, t)
    requires forall a <- steps :: !NewCall(a)
    ensures SumBy(Internal, steps) <= Measure(s)
    ensures SumBy(Internal, steps) == Measure(s) ==> AllDone(t)
    ensures AllDone(t) || exists a :: Enabled(t, a) && !External(a)
  {
    EveryRunSettles(s, steps, t);
    ShutdownIsBounded(s, steps, t);
    forall a | a in steps
      ensures NewOpenWeight(s.cfg)(a) == 0
    {
      NoNewWeight(s.cfg, a);
    }
    SumByZero(NewOpenWeight(s.cfg), steps);
  }

  // ---- Endless retries ----

  /** A worker that holds a task with the largest int as limit, whose end is not settled. */
  predicate Endless(cfg: Config, w: Worker) {
    w.Busy? && !Bounded(cfg, w.task) && !w.phase.Counting? && !w.phase.Ending?
  }

  lemma EndlessAct(cfg: Config, quit: bool, w: Worker) returns (a: WorkAct)
    requires Endless(cfg, w)
    ensures !a.Finish? && !a.Panic? && !a.CountRefusal?
    ensures BusyEnabled(cfg, quit, w, a) && Endless(cfg, BusyNext(cfg, w, a)) && BusyNext(cfg, w, a).task == w.task
  {
    match w.phase
    case Check => a := Loop;
    case Calling => a := Call(JobErr);
    case Errored => a := Decide(true);
    case Retrying => a := CountRetry;
    case Delaying =>
      var ns := SomeDelay(cfg, w.task, w.attempt);
      a := Delay(ns);
    case Sleeping => a := Timer;
  }

  /** Why it has no end: after the attempt numbered by the largest int, which is not counted as
      retried, comes the most negative number, and the next failure is retried as before. */
  lemma AttemptWraps(cfg: Config, w: Worker)
    requires Endless(cfg, w) && w.phase.Errored? && w.attempt == TWO_63 - 1
    ensures var w1 := BusyNext(cfg, w, Decide(true));
            && w1 == w.(attempt := -TWO_63, phase := Check)
            && BusyNext(cfg, w1, Loop).phase == Calling
            && BusyNext(cfg, BusyNext(cfg, BusyNext(cfg, w1, Loop), Call(JobErr)), Decide(true)).phase == Retrying
  {
  }

  lemma EndlessStep(s: State, i: nat) returns (a: Step, t: State)
    requires i < |s.workers| && Endless(s.cfg, s.workers[i])
    ensures a.WorkStep? && a.i == i && Enabled(s, a) && t == Apply(s, a)
    ensures i < |t.workers| && Endless(t.cfg, t.workers[i])
    ensures t.closers == s.closers && t.submitters == s.submitters && t.queue == s.queue
  {
    var act := EndlessAct(s.cfg, s.quit, s.workers[i]);
    a := WorkStep(i, act);
    t := WorkApply(s, i, act);
  }

  /** It can go on by itself for any number of steps, while nobody else moves. */
  lemma {:induction false} EndlessRetries(s: State, i: nat, n: nat) returns (steps: seq<Step>, t: State)
    requires i < |s.workers| && Endless(s.cfg, s.workers[i])
    ensures Runs(s, steps, t) && OnlyWorker(i, steps) && |steps| == n
    ensures i < |t.workers| && Endless(t.cfg, t.workers[i])
    ensures t.closers == s.closers && t.submitters == s.submitters && t.queue == s.queue
    decreases n
  {
    if n == 0 {
      steps, t := [], s;
    } else {
      var a, u := EndlessStep(s, i);
      var rest;
      rest, t := EndlessRetries(u, i, n - 1);
      steps := [a] + rest;
      RunsCons(s, a, rest, t);
    }
  }

  /** So a Close can wait for ever beside a live worker: its ctx has ended, but it waits for a
      Submit that is blocked on the full queue, and the only worker retries one task. */
  ghost predicate Starved(s: State) {
    && |s.workers| == 1 && Endless(s.cfg, s.workers[0])
    && (exists j :: 0 <= j < |s.submitters| && Blocked(s, s.submitters[j]))
    && |s.closers| == 1 && s.closers[0].pc.CPending? && s.closers[0].ctxDone
  }

  lemma CloseCanStarve(cfg: Config, task: Task, n: nat) returns (s: State, steps: seq<Step>, t: State)
    requires cfg.workerCount == 1 && cfg.queueSize == 1 && !Bounded(cfg, task)
    ensures Reachable(cfg, s) && Starved(s)
    ensures Runs(s, steps, t) && OnlyWorker(0, steps) && |steps| == n && t.closers == s.closers
  {
    s := StarvedState(cfg, task);
    steps, t := EndlessRetries(s, 0, n);
  }

  lemma StarvedState(cfg: Config, task: Task) returns (t: State)
    requires cfg.workerCount == 1 && cfg.queueSize == 1 && !Bounded(cfg, task)
    ensures Reachable(cfg, t) && Starved(t)
  {
    InitReachable(cfg);
    var s1 := SubmitSends(cfg, Init(cfg), task);
    var s2 := WorkerMoves(cfg, s1, 0, Receive);
    var s3 := SubmitSends(cfg, s2, task);
    var s4 := SubmitToSelect(cfg, s3, task);
    t := CloseArrives(cfg, s4);
    assert Blocked(t, t.submitters[2]);
  }

  /** A drain Close that has announced itself, and whose ctx then ends. */
  lemma CloseArrives(cfg: Config, s: State) returns (t: State)
    requires Reachable(cfg, s) && s.closers == [] && s.writer.None? && s.pending.None?
    ensures Reachable(cfg, t)
    ensures t == s.(closers := [Closer(Drain, false, true, CPending, NotStarted)], pending := Some(0))
  {
    var s1 := Apply(s, NewClose(Drain, false));
    ReachableStep(cfg, s, NewClose(Drain, false));
    var s2 := CloserMoves(cfg, s1, 0, CValidate);
    var s3 := CloserMoves(cfg, s2, 0, CAnnounce);
    ReachableStep(cfg, s3, CancelClose(0));
    t := Apply(s3, CancelClose(0));
  }
}
