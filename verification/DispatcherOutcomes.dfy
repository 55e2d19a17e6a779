/** What the counters mean in terms of the outcomes of the jobs and predicates, over whole runs;
    and that every choice the program leaves open stays open. */
module DispatcherOutcomes {
  import opened Wrappers
  import opened Dispatcher
  import opened DispatcherInvariant
  import opened DispatcherSafety

  // ---- Counting what happened ----

  function NilCall(a: Step): int { One(a.WorkStep? && a.wact == Call(JobOk)) }

  function AnyOutcome(a: Step): int { One(a.WorkStep? && a.wact.Call?) }

  function Refusal(a: Step): int { One(a.WorkStep? && a.wact == Decide(false)) }

  function QuitSeenStep(a: Step): int { One(a.WorkStep? && a.wact.SeeQuit?) }

  function AtSuccess(w: Worker): int { One(w.Busy? && w.phase == Ending(Success)) }

  function AtRefusal(w: Worker): int { One(w.Busy? && w.phase == Counting) }

  function AtAbandonment(w: Worker): int { One(w.Busy? && w.phase == Ending(Abandoned)) }

  ghost predicate CountsKept(s: State, a: Step, t: State) {
    && t.counters.processed + SumBy(AtSuccess, t.workers)
       == s.counters.processed + SumBy(AtSuccess, s.workers) + NilCall(a)
    && t.counters.predicatesFailed + SumBy(AtRefusal, t.workers)
       == s.counters.predicatesFailed + SumBy(AtRefusal, s.workers) + Refusal(a)
    && t.calls == s.calls + AnyOutcome(a)
    && SumBy(WasAbandoned, t.finished) + SumBy(AtAbandonment, t.workers)
       == SumBy(WasAbandoned, s.finished) + SumBy(AtAbandonment, s.workers) + QuitSeenStep(a)
  }

  lemma WorkerCountsKept(s: State, i: nat, act: WorkAct, t: State)
    requires WorkEnabled(s, i, act) && t == WorkApply(s, i, act)
    ensures CountsKept(s, WorkStep(i, act), t)
  {
    var w := t.workers[i];
    SumByUpdate(AtSuccess, s.workers, i, w);
    SumByUpdate(AtRefusal, s.workers, i, w);
    SumByUpdate(AtAbandonment, s.workers, i, w);
    if act.Finish? {
      SumByAppend(WasAbandoned, s.finished, RecordOf(s.workers[i]));
    }
  }

  lemma StepCountsKept(s: State, a: Step, t: State)
    requires Enabled(s, a) && t == Apply(s, a)
    ensures CountsKept(s, a, t)
  {
    match a
    case WorkStep(i, act) => WorkerCountsKept(s, i, act, t);
    case _ =>
  }

  lemma {:induction false} RunCountsKept(s: State, steps: seq<Step>, t: State)
    requires Runs(s, steps, t)
    ensures t.counters.processed + SumBy(AtSuccess, t.workers)
         == s.counters.processed + SumBy(AtSuccess, s.workers) + SumBy(NilCall, steps)
    ensures t.counters.predicatesFailed + SumBy(AtRefusal, t.workers)
         == s.counters.predicatesFailed + SumBy(AtRefusal, s.workers) + SumBy(Refusal, steps)
    ensures t.calls == s.calls + SumBy(AnyOutcome, steps)
    ensures SumBy(WasAbandoned, t.finished) + SumBy(AtAbandonment, t.workers)
         == SumBy(WasAbandoned, s.finished) + SumBy(AtAbandonment, s.workers) + SumBy(QuitSeenStep, steps)
    decreases |steps|
  {
    if steps != [] {
      StepCountsKept(s, steps[0], Apply(s, steps[0]));
      RunCountsKept(Apply(s, steps[0]), steps[1..], t);
    }
  }

  lemma NothingAtFirst(cfg: Config)
    ensures var ws := Init(cfg).workers;
            SumBy(AtSuccess, ws) == 0 && SumBy(AtRefusal, ws) == 0 && SumBy(AtAbandonment, ws) == 0
  {
    SumByZero(AtSuccess, Init(cfg).workers);
    SumByZero(AtRefusal, Init(cfg).workers);
    SumByZero(AtAbandonment, Init(cfg).workers);
  }

  /** Over any run of a new dispatcher: Processed is the number of Process calls that returned
      nil (those not yet counted aside), never of one that failed or panicked;
      RetryPredicatesFailed is the number of refusals; the tasks abandoned are those whose sleep
      was cut short. */
  lemma CountersMeanOutcomes(cfg: Config, steps: seq<Step>, t: State)
    requires Runs(Init(cfg), steps, t)
    ensures t.counters.processed + SumBy(AtSuccess, t.workers) == SumBy(NilCall, steps)
    ensures t.counters.predicatesFailed + SumBy(AtRefusal, t.workers) == SumBy(Refusal, steps)
    ensures t.calls == SumBy(AnyOutcome, steps)
    ensures SumBy(WasAbandoned, t.finished) + SumBy(AtAbandonment, t.workers) == SumBy(QuitSeenStep, steps)
  {
    NothingAtFirst(cfg);
    RunCountsKept(Init(cfg), steps, t);
  }

  // ---- Choices that stay open ----

  /** A select with several ready cases may take any of them. A Submit whose ctx has ended may
      still send while there is room ... */
  lemma SubmitSelectsAny(cfg: Config, t: State, i: nat)
    requires Reachable(cfg, t) && i < |t.submitters| && t.submitters[i].pc.SSelect?
    requires t.submitters[i].kind.Blocking? && t.submitters[i].ctxDone && |t.queue| < cfg.queueSize
    ensures SubmitEnabled(t, i, SSend) && SubmitApply(t, i, SSend).submitters[i].pc == SSent
    ensures SubmitEnabled(t, i, SQuit) && SubmitApply(t, i, SQuit).submitters[i].pc == SGaveUp(CtxErr)
  {
    ReachableKeepsInv(cfg, t);
  }

  /** ... a sleeping worker may see its timer, and quit if it is closed ... */
  lemma SleepSelectsAny(t: State, i: nat)
    requires i < |t.workers| && t.workers[i].Busy? && t.workers[i].phase.Sleeping?
    ensures WorkEnabled(t, i, Timer) && WorkApply(t, i, Timer).workers[i].phase == Check
    ensures WorkEnabled(t, i, SeeQuit) <==> t.quit
    ensures t.quit ==> WorkApply(t, i, SeeQuit).workers[i].phase == Ending(Abandoned)
  {
  }

  /** ... and a drain whose ctx has ended may return nil or the ctx error once the workers are gone. */
  lemma DrainSelectsAny(t: State, i: nat)
    requires i < |t.closers| && t.closers[i].pc.CWait? && t.closers[i].ctxDone && t.closers[i].waiter.Finished?
    ensures CloseEnabled(t, i, CDrained) && CloseApply(t, i, CDrained).closers[i].pc == CDone(CloseOk)
    ensures CloseEnabled(t, i, CCancelled) && CloseApply(t, i, CCancelled).closers[i].pc == CSignal(CloseCtxErr)
  {
  }

  /** A job may return nil, fail or panic, and only nil ends its task well; after a failure the
      retry predicate may refuse if and only if the task or the configuration has one. */
  lemma JobsEndAnyWay(cfg: Config, t: State, i: nat, job: JobOutcome)
    requires Reachable(cfg, t) && i < |t.workers| && t.workers[i].Busy?
    ensures t.workers[i].phase.Calling? ==>
              && WorkEnabled(t, i, Call(job))
              && WorkApply(t, i, Call(job)).workers[i].phase == (if job == JobOk then Ending(Success) else Errored)
    ensures t.workers[i].phase.Errored? ==>
              && WorkEnabled(t, i, Decide(true))
              && (WorkEnabled(t, i, Decide(false)) <==> t.workers[i].task.hasPredicate || cfg.hasPredicate)
  {
    ReachableKeepsInv(cfg, t);
  }

  /** The points where the dispatcher's own code may panic: the log call before an attempt, the
      retry predicate, the delay computation and its log call, and the log call that follows
      the counters. */
  predicate OwnCode(cfg: Config, w: Worker) {
    || w.Reporting?
    || (w.Busy? && (w.phase == Calling || w.phase == Delaying))
    || (w.Busy? && w.phase == Errored && (w.task.hasPredicate || cfg.hasPredicate))
  }

  /** There, and nowhere else, a worker can be lost; the task it holds is then lost too, counted
      nowhere, and the worker is gone for good. */
  lemma PanicKillsWorker(cfg: Config, t: State, i: nat)
    requires Reachable(cfg, t) && i < |t.workers|
    ensures WorkEnabled(t, i, Panic) <==> OwnCode(cfg, t.workers[i])
    ensures WorkEnabled(t, i, Panic) ==>
              var u := WorkApply(t, i, Panic);
              && u.workers[i] == Unwinding && u.counters == t.counters
              && WorkEnabled(u, i, Leave) && WorkApply(u, i, Leave).workers[i] == Gone(true)
              && Tasks(u.lost) == Tasks(t.lost) + HeldBy(t.workers[i])
  {
    ReachableKeepsInv(cfg, t);
  }
}
