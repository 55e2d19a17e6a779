/** What the quit signal does to retries: how many more times a task can be attempted after it. */
module DispatcherQuit {
  import opened Dispatcher
  import opened DispatcherInvariant
  import opened DispatcherPreservation
  import opened DispatcherSafety
  import opened DispatcherShutdown
  import opened DispatcherWitnesses

  /** The step by which worker i lets go of its task. */
  predicate LetsGo(i: nat, a: Step) {
    a.WorkStep? && a.i == i && (a.wact.Finish? || a.wact.Panic?)
  }

  /** The Process calls worker i makes, along these steps, for the task it holds at the start. */
  function HeldCalls(i: nat, steps: seq<Step>): nat {
    if steps == [] || LetsGo(i, steps[0]) then 0
    else (if steps[0].WorkStep? && steps[0].i == i && steps[0].wact.Call? then 1 else 0) + HeldCalls(i, steps[1..])
  }

  predicate HoldsBounded(s: State, i: nat) {
    i < |s.workers| && s.workers[i].Busy? && Bounded(s.cfg, s.workers[i].task)
  }

  // ---- No run makes more ----

  lemma HeldStep(s: State, i: nat, a: Step, t: State)
    requires Inv(s) && HoldsBounded(s, i) && Enabled(s, a) && !LetsGo(i, a) && t == Apply(s, a)
    ensures HoldsBounded(t, i)
    ensures CallsLeft(t.cfg, t.workers[i]) + HeldCalls(i, [a]) <= CallsLeft(s.cfg, s.workers[i])
  {
    assert WorkerOk(s, s.workers[i]);
    if a.WorkStep? && a.i == i {
      WorkStepFalls(s, i, a.wact);
    }
  }

  lemma HeldWeights(s: State, i: nat)
    requires Inv(s) && HoldsBounded(s, i)
    ensures CallsLeft(s.cfg, s.workers[i]) >= 0 && WorkerWeight(s.cfg, s.workers[i]) >= 0
  {
    assert WorkerOk(s, s.workers[i]);
    TermOk(s.cfg, s.workers[i]);
  }

  /** Whatever else happens, a task that a worker holds is attempted at most CallsLeft more
      times: none once its last attempt has been made or its end is settled. */
  lemma {:induction false} AttemptsAreBounded(s: State, i: nat, steps: seq<Step>, t: State)
    requires Inv(s) && HoldsBounded(s, i) && Runs(s, steps, t)
    ensures HeldCalls(i, steps) <= CallsLeft(s.cfg, s.workers[i])
    decreases |steps|
  {
    HeldWeights(s, i);
    if steps != [] && !LetsGo(i, steps[0]) {
      var u := Apply(s, steps[0]);
      HeldStep(s, i, steps[0], u);
      StepKeepsInv(s, steps[0]);
      AttemptsAreBounded(u, i, steps[1..], t);
    }
  }

  // ---- Some run makes as many, quit or not ----

  /** A step towards the next attempt. */
  lemma RetryAct(cfg: Config, quit: bool, w: Worker) returns (a: WorkAct)
    requires w.Busy? && Bounded(cfg, w.task) && AttemptsOk(cfg, w) && CallsLeft(cfg, w) > 0
    ensures !a.Finish? && !a.Panic? && BusyEnabled(cfg, quit, w, a)
    ensures var w' := BusyNext(cfg, w, a);
            && w'.Busy? && w'.task == w.task
            && WorkerWeight(cfg, w') < WorkerWeight(cfg, w)
            && CallsLeft(cfg, w') + (if a.Call? then 1 else 0) == CallsLeft(cfg, w)
  {
    match w.phase
    case Check => a := Loop;
    case Calling => a := Call(JobErr);
    case Errored => a := Decide(true);
    case Retrying => a := CountRetry;
    case Delaying =>
      var ns := SomeDelay(cfg, w.task, w.attempt);
      a := Delay(ns);
    case Sleeping => a := Timer;
  }

  lemma OneStepMore(s: State, i: nat, a: Step, rest: seq<Step>, t: State) returns (steps: seq<Step>)
    requires a.WorkStep? && a.i == i && !LetsGo(i, a) && Enabled(s, a)
    requires Runs(Apply(s, a), rest, t) && OnlyWorker(i, rest)
    ensures Runs(s, steps, t) && OnlyWorker(i, steps)
    ensures HeldCalls(i, steps) == HeldCalls(i, [a]) + HeldCalls(i, rest)
  {
    steps := [a] + rest;
    assert steps[1..] == rest;
  }

  lemma RetryStep(s: State, i: nat) returns (a: Step, t: State)
    requires Inv(s) && HoldsBounded(s, i) && CallsLeft(s.cfg, s.workers[i]) > 0
    ensures a.WorkStep? && a.i == i && !LetsGo(i, a) && Enabled(s, a) && t == Apply(s, a)
    ensures Inv(t) && HoldsBounded(t, i)
    ensures 0 <= WorkerWeight(t.cfg, t.workers[i]) < WorkerWeight(s.cfg, s.workers[i])
    ensures CallsLeft(t.cfg, t.workers[i]) + HeldCalls(i, [a]) == CallsLeft(s.cfg, s.workers[i])
  {
    assert WorkerOk(s, s.workers[i]);
    var act := RetryAct(s.cfg, s.quit, s.workers[i]);
    a := WorkStep(i, act);
    t := WorkApply(s, i, act);
    BusyApplies(s, i, act, t);
    StepKeepsInv(s, a);
    HeldWeights(t, i);
  }

  /** A step inside execute, seen from the whole state. */
  lemma BusyApplies(s: State, i: nat, act: WorkAct, t: State)
    requires i < |s.workers| && s.workers[i].Busy? && BusyEnabled(s.cfg, s.quit, s.workers[i], act)
    requires t == WorkApply(s, i, act)
    ensures Enabled(s, WorkStep(i, act)) && t == Apply(s, WorkStep(i, act))
    ensures t.cfg == s.cfg && i < |t.workers| && t.workers[i] == BusyNext(s.cfg, s.workers[i], act)
  {
  }

  /** That many attempts can be made by the worker alone. */
  lemma {:induction false} AllAttemptsPossible(s: State, i: nat) returns (steps: seq<Step>, t: State)
    requires Inv(s) && HoldsBounded(s, i)
    ensures Runs(s, steps, t) && HeldCalls(i, steps) == CallsLeft(s.cfg, s.workers[i])
    ensures OnlyWorker(i, steps)
    decreases WorkerWeight(s.cfg, s.workers[i])
  {
    HeldWeights(s, i);
    if CallsLeft(s.cfg, s.workers[i]) == 0 {
      steps, t := [], s;
    } else {
      var a, u := RetryStep(s, i);
      var rest;
      rest, t := AllAttemptsPossible(u, i);
      steps := OneStepMore(s, i, a, rest, t);
    }
  }

  ghost predicate AttemptedAgain(s: State, i: nat) {
    exists steps: seq<Step>, t: State :: Runs(s, steps, t) && HeldCalls(i, steps) > 0
  }

  /** After quit was closed a task that a worker holds can be attempted again if and only if
      its limit leaves an attempt and its end is not settled: the signal itself never rules an
      attempt out, because the timer may win the select. */
  lemma AttemptAfterQuitIff(cfg: Config, s: State, i: nat)
    requires Reachable(cfg, s) && s.quit && HoldsBounded(s, i)
    ensures AttemptedAgain(s, i) <==> CallsLeft(cfg, s.workers[i]) > 0
  {
    ReachableKeepsInv(cfg, s);
    if AttemptedAgain(s, i) {
      var steps, t :| Runs(s, steps, t) && HeldCalls(i, steps) > 0;
      AttemptsAreBounded(s, i, steps, t);
    } else {
      var steps, t := AllAttemptsPossible(s, i);
      HeldWeights(s, i);
    }
  }

  // ---- It happens ----

  /** A worker takes a task, and its first attempt fails. */
  lemma FailsOnce(cfg: Config, s: State) returns (t: State)
    requires Reachable(cfg, s) && s.workers != [] && s.workers[0].Idle? && s.queue != []
    requires MaxRetries(s.cfg, s.queue[0]) >= 1
    ensures Reachable(cfg, t)
    ensures t == s.(workers := s.workers[0 := Busy(s.queue[0], 0, 1, 0, Errored)], queue := s.queue[1..],
                    received := s.received + [s.queue[0]], calls := s.calls + 1)
  {
    var s1 := WorkerMoves(cfg, s, 0, Receive);
    var s2 := WorkerMoves(cfg, s1, 0, Loop);
    t := WorkerMoves(cfg, s2, 0, Call(JobErr));
    assert t.workers == s.workers[0 := Busy(s.queue[0], 0, 1, 0, Errored)];
  }

  /** ... and it goes to sleep. */
  lemma FallsAsleep(cfg: Config, s: State, task: Task) returns (t: State)
    requires Reachable(cfg, s) && s.cfg.strategy.Constant?
    requires s.workers != [] && s.workers[0] == Busy(task, 0, 1, 0, Errored)
    requires MaxRetries(s.cfg, task) >= 1 && BaseDelay(s.cfg, task) > 0
    ensures Reachable(cfg, t)
    ensures t == s.(workers := s.workers[0 := Busy(task, 0, 1, 1, Sleeping)],
                    counters := s.counters.(retried := s.counters.retried + 1))
  {
    var s1 := WorkerMoves(cfg, s, 0, Decide(true));
    var s2 := WorkerMoves(cfg, s1, 0, CountRetry);
    assert DelayIs(s.cfg, task, 0, 0, BaseDelay(s.cfg, task));
    t := WorkerMoves(cfg, s2, 0, Delay(BaseDelay(s.cfg, task)));
    assert t.workers == s.workers[0 := Busy(task, 0, 1, 1, Sleeping)];
  }

  /** A state in which quit has been closed, by an immediate Close that has returned, and a
      worker sleeps before another attempt. */
  lemma QuitWhileSleeping(cfg: Config, task: Task) returns (t: State)
    requires cfg.Valid() && cfg.strategy.Constant?
    requires MaxRetries(cfg, task) >= 1 && BaseDelay(cfg, task) > 0
    ensures Reachable(cfg, t) && t.quit && t.closers == [Closer(Immediate, false, false, CDone(CloseOk), NotStarted)]
    ensures |t.workers| > 0 && t.workers[0] == Busy(task, 0, 1, 1, Sleeping) && CallsLeft(cfg, t.workers[0]) > 0
  {
    InitReachable(cfg);
    var s1 := SubmitSends(cfg, Init(cfg), task);
    var s2 := FailsOnce(cfg, s1);
    var s3 := FallsAsleep(cfg, s2, task);
    var s4 := SubmitReturns(cfg, s3, 0);
    assert s4.readers == {};
    var s5 := CloseGoesThrough(cfg, s4, Immediate);
    t := CloserMoves(cfg, s5, 0, CSignalQuit);
  }
}
