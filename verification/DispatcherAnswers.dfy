/** What the answers of Submit, TrySubmit and CloseWithMode mean, and that the tasks sent are
    exactly those of the calls answered nil. */
module DispatcherAnswers {
  import opened Wrappers
  import opened Dispatcher
  import opened DispatcherInvariant
  import opened DispatcherSafety

  // ---- Submit ----

  /** The call returns that result, or is about to. */
  predicate Answers(c: Submitter, result: SubmitResult) {
    c.pc == SGaveUp(result) || c.pc == SUnlock(result) || c.pc == SDone(result)
  }

  /** The call's task is in the channel, or was. */
  predicate Accepted(c: Submitter) {
    c.pc.SSent? || Answers(c, Enqueued)
  }

  predicate SubmitTruthful(closed: bool, c: Submitter) {
    && (c.pc == SDone(NilCtx) ==> c.nilCtx)
    && (c.pc == SDone(NilJob) ==> !c.nilCtx && c.nilJob)
    && (c.pc.SStart? || c.pc == SDone(NilCtx) || c.pc == SDone(NilJob) || (!c.nilCtx && !c.nilJob))
    && (c.pc.SGaveUp? ==> c.pc.why == if c.kind.Try? then QueueFull else CtxErr)
    && (c.pc.SUnlock? ==> !c.pc.result.NilCtx? && !c.pc.result.NilJob?)
    && (Answers(c, Closed) ==> closed)
    && (Answers(c, QueueFull) ==> c.kind.Try?)
    && (Answers(c, CtxErr) ==> c.kind.Blocking? && c.ctxDone)
  }

  function AcceptedFor(task: Task): Submitter -> int {
    c => One(Accepted(c) && c.task == task)
  }

  ghost predicate SentOnce(s: State, task: Task) {
    multiset(s.sent)[task] == SumBy(AcceptedFor(task), s.submitters)
  }

  // ---- CloseWithMode ----

  predicate CloseTruthful(quit: bool, c: Closer) {
    && (c.pc == CDone(CloseNilCtx) ==> c.nilCtx)
    && (c.pc == CDone(InvalidMode) ==> !c.nilCtx && c.mode.OtherMode?)
    && (c.pc.CStart? || c.pc == CDone(CloseNilCtx) || c.pc == CDone(InvalidMode) || (!c.nilCtx && !c.mode.OtherMode?))
    && (c.pc.CSpawn? || c.pc.CWait? ==> c.mode.Drain?)
    && (c.pc == CSignal(CloseCtxErr) || c.pc == CDone(CloseCtxErr) ==> c.mode.Drain? && c.ctxDone)
    && (c.pc.CSignal? ==> c.pc.result == if c.mode.Immediate? then CloseOk else CloseCtxErr)
    && (c.pc == CDone(CloseCtxErr) || (c.pc == CDone(CloseOk) && c.mode.Immediate?) ==> quit)
  }

  // ---- Every step keeps them ----

  ghost predicate Truthful(s: State) {
    && (s.quit <==> s.quitOnce)
    && (forall i :: 0 <= i < |s.submitters| ==> SubmitTruthful(s.closed, s.submitters[i]))
    && (forall i :: 0 <= i < |s.closers| ==> CloseTruthful(s.quit, s.closers[i]))
  }

  lemma SubmitKeepsTruthful(s: State, i: nat, a: SubmitAct)
    requires Truthful(s) && SubmitEnabled(s, i, a)
    ensures Truthful(SubmitApply(s, i, a))
  {
    assert SubmitTruthful(s.closed, s.submitters[i]);
  }

  lemma CloseKeepsTruthful(s: State, i: nat, a: CloseAct)
    requires Truthful(s) && CloseEnabled(s, i, a)
    ensures Truthful(CloseApply(s, i, a))
  {
    assert CloseTruthful(s.quit, s.closers[i]);
  }

  lemma StepKeepsTruthful(s: State, a: Step)
    requires Truthful(s) && Enabled(s, a)
    ensures Truthful(Apply(s, a))
  {
    match a
    case SubmitStep(i, act) => SubmitKeepsTruthful(s, i, act);
    case CloseStep(i, act) => CloseKeepsTruthful(s, i, act);
    case _ =>
  }

  lemma SubmitKeepsSentOnce(s: State, i: nat, a: SubmitAct, task: Task)
    requires Truthful(s) && SentOnce(s, task) && SubmitEnabled(s, i, a)
    ensures SentOnce(SubmitApply(s, i, a), task)
  {
    assert SubmitTruthful(s.closed, s.submitters[i]);
    SumByUpdate(AcceptedFor(task), s.submitters, i, SubmitApply(s, i, a).submitters[i]);
  }

  lemma StepKeepsSentOnce(s: State, a: Step, task: Task)
    requires Truthful(s) && SentOnce(s, task) && Enabled(s, a)
    ensures SentOnce(Apply(s, a), task)
  {
    match a
    case NewSubmit(kind, x, nilCtx, nilJob) =>
      SumByAppend(AcceptedFor(task), s.submitters, Submitter(kind, x, nilCtx, nilJob, false, SStart));
    case CancelSubmit(i) =>
      SumByUpdate(AcceptedFor(task), s.submitters, i, s.submitters[i].(ctxDone := true));
    case SubmitStep(i, act) => SubmitKeepsSentOnce(s, i, act, task);
    case _ =>
  }

  lemma {:induction false} RunsKeepTruthful(s: State, steps: seq<Step>, t: State, task: Task)
    requires Truthful(s) && SentOnce(s, task) && Runs(s, steps, t)
    ensures Truthful(t) && SentOnce(t, task)
    decreases |steps|
  {
    if steps != [] {
      StepKeepsTruthful(s, steps[0]);
      StepKeepsSentOnce(s, steps[0], task);
      RunsKeepTruthful(Apply(s, steps[0]), steps[1..], t, task);
    }
  }

  lemma ReachableTruthful(cfg: Config, t: State, task: Task)
    requires Reachable(cfg, t)
    ensures Truthful(t) && SentOnce(t, task)
  {
    var steps :| Runs(Init(cfg), steps, t);
    RunsKeepTruthful(Init(cfg), steps, t, task);
  }

  // ---- The results ----

  /** Why a Submit or TrySubmit returned what it did. Nil arguments are reported, the ctx
      first, and only then; ErrClosed means closed; only TrySubmit reports a full queue, and
      only Submit its ctx, which has ended. */
  lemma SubmitAnswer(cfg: Config, t: State, i: nat)
    requires Reachable(cfg, t) && i < |t.submitters| && t.submitters[i].pc.SDone?
    ensures var c, result := t.submitters[i], t.submitters[i].pc.result;
            && (result.NilCtx? <==> c.nilCtx)
            && (result.NilJob? <==> !c.nilCtx && c.nilJob)
            && (result.Closed? ==> t.closed)
            && (result.QueueFull? ==> c.kind.Try?)
            && (result.CtxErr? ==> c.kind.Blocking? && c.ctxDone)
  {
    ReachableTruthful(cfg, t, t.submitters[i].task);
    assert SubmitTruthful(t.closed, t.submitters[i]);
  }

  /** Why a Close returned what it did, and what it left behind. A nil ctx and then an unknown
      mode are reported, and only then; every other Close leaves the dispatcher closed, with
      the channel closed; the ctx error means a drain whose ctx ended; an immediate Close and a
      drain whose ctx ended leave quit closed; a drain that returned nil leaves no worker. */
  lemma CloseAnswer(cfg: Config, t: State, i: nat)
    requires Reachable(cfg, t) && i < |t.closers| && t.closers[i].pc.CDone?
    ensures var c, result := t.closers[i], t.closers[i].pc.result;
            && (result.CloseNilCtx? <==> c.nilCtx)
            && (result.InvalidMode? <==> !c.nilCtx && c.mode.OtherMode?)
            && (result.CloseCtxErr? ==> c.mode.Drain? && c.ctxDone)
            && (result.CloseOk? || result.CloseCtxErr? ==> t.closed && t.tasksClosed)
            && (result.CloseCtxErr? || (result.CloseOk? && c.mode.Immediate?) ==> t.quit)
            && (result.CloseOk? && c.mode.Drain? ==> forall k :: 0 <= k < |t.workers| ==> t.workers[k].Gone?)
  {
    var c := t.closers[i];
    ReachableTruthful(cfg, t, Task(0, None, None, false));
    ReachableKeepsInv(cfg, t);
    assert CloseTruthful(t.quit, c);
    assert CloserOk(t, c);
    if DrainReturnedNil(t, i) {
      DrainSettles(t, i);
    }
  }

  /** The dispatcher executes what was accepted, nothing else and nothing twice: each task
      was accepted exactly as often as it is in the queue, held by a worker, ended, or lost,
      and a call that has returned was accepted if and only if it returned nil. */
  lemma AcceptedIsExecuted(cfg: Config, t: State, task: Task)
    requires Reachable(cfg, t)
    ensures SumBy(AcceptedFor(task), t.submitters)
         == multiset(t.queue)[task] + Held(t.workers)[task]
            + multiset(Tasks(t.finished))[task] + multiset(Tasks(t.lost))[task]
    ensures forall i :: 0 <= i < |t.submitters| && t.submitters[i].pc.SDone? ==>
              (Accepted(t.submitters[i]) <==> t.submitters[i].pc.result.Enqueued?)
  {
    ReachableTruthful(cfg, t, task);
    Conservation(cfg, t);
  }
}
