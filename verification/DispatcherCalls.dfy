/** What one Submit, TrySubmit or CloseWithMode does when nobody else moves: its answer and its
    effect in every case. */
module DispatcherCalls {
  import opened Dispatcher
  import opened DispatcherInvariant
  import opened DispatcherSafety
  import opened DispatcherShutdown

  // ---- Submit and TrySubmit ----

  /** All steps are of submitter i. */
  ghost predicate OnlySubmitter(i: nat, steps: seq<Step>) {
    forall k :: 0 <= k < |steps| ==> steps[k].SubmitStep? && steps[k].i == i
  }

  predicate Sent(pc: SubmitPc) {
    pc == SSent || pc == SUnlock(Enqueued) || pc == SDone(Enqueued)
  }

  predicate Dropped(pc: SubmitPc) {
    pc == SUnlock(QueueFull) || pc == SDone(QueueFull) || pc == SUnlock(CtxErr) || pc == SDone(CtxErr)
  }

  /** The state s, but for what submitter i has done by itself to get to pc. */
  function SubmitEffect(s: State, i: nat, pc: SubmitPc): State
    requires i < |s.submitters|
  {
    var c := s.submitters[i].(pc := pc);
    var n := s.counters;
    s.(submitters := s.submitters[i := c],
       readers := if HoldsRead(c) then s.readers + {i} else s.readers,
       queue := if Sent(pc) then s.queue + [c.task] else s.queue,
       sent := if Sent(pc) then s.sent + [c.task] else s.sent,
       counters := if Sent(pc) && pc != SSent then n.(enqueued := n.enqueued + 1)
                   else if Dropped(pc) then n.(dropped := n.dropped + 1) else n)
  }

  /** Why submitter i may be at that point. */
  predicate Justified(s: State, c: Submitter, pc: SubmitPc) {
    var live := !c.nilCtx && !c.nilJob;
    var full := |s.queue| == s.cfg.queueSize;
    match pc
    case SStart => true
    case SLocking => live
    case SLocked => live
    case SSelect => live && !s.closed
    case SSent => live && !s.closed && !full
    case SGaveUp(why) => GaveUpFor(s, c, why)
    case SUnlock(why) => ReturnsFor(s, c, why) && !why.NilCtx? && !why.NilJob?
    case SDone(why) => ReturnsFor(s, c, why)
  }

  predicate GaveUpFor(s: State, c: Submitter, why: SubmitResult) {
    && !c.nilCtx && !c.nilJob && !s.closed
    && ((why.QueueFull? && c.kind.Try? && |s.queue| == s.cfg.queueSize)
        || (why.CtxErr? && c.kind.Blocking? && c.ctxDone))
  }

  /** What the call returns for, in terms of the state it found and of its arguments. */
  predicate ReturnsFor(s: State, c: Submitter, why: SubmitResult) {
    match why
    case NilCtx => c.nilCtx
    case NilJob => !c.nilCtx && c.nilJob
    case Closed => !c.nilCtx && !c.nilJob && s.closed
    case Enqueued => !c.nilCtx && !c.nilJob && !s.closed && |s.queue| < s.cfg.queueSize
    case QueueFull => GaveUpFor(s, c, why)
    case CtxErr => GaveUpFor(s, c, why)
  }

  ghost predicate LockFree(s: State) {
    s.writer.None? && s.pending.None?
  }

  ghost predicate Along(s: State, i: nat, t: State) {
    && i < |s.submitters| && i < |t.submitters|
    && t == SubmitEffect(s, i, t.submitters[i].pc)
    && Justified(s, s.submitters[i], t.submitters[i].pc)
  }

  lemma StepIsJustified(s: State, i: nat, t: State, a: SubmitAct)
    requires Along(s, i, t) && SubmitEnabled(t, i, a)
    requires |s.queue| <= s.cfg.queueSize && (s.closed <==> s.tasksClosed)
    ensures Justified(s, s.submitters[i], SubmitNext(t, t.submitters[i], a))
    ensures var c := t.submitters[i];
            SubmitterWeight(c.(pc := SubmitNext(t, c, a))) < SubmitterWeight(c)
  {
  }

  lemma StepHasEffect(s: State, i: nat, t: State, a: SubmitAct, u: State)
    requires Along(s, i, t) && SubmitEnabled(t, i, a) && u == SubmitApply(t, i, a)
    requires i !in s.readers && (s.closed <==> s.tasksClosed)
    ensures i < |u.submitters| && u == SubmitEffect(s, i, u.submitters[i].pc)
  {
    assert u.submitters == s.submitters[i := s.submitters[i].(pc := u.submitters[i].pc)];
  }

  lemma LoneStep(s: State, i: nat, t: State, a: SubmitAct, u: State)
    requires Inv(s) && Along(s, i, t) && i !in s.readers && (s.closed <==> s.tasksClosed)
    requires SubmitEnabled(t, i, a) && u == SubmitApply(t, i, a)
    ensures Along(s, i, u)
    ensures SubmitterWeight(u.submitters[i]) < SubmitterWeight(t.submitters[i])
  {
    StepIsJustified(s, i, t, a);
    StepHasEffect(s, i, t, a, u);
  }

  lemma {:induction false} LoneRun(s: State, i: nat, t: State, steps: seq<Step>, u: State)
    requires Inv(s) && Along(s, i, t) && i !in s.readers && (s.closed <==> s.tasksClosed)
    requires Runs(t, steps, u) && OnlySubmitter(i, steps)
    ensures Along(s, i, u)
    ensures |steps| + SubmitterWeight(u.submitters[i]) <= SubmitterWeight(t.submitters[i])
    decreases |steps|
  {
    if steps != [] {
      var t' := Apply(t, steps[0]);
      assert steps[0].SubmitStep? && steps[0].i == i;
      LoneStep(s, i, t, steps[0].sact, t');
      LoneRun(s, i, t', steps[1..], u);
    }
  }

  /** A call that runs alone from its start while the lock is free, and has no step left: it
      took at most six steps, and it is where its arguments and the state it found put it.
      Nothing else in the state has changed. */
  lemma LoneSubmit(cfg: Config, s: State, i: nat, steps: seq<Step>, t: State)
    requires Reachable(cfg, s) && LockFree(s) && i < |s.submitters| && s.submitters[i].pc.SStart?
    requires Runs(s, steps, t) && OnlySubmitter(i, steps) && i < |t.submitters|
    requires forall a :: !SubmitEnabled(t, i, a)
    ensures |steps| <= 6
    ensures t == SubmitEffect(s, i, t.submitters[i].pc)
    ensures t.submitters[i].pc in LonePcs(s, s.submitters[i])
  {
    ReachableKeepsInv(cfg, s);
    AlongAtFirst(s, i);
    LoneRun(s, i, s, steps, t);
    LoneEnd(s, i, t);
    LonePc(s, s.submitters[i], t.submitters[i].pc);
  }

  /** Where the arguments and the state it found put a lone call: one place, but for a Submit
      whose ctx has ended and that finds room. */
  function LonePcs(s: State, c: Submitter): set<SubmitPc> {
    if c.nilCtx then {SDone(NilCtx)}
    else if c.nilJob then {SDone(NilJob)}
    else if s.closed then {SDone(Closed)}
    else if |s.queue| < s.cfg.queueSize then
      if c.kind.Blocking? && c.ctxDone then {SDone(Enqueued), SDone(CtxErr)} else {SDone(Enqueued)}
    else if c.kind.Try? then {SDone(QueueFull)}
    else if c.ctxDone then {SDone(CtxErr)}
    else {SSelect}
  }

  lemma LonePc(s: State, c: Submitter, pc: SubmitPc)
    requires Justified(s, c, pc) && |s.queue| <= s.cfg.queueSize
    requires pc.SDone? || (pc.SSelect? && c.kind.Blocking? && !c.ctxDone && |s.queue| == s.cfg.queueSize)
    ensures pc in LonePcs(s, c)
  {
  }

  lemma AlongAtFirst(s: State, i: nat)
    requires Inv(s) && i < |s.submitters| && s.submitters[i].pc.SStart?
    ensures i !in s.readers && Along(s, i, s)
  {
    assert !HoldsRead(s.submitters[i]);
    assert s.submitters[i := s.submitters[i].(pc := SStart)] == s.submitters;
  }

  /** Where a lone call stops. */
  lemma LoneEnd(s: State, i: nat, t: State)
    requires Inv(s) && LockFree(s) && Along(s, i, t) && forall a :: !SubmitEnabled(t, i, a)
    ensures t.submitters[i].pc.SDone? || (t.submitters[i].pc.SSelect? && s.submitters[i].kind.Blocking?
                                          && !s.submitters[i].ctxDone && |s.queue| == s.cfg.queueSize)
  {
    if !SubmitterRests(t, t.submitters[i]) {
      var a := SubmitterMove(t, i);
    }
  }

  /** A TrySubmit alone, in particular: nil with the task sent while there is room, and
      ErrQueueFull with nothing sent otherwise. */
  lemma LoneTrySubmit(cfg: Config, s: State, i: nat, steps: seq<Step>, t: State)
    requires Reachable(cfg, s) && LockFree(s) && !s.closed
    requires i < |s.submitters| && s.submitters[i].pc.SStart? && s.submitters[i].kind.Try?
    requires !s.submitters[i].nilCtx && !s.submitters[i].nilJob
    requires Runs(s, steps, t) && OnlySubmitter(i, steps) && i < |t.submitters|
    requires forall a :: !SubmitEnabled(t, i, a)
    ensures |s.queue| < cfg.queueSize ==>
              && t.submitters[i].pc == SDone(Enqueued)
              && t.sent == s.sent + [s.submitters[i].task] && t.queue == s.queue + [s.submitters[i].task]
              && t.counters == s.counters.(enqueued := s.counters.enqueued + 1)
    ensures |s.queue| >= cfg.queueSize ==>
              && t.submitters[i].pc == SDone(QueueFull)
              && t.sent == s.sent && t.queue == s.queue
              && t.counters == s.counters.(dropped := s.counters.dropped + 1)
  {
    LoneSubmit(cfg, s, i, steps, t);
    ReachableKeepsInv(cfg, s);
    assert LonePcs(s, s.submitters[i]) == if |s.queue| < cfg.queueSize then {SDone(Enqueued)} else {SDone(QueueFull)};
    assert t.submitters[i].pc == if |s.queue| < cfg.queueSize then SDone(Enqueued) else SDone(QueueFull);
  }

  /** Whoever else moves: a TrySubmit gives up only while the queue is full, and a Submit only
      once its ctx has ended; neither sends. */
  lemma GivesUpOnlyWhenFull(cfg: Config, s: State, a: Step, t: State, i: nat)
    requires Reachable(cfg, s) && Enabled(s, a) && t == Apply(s, a)
    requires i < |s.submitters| && !s.submitters[i].pc.SGaveUp? && t.submitters[i].pc.SGaveUp?
    ensures s.submitters[i].kind.Try? ==> |s.queue| == cfg.queueSize && t.submitters[i].pc == SGaveUp(QueueFull)
    ensures s.submitters[i].kind.Blocking? ==> s.submitters[i].ctxDone && t.submitters[i].pc == SGaveUp(CtxErr)
    ensures t.sent == s.sent && t.queue == s.queue
  {
    ReachableKeepsInv(cfg, s);
  }

  /** A blocked Submit returns once its ctx ends: when it has no step left by itself it has
      returned the ctx error, has counted as dropped and holds no lock. */
  lemma CancelledSubmitReturns(cfg: Config, s: State, i: nat, steps: seq<Step>, t: State)
    requires Reachable(cfg, s) && i < |s.submitters| && Blocked(s, s.submitters[i])
    requires Runs(Apply(s, CancelSubmit(i)), steps, t) && OnlySubmitter(i, steps) && i < |t.submitters|
    requires forall a :: !SubmitEnabled(t, i, a)
    ensures t.submitters[i].pc == SDone(CtxErr) && i !in t.readers
    ensures t.sent == s.sent && t.counters == s.counters.(dropped := s.counters.dropped + 1)
  {
    ReachableKeepsInv(cfg, s);
    var u := Apply(s, CancelSubmit(i));
    GivingUp(u, i, steps, t);
  }

  /** A submitter on its way out. */
  predicate OnItsWayOut(c: Submitter) {
    && c.kind.Blocking? && c.ctxDone
    && (c.pc == SSelect || c.pc == SGaveUp(CtxErr) || c.pc == SUnlock(CtxErr) || c.pc == SDone(CtxErr))
  }

  lemma {:induction false} GivingUp(s: State, i: nat, steps: seq<Step>, t: State)
    requires i < |s.submitters| && OnItsWayOut(s.submitters[i]) && !s.tasksClosed && |s.queue| >= s.cfg.queueSize
    requires s.submitters[i].pc.SDone? ==> i !in s.readers
    requires Runs(s, steps, t) && OnlySubmitter(i, steps) && i < |t.submitters|
    requires forall a :: !SubmitEnabled(t, i, a)
    ensures t.submitters[i].pc == SDone(CtxErr) && i !in t.readers && t.sent == s.sent
    ensures t.counters == if Dropped(s.submitters[i].pc) then s.counters
                          else s.counters.(dropped := s.counters.dropped + 1)
    decreases |steps|
  {
    if steps == [] {
      assert !SubmitEnabled(t, i, SQuit) && !SubmitEnabled(t, i, SCount) && !SubmitEnabled(t, i, SRelease);
    } else {
      assert steps[0].SubmitStep? && steps[0].i == i;
      GivingUp(SubmitApply(s, i, steps[0].sact), i, steps[1..], t);
    }
  }

  // ---- Arguments ----

  /** A call begins with the arguments it was given, its ctx live, and leaves all else alone. */
  lemma CallsBegin(s: State, kind: SubmitKind, task: Task, nilCtx: bool, nilJob: bool, mode: Mode)
    ensures var t := Apply(s, NewSubmit(kind, task, nilCtx, nilJob));
            && |t.submitters| == |s.submitters| + 1 && t == s.(submitters := t.submitters)
            && t.submitters[..|s.submitters|] == s.submitters
            && t.submitters[|s.submitters|] == Submitter(kind, task, nilCtx, nilJob, false, SStart)
    ensures var t := Apply(s, NewClose(mode, nilCtx));
            && |t.closers| == |s.closers| + 1 && t == s.(closers := t.closers)
            && t.closers[..|s.closers|] == s.closers
            && t.closers[|s.closers|] == Closer(mode, nilCtx, false, CStart, NotStarted)
  {
  }

  /** The same call, further on. */
  predicate SameSubmit(c: Submitter, d: Submitter) {
    d == c.(pc := d.pc, ctxDone := d.ctxDone) && (c.ctxDone ==> d.ctxDone)
  }

  predicate SameClose(c: Closer, d: Closer) {
    d == c.(pc := d.pc, waiter := d.waiter, ctxDone := d.ctxDone) && (c.ctxDone ==> d.ctxDone)
  }

  ghost predicate SameCalls(s: State, t: State) {
    && |s.submitters| <= |t.submitters| && |s.closers| <= |t.closers|
    && (forall i :: 0 <= i < |s.submitters| ==> SameSubmit(s.submitters[i], t.submitters[i]))
    && (forall i :: 0 <= i < |s.closers| ==> SameClose(s.closers[i], t.closers[i]))
  }

  lemma StepKeepsCalls(s: State, a: Step)
    requires Enabled(s, a)
    ensures SameCalls(s, Apply(s, a))
  {
  }

  /** Through every run the arguments stay, and a ctx that has ended stays so. */
  lemma {:induction false} ArgumentsStay(s: State, steps: seq<Step>, t: State)
    requires Runs(s, steps, t)
    ensures SameCalls(s, t)
    decreases |steps|
  {
    if steps != [] {
      StepKeepsCalls(s, steps[0]);
      ArgumentsStay(Apply(s, steps[0]), steps[1..], t);
    }
  }

  /** A context that ends is its call's own, and nothing else happens. */
  lemma ContextEnds(s: State, i: nat)
    ensures i < |s.submitters| ==>
              Apply(s, CancelSubmit(i)) == s.(submitters := s.submitters[i := s.submitters[i].(ctxDone := true)])
    ensures i < |s.closers| ==>
              Apply(s, CancelClose(i)) == s.(closers := s.closers[i := s.closers[i].(ctxDone := true)])
  {
  }
}
