/** What a Close or a TrySubmit may wait for, and the one state of rest in which it has not
    returned: every worker has died of an internal panic, and a Submit that holds the read lock
    is blocked on the full queue. Without rest, endless retries can keep it waiting too: see
    DispatcherProgress. */
module DispatcherHang {
  import opened Wrappers
  import opened Dispatcher
  import opened DispatcherInvariant
  import opened DispatcherPreservation
  import opened DispatcherSafety
  import opened DispatcherShutdown
  import opened DispatcherWitnesses

  /** Closer p waits for the readers and keeps new ones out, submitter j is a reader blocked on
      the full queue with a live context, and no worker is left to make room. */
  ghost predicate Hung(s: State, p: nat, j: nat) {
    && (forall k :: 0 <= k < |s.workers| ==> s.workers[k].Gone?)
    && j < |s.submitters| && Blocked(s, s.submitters[j])
    && p < |s.closers| && s.closers[p].pc.CPending?
  }

  // ---- At rest ----

  /** A closer at rest before the lock is held means that the announced one waits for a reader,
      which only a dead pool keeps waiting. */
  lemma StuckPending(s: State) returns (p: nat, j: nat)
    requires Inv(s) && Stuck(s) && s.pending.Some?
    ensures s.pending == Some(p) && Hung(s, p, j)
    ensures forall k :: 0 <= k < |s.workers| ==> s.workers[k].panicked
  {
    StuckRests(s);
    p := s.pending.value;
    assert CloserRests(s, s.closers[p]);
    j :| j in s.readers;
    assert HoldsRead(s.submitters[j]);
    assert SubmitterRests(s, s.submitters[j]);
    forall k | 0 <= k < |s.workers|
      ensures s.workers[k] == Gone(true)
    {
      assert WorkerRests(s, s.workers[k]);
      assert WorkerOk(s, s.workers[k]);
    }
  }

  /** In a state of rest a Close that has not returned waits for the write lock, and the
      dispatcher is hung. */
  lemma StuckCloseMeansHung(s: State, i: nat) returns (p: nat, j: nat)
    requires Inv(s) && i < |s.closers| && !s.closers[i].pc.CDone? && Stuck(s)
    ensures Hung(s, p, j) && (forall k :: 0 <= k < |s.workers| ==> s.workers[k].panicked)
    ensures if i == p then s.closers[i].pc.CPending? else s.closers[i].pc.CLocking?
  {
    StuckRests(s);
    NoStuckWriter(s);
    if s.closed {
      RestsOnlyWhenDone(s);
    }
    assert CloserRests(s, s.closers[i]);
    assert CloserOk(s, s.closers[i]);
    p, j := StuckPending(s);
  }

  /** ... and so is one in which a TrySubmit has not returned: it waits for the read lock. */
  lemma StuckTryMeansHung(s: State, i: nat) returns (p: nat, j: nat)
    requires Inv(s) && i < |s.submitters| && s.submitters[i].kind.Try? && !s.submitters[i].pc.SDone? && Stuck(s)
    ensures Hung(s, p, j) && (forall k :: 0 <= k < |s.workers| ==> s.workers[k].panicked)
    ensures s.submitters[i].pc.SLocking?
  {
    StuckRests(s);
    NoStuckWriter(s);
    assert SubmitterRests(s, s.submitters[i]);
    p, j := StuckPending(s);
  }

  /** TrySubmit cannot move if and only if it is about to take the read lock while some Close
      holds the write lock or waits for it. */
  lemma TryWaitsIff(s: State, i: nat)
    requires Inv(s) && i < |s.submitters| && s.submitters[i].kind.Try? && !s.submitters[i].pc.SDone?
    ensures (forall a :: !SubmitEnabled(s, i, a))
       <==> s.submitters[i].pc.SLocking?
            && exists k :: 0 <= k < |s.closers| && (HoldsWrite(s.closers[k]) || s.closers[k].pc.CPending?)
  {
    var c := s.submitters[i];
    if !SubmitterRests(s, c) {
      var a := SubmitterMove(s, i);
      assert SubmitEnabled(s, a.i, a.sact);
    }
    if s.writer.Some? {
      assert HoldsWrite(s.closers[s.writer.value]);
    }
    if s.pending.Some? {
      assert s.closers[s.pending.value].pc.CPending?;
    }
  }

  /** The points where a Close may wait. */
  predicate CloseWaits(s: State, c: Closer) {
    || (c.pc.CLocking? && (s.writer.Some? || s.pending.Some?))
    || (c.pc.CPending? && s.readers != {})
    || (c.pc.CWait? && !c.ctxDone && s.wg > 0)
  }

  /** A Close that has not returned cannot move if and only if it waits for the write lock,
      behind another Close or behind readers, or, with a live ctx, for the workers. */
  lemma CloseWaitsIff(s: State, i: nat)
    requires Inv(s) && i < |s.closers| && !s.closers[i].pc.CDone?
    ensures (forall a :: !CloseEnabled(s, i, a)) <==> CloseWaits(s, s.closers[i])
  {
    var c := s.closers[i];
    assert CloserOk(s, c);
    if !CloserRests(s, c) {
      var a := CloserMove(s, i);
      assert CloseEnabled(s, a.i, a.cact);
    } else if c.pc.CWait? && c.ctxDone {
      assert CloseEnabled(s, i, CCancelled);
    }
  }

  // ---- For ever ----

  lemma HungKeepsClosers(s: State, p: nat, j: nat, a: Step, t: State)
    requires LockInv(s) && CloseInv(s) && Hung(s, p, j) && Enabled(s, a) && a != CancelSubmit(j) && t == Apply(s, a)
    ensures p < |t.closers| && t.closers[p].pc.CPending?
    ensures forall i :: 0 <= i < |s.closers| && s.closers[i].pc.CLocking? ==> t.closers[i].pc.CLocking?
    ensures t.tasksClosed == s.tasksClosed
  {
    assert HoldsRead(s.submitters[j]) && PastCheck(s.submitters[j]);
    assert s.pending == Some(p);
    if a.CloseStep? {
      assert CloserOk(s, s.closers[a.i]);
    }
  }

  lemma HungKeepsSubmitter(s: State, p: nat, j: nat, i: nat, a: SubmitAct)
    requires LockInv(s) && Hung(s, p, j) && SubmitEnabled(s, i, a)
    ensures i != j && !s.submitters[i].pc.SLocking?
    ensures !a.SSend?
  {
    assert s.pending == Some(p);
  }

  lemma HungKeepsSubmitters(s: State, p: nat, j: nat, a: Step, t: State)
    requires LockInv(s) && Hung(s, p, j) && Enabled(s, a) && a != CancelSubmit(j) && t == Apply(s, a)
    requires t.tasksClosed == s.tasksClosed
    ensures j < |t.submitters| && Blocked(t, t.submitters[j])
    ensures forall i :: 0 <= i < |s.submitters| && s.submitters[i].pc.SLocking? ==> t.submitters[i].pc.SLocking?
    ensures forall k :: 0 <= k < |t.workers| ==> t.workers[k].Gone?
  {
    match a
    case SubmitStep(i, act) => HungKeepsSubmitter(s, p, j, i, act);
    case _ =>
  }

  /** Once hung, until that submitter's context ends, no run lets any Close that waits for the
      write lock return, its own ctx cancelled or not, nor any Submit or TrySubmit that waits
      for the read lock. */
  lemma {:induction false} HungForever(s: State, p: nat, j: nat, steps: seq<Step>, t: State)
    requires Inv(s) && Hung(s, p, j) && Runs(s, steps, t) && CancelSubmit(j) !in steps
    ensures Hung(t, p, j)
    ensures |s.submitters| <= |t.submitters| && |s.closers| <= |t.closers|
    ensures forall i :: 0 <= i < |s.submitters| && s.submitters[i].pc.SLocking? ==> t.submitters[i].pc.SLocking?
    ensures forall i :: 0 <= i < |s.closers| && s.closers[i].pc.CLocking? ==> t.closers[i].pc.CLocking?
    decreases |steps|
  {
    if steps != [] {
      var u := Apply(s, steps[0]);
      HungKeepsClosers(s, p, j, steps[0], u);
      HungKeepsSubmitters(s, p, j, steps[0], u);
      StepKeepsInv(s, steps[0]);
      HungForever(u, p, j, steps[1..], t);
    }
  }

  // ---- It can happen ----

  /** A log call that panics takes the only worker with it, and the task it held. */
  lemma OnlyWorkerDies(cfg: Config, s: State) returns (t: State)
    requires Reachable(cfg, s) && s.workers == [Idle] && s.wg == 1 && s.queue != []
    requires MaxRetries(s.cfg, s.queue[0]) >= 0
    ensures Reachable(cfg, t) && t.workers == [Gone(true)] && t.queue == s.queue[1..] && t.cfg == s.cfg
    ensures t.submitters == s.submitters && t.closers == s.closers && t.pending == s.pending
    ensures t.writer == s.writer && t.closed == s.closed && t.tasksClosed == s.tasksClosed
  {
    var s1 := WorkerMoves(cfg, s, 0, Receive);
    var s2 := WorkerMoves(cfg, s1, 0, Loop);
    var s3 := WorkerMoves(cfg, s2, 0, Panic);
    t := WorkerMoves(cfg, s3, 0, Leave);
  }

  /** With one worker and a queue of one: the worker dies on the first task, the second fills
      the queue, the third Submit blocks, and Close waits. */
  lemma CloseCanHang(cfg: Config, task: Task) returns (t: State)
    requires cfg.workerCount == 1 && cfg.queueSize == 1 && MaxRetries(cfg, task) >= 0
    ensures Reachable(cfg, t) && Hung(t, 0, 2) && t.pending == Some(0)
  {
    InitReachable(cfg);
    var s1 := SubmitSends(cfg, Init(cfg), task);
    assert s1.workers == [Idle];
    var s2 := OnlyWorkerDies(cfg, s1);
    var s3 := SubmitSends(cfg, s2, task);
    var s4 := SubmitToSelect(cfg, s3, task);
    var s5 := Apply(s4, NewClose(Drain, false));
    ReachableStep(cfg, s4, NewClose(Drain, false));
    var s6 := CloserMoves(cfg, s5, 0, CValidate);
    t := CloserMoves(cfg, s6, 0, CAnnounce);
  }

  /** ... and a TrySubmit that comes then waits as well, and for ever. */
  lemma TrySubmitCanHang(cfg: Config, task: Task) returns (t: State, i: nat)
    requires cfg.workerCount == 1 && cfg.queueSize == 1 && MaxRetries(cfg, task) >= 0
    ensures Reachable(cfg, t) && Hung(t, 0, 2)
    ensures i < |t.submitters| && t.submitters[i].kind.Try? && t.submitters[i].pc.SLocking?
  {
    var s := CloseCanHang(cfg, task);
    i := |s.submitters|;
    var s1 := Apply(s, NewSubmit(Try, task, false, false));
    ReachableStep(cfg, s, NewSubmit(Try, task, false, false));
    t := SubmitterMoves(cfg, s1, i, SValidate);
  }
}
