/** Concrete runs: the states in which naive claims about the dispatcher fail. */
module DispatcherWitnesses {
  import opened Wrappers
  import opened Dispatcher
  import opened DispatcherSafety

  /** A new Submit can get as far as its select whenever the dispatcher is open. */
  lemma SubmitToSelect(cfg: Config, s: State, task: Task) returns (t: State)
    requires Reachable(cfg, s) && !s.closed && s.writer.None? && s.pending.None?
    ensures Reachable(cfg, t)
    ensures t == s.(submitters := s.submitters + [Submitter(Blocking, task, false, false, false, SSelect)],
                    readers := s.readers + {|s.submitters|})
  {
    var i := |s.submitters|;
    var s1 := Apply(s, NewSubmit(Blocking, task, false, false));
    ReachableStep(cfg, s, NewSubmit(Blocking, task, false, false));
    var s2 := SubmitterMoves(cfg, s1, i, SValidate);
    var s3 := SubmitterMoves(cfg, s2, i, SLock);
    t := SubmitterMoves(cfg, s3, i, SCheck);
    assert t.submitters == s.submitters + [Submitter(Blocking, task, false, false, false, SSelect)];
  }

  lemma SubmitSends(cfg: Config, s: State, task: Task) returns (t: State)
    requires Reachable(cfg, s) && !s.closed && !s.tasksClosed && s.writer.None? && s.pending.None?
    requires |s.queue| < s.cfg.queueSize
    ensures Reachable(cfg, t)
    ensures t == s.(submitters := s.submitters + [Submitter(Blocking, task, false, false, false, SSent)],
                    readers := s.readers + {|s.submitters|}, queue := s.queue + [task], sent := s.sent + [task])
  {
    var s1 := SubmitToSelect(cfg, s, task);
    t := SubmitterMoves(cfg, s1, |s.submitters|, SSend);
    assert t.submitters == s.submitters + [Submitter(Blocking, task, false, false, false, SSent)];
  }

  /** The submitter that has sent counts and returns. */
  lemma SubmitReturns(cfg: Config, s: State, i: nat) returns (t: State)
    requires Reachable(cfg, s) && i < |s.submitters| && s.submitters[i].pc.SSent?
    ensures Reachable(cfg, t)
    ensures t == s.(submitters := s.submitters[i := s.submitters[i].(pc := SDone(Enqueued))],
                    readers := s.readers - {i}, counters := s.counters.(enqueued := s.counters.enqueued + 1))
  {
    var s1 := SubmitterMoves(cfg, s, i, SCount);
    t := SubmitterMoves(cfg, s1, i, SRelease);
  }

  /** Processed can exceed Enqueued for a moment: the send comes before the counter. */
  lemma ProcessedBeforeEnqueued(cfg: Config, task: Task) returns (t: State)
    requires cfg.Valid() && MaxRetries(cfg, task) >= 0
    ensures Reachable(cfg, t) && t.counters.processed == 1 && t.counters.enqueued == 0
  {
    InitReachable(cfg);
    var s := SubmitSends(cfg, Init(cfg), task);
    var s1 := WorkerMoves(cfg, s, 0, Receive);
    var s2 := WorkerMoves(cfg, s1, 0, Loop);
    var s3 := WorkerMoves(cfg, s2, 0, Call(JobOk));
    t := WorkerMoves(cfg, s3, 0, Finish);
  }

  /** The only worker runs the only task. */
  lemma TaskSucceeds(u: State, s: State) returns (t: State)
    requires Follows(u, s) && s.workers != [] && s.workers[0].Idle? && s.queue != []
    requires MaxRetries(s.cfg, s.queue[0]) >= 0
    ensures Follows(u, t) && t.counters == s.counters.(processed := s.counters.processed + 1)
    ensures t.observers == s.observers && t.submitters == s.submitters
  {
    var s1 := WorkerFollows(u, s, 0, Receive);
    var s2 := WorkerFollows(u, s1, 0, Loop);
    var s3 := WorkerFollows(u, s2, 0, Call(JobOk));
    t := WorkerFollows(u, s3, 0, Finish);
  }

  /** A Snapshot finishes its loads undisturbed. */
  lemma {:induction false} LoadsFinish(u: State, s: State, i: nat) returns (t: State)
    requires Follows(u, s) && i < |s.observers| && |s.observers[i].loads| <= FIELDS
    ensures Follows(u, t) && t.counters == s.counters && t.submitters == s.submitters
    ensures i < |t.observers| && Complete(t.observers[i]) && s.observers[i].loads <= t.observers[i].loads
    ensures forall k :: |s.observers[i].loads| <= k < FIELDS ==> t.observers[i].loads[k] == Field(s.counters, k)
    decreases FIELDS - |s.observers[i].loads|
  {
    t := s;
    if |s.observers[i].loads| < FIELDS {
      var s1 := FollowingStep(u, s, Load(i));
      t := LoadsFinish(u, s1, i);
    }
  }

  /** A Snapshot need not be the counters at any instant: one that began before a Submit shows
      its task processed but not enqueued, although the Submit had counted and returned before
      a worker received the task, so that Processed never exceeded Enqueued. */
  lemma SnapshotIsNotAnInstant(cfg: Config, task: Task) returns (s: State, t: State)
    requires cfg.Valid() && MaxRetries(cfg, task) >= 0
    ensures Reachable(cfg, s) && s.counters.enqueued == 1 && s.received == []
    ensures |s.submitters| == 1 && s.submitters[0].pc == SDone(Enqueued)
    ensures |s.observers| == 1 && s.observers[0].loads == [0]
    ensures Follows(s, t) && Reachable(cfg, t) && t.submitters == s.submitters
    ensures |t.observers| > 0 && t.observers[0].loads == [0, 1, 0, 0, 0, 0]
  {
    InitReachable(cfg);
    ReachableStep(cfg, Init(cfg), NewStats);
    var s1 := Apply(Init(cfg), NewStats);
    ReachableStep(cfg, s1, Load(0));
    var s2 := Apply(s1, Load(0));
    var s3 := SubmitSends(cfg, s2, task);
    s := SubmitReturns(cfg, s3, 0);
    assert Runs(s, [], s);
    var s4 := TaskSucceeds(s, s);
    t := LoadsFinish(s, s4, 0);
    ReachableFollows(cfg, s, t);
    SixLoads(t.observers[0].loads, s4.counters);
  }

  lemma SixLoads(loads: seq<nat>, n: Counters)
    requires |loads| == FIELDS && loads[0] == 0 && n == Counters(1, 1, 0, 0, 0, 0)
    requires forall k :: 1 <= k < FIELDS ==> loads[k] == Field(n, k)
    ensures loads == [0, 1, 0, 0, 0, 0]
  {
  }

  /** A Close with a live ctx and a known mode gets through its write-lock section whenever the
      lock is free and the dispatcher open. */
  lemma CloseGoesThrough(cfg: Config, s: State, mode: Mode) returns (t: State)
    requires Reachable(cfg, s) && !s.closed && !s.tasksClosed
    requires s.readers == {} && s.writer.None? && s.pending.None? && !mode.OtherMode?
    ensures Reachable(cfg, t)
    ensures t == s.(closers := s.closers + [Closer(mode, false, false, AfterUnlock(mode), NotStarted)],
                    closed := true, tasksClosed := true)
  {
    var i := |s.closers|;
    var s1 := Apply(s, NewClose(mode, false));
    ReachableStep(cfg, s, NewClose(mode, false));
    var s2 := CloserMoves(cfg, s1, i, CValidate);
    var s3 := CloserMoves(cfg, s2, i, CAnnounce);
    var s4 := CloserMoves(cfg, s3, i, CLock);
    t := CloseIsMarked(cfg, s4, i);
    assert t.closers == s.closers + [Closer(mode, false, false, AfterUnlock(mode), NotStarted)];
  }

  function AfterUnlock(mode: Mode): ClosePc {
    if mode.Immediate? then CSignal(CloseOk) else CSpawn
  }

  lemma CloseIsMarked(cfg: Config, s: State, i: nat) returns (t: State)
    requires Reachable(cfg, s) && !s.closed && !s.tasksClosed
    requires i < |s.closers| && s.closers[i].pc.CLocked?
    ensures Reachable(cfg, t)
    ensures t == s.(closers := s.closers[i := s.closers[i].(pc := AfterUnlock(s.closers[i].mode))],
                    writer := None, closed := true, tasksClosed := true)
  {
    var s1 := CloserMoves(cfg, s, i, CMark);
    var s2 := CloserMoves(cfg, s1, i, CCloseTasks);
    t := CloserMoves(cfg, s2, i, CRelease);
  }

  /** A submission rejected with ErrClosed does not count as dropped. */
  lemma ClosedIsNotDropped(cfg: Config, kind: SubmitKind, task: Task) returns (t: State)
    requires cfg.Valid()
    ensures Reachable(cfg, t) && |t.submitters| == 1 && t.submitters[0].pc == SDone(Closed)
    ensures t.counters.dropped == 0
  {
    InitReachable(cfg);
    var s := CloseGoesThrough(cfg, Init(cfg), Drain);
    var s1 := Apply(s, NewSubmit(kind, task, false, false));
    ReachableStep(cfg, s, NewSubmit(kind, task, false, false));
    var s2 := SubmitterMoves(cfg, s1, 0, SValidate);
    var s3 := SubmitterMoves(cfg, s2, 0, SLock);
    var s4 := SubmitterMoves(cfg, s3, 0, SCheck);
    t := SubmitterMoves(cfg, s4, 0, SRelease);
  }
}
