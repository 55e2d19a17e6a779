/** What holds in every state a dispatcher can reach, and over every run from it. */
module DispatcherSafety {
  import opened Wrappers
  import opened Dispatcher
  import opened DispatcherInvariant
  import opened DispatcherPreservation

  ghost predicate Reachable(cfg: Config, t: State) {
    cfg.Valid() && exists steps: seq<Step> :: Runs(Init(cfg), steps, t)
  }

  lemma ReachableKeepsInv(cfg: Config, t: State)
    requires Reachable(cfg, t)
    ensures Inv(t) && t.cfg == cfg && |t.workers| == cfg.workerCount
  {
    var steps :| Runs(Init(cfg), steps, t);
    ReachableInv(cfg, steps, t);
  }

  // ---- Conservation ----

  lemma {:induction false} RefusedAreFailed(rs: seq<Record>)
    ensures SumBy(WasRefused, rs) + SumBy(Succeeded, rs) <= |rs|
  {
    if rs != [] {
      RefusedAreFailed(rs[1..]);
    }
  }

  /** No task is lost or counted twice, except those a worker held when the dispatcher's own
      code panicked, and there is at most one of those per worker. */
  lemma Conservation(cfg: Config, t: State)
    requires Reachable(cfg, t)
    ensures multiset(t.sent)
         == multiset(t.queue) + Held(t.workers) + multiset(Tasks(t.finished)) + multiset(Tasks(t.lost))
    ensures |t.sent|
         == |t.queue| + SumBy(Holds, t.workers) + t.counters.processed + t.counters.failed + |t.lost|
    ensures |t.lost| <= SumBy(Died, t.workers) <= cfg.workerCount
    ensures |t.sent| == t.counters.enqueued + SumBy(Uncounted, t.submitters)
    ensures t.counters.predicatesFailed <= t.counters.failed + SumBy(BetweenRefusalCounts, t.workers)
  {
    ReachableKeepsInv(cfg, t);
    assert multiset(t.sent) == multiset(t.received) + multiset(t.queue);
    SumByAtMostLength(Died, t.workers);
    RefusedAreFailed(t.finished);
  }

  /** What is counted as ended exceeds what is counted as enqueued exactly while there are more
      submitters between send and counter than tasks still queued, held or lost ... */
  lemma EndedWithinEnqueuedIff(cfg: Config, t: State)
    requires Reachable(cfg, t)
    ensures t.counters.processed + t.counters.failed <= t.counters.enqueued
       <==> SumBy(Uncounted, t.submitters) <= |t.queue| + SumBy(Holds, t.workers) + |t.lost|
  {
    Conservation(cfg, t);
  }

  /** ... so never while no submitter is between the two. */
  lemma EndedWithinEnqueued(cfg: Config, t: State)
    requires Reachable(cfg, t) && forall c <- t.submitters :: !c.pc.SSent?
    ensures t.counters.processed + t.counters.failed + |t.lost| <= t.counters.enqueued
  {
    Conservation(cfg, t);
    SumByZero(Uncounted, t.submitters);
    SumByNonNegative(Holds, t.workers);
  }

  /** No channel is sent on or closed after it was closed, and the wait group never goes
      negative; `closed` and the closing of the channels agree outside the write lock. */
  lemma NoRunTimePanic(cfg: Config, t: State)
    requires Reachable(cfg, t)
    ensures !t.fault
    ensures t.writer.None? ==> (t.closed <==> t.tasksClosed)
    ensures t.quit ==> t.closed
    ensures forall i :: 0 <= i < |t.submitters| && PastCheck(t.submitters[i]) ==>
              i in t.readers && t.writer.None? && !t.closed && !t.tasksClosed
  {
    ReachableKeepsInv(cfg, t);
  }

  /** FIFO and bounded; with one worker tasks also end in the order they were sent. */
  lemma FirstInFirstOut(cfg: Config, t: State)
    requires Reachable(cfg, t)
    ensures t.sent == t.received + t.queue
    ensures |t.queue| <= cfg.queueSize
    ensures cfg.workerCount == 1 ==> Tasks(t.finished) + Tasks(t.lost) <= t.sent
  {
    ReachableKeepsInv(cfg, t);
  }

  // ---- What callers of Submit are told ----

  function GotRejected(c: Submitter): int {
    One(c.pc == SDone(Closed) || c.pc == SDone(NilCtx) || c.pc == SDone(NilJob))
  }

  lemma {:induction false} EveryCallAnswered(cs: seq<Submitter>)
    requires forall c <- cs :: c.pc.SDone?
    ensures SumBy(GotEnqueued, cs) + SumBy(GotDropped, cs) + SumBy(GotRejected, cs) == |cs|
  {
    if cs != [] {
      var result := cs[0].pc.result;
      assert cs[0].pc == SDone(result);
      assert result.Enqueued? || result.Closed? || result.QueueFull?
             || result.CtxErr? || result.NilCtx? || result.NilJob?;
      EveryCallAnswered(cs[1..]);
    }
  }

  /** Enqueued counts the calls that return nil, Dropped those that return ErrQueueFull or
      the ctx error; the calls that return ErrClosed or a nil-argument error count nowhere. */
  lemma SubmitAccounting(cfg: Config, t: State)
    requires Reachable(cfg, t)
    ensures t.counters.enqueued == SumBy(GotEnqueued, t.submitters)
    ensures t.counters.dropped == SumBy(GotDropped, t.submitters)
    ensures (forall c <- t.submitters :: c.pc.SDone?) ==>
              |t.submitters| == t.counters.enqueued + t.counters.dropped + SumBy(GotRejected, t.submitters)
              && |t.sent| == t.counters.enqueued
  {
    ReachableKeepsInv(cfg, t);
    if forall c <- t.submitters :: c.pc.SDone? {
      EveryCallAnswered(t.submitters);
      SumByZero(Uncounted, t.submitters);
    }
  }

  // ---- A drain that returned nil ----

  predicate DrainReturnedNil(t: State, i: nat) {
    i < |t.closers| && t.closers[i].mode.Drain? && t.closers[i].pc == CDone(CloseOk)
  }

  /** Every worker has left, and no submitter is inside its select or before its counter. */
  ghost predicate Settled(t: State) {
    && Inv(t) && t.closed
    && (forall i :: 0 <= i < |t.workers| ==> t.workers[i].Gone?)
  }

  lemma NoneAlive(t: State)
    requires WorkCounts(t) && t.wg == 0
    ensures forall i :: 0 <= i < |t.workers| ==> t.workers[i].Gone?
  {
    forall i | 0 <= i < |t.workers|
      ensures t.workers[i].Gone?
    {
      SumByTerm(Alive, t.workers, i);
    }
  }

  lemma DrainSettles(t: State, i: nat)
    requires Inv(t) && DrainReturnedNil(t, i)
    ensures Settled(t)
  {
    assert CloserOk(t, t.closers[i]);
    NoneAlive(t);
  }

  /** When a drain Close returns nil every worker has exited and every call that was counted
      has been sent; either the queue is empty and Enqueued = Processed + Failed + lost, or
      every worker died of an internal panic. */
  lemma DrainedBalance(cfg: Config, t: State, i: nat)
    requires Reachable(cfg, t) && DrainReturnedNil(t, i)
    ensures forall k :: 0 <= k < |t.workers| ==> t.workers[k].Gone?
    ensures t.queue == [] || forall k :: 0 <= k < |t.workers| ==> t.workers[k].panicked
    ensures t.counters.enqueued == |t.queue| + t.counters.processed + t.counters.failed + |t.lost|
    ensures SumBy(Died, t.workers) == 0 ==>
              t.queue == [] && t.lost == [] && t.counters.enqueued == t.counters.processed + t.counters.failed
  {
    ReachableKeepsInv(cfg, t);
    DrainSettles(t, i);
    SumByZero(Holds, t.workers);
    SumByZero(Uncounted, t.submitters);
    forall k | 0 <= k < |t.workers| && !t.workers[k].panicked
      ensures t.queue == []
    {
      assert WorkerOk(t, t.workers[k]);
    }
    if SumBy(Died, t.workers) == 0 {
      SumByTerm(Died, t.workers, 0);
      assert !t.workers[0].panicked;
    }
  }

  lemma SettledStep(s: State, a: Step)
    requires Settled(s) && Enabled(s, a)
    ensures var t := Apply(s, a);
            t.closed && t.workers == s.workers && t.queue == s.queue && t.counters == s.counters && t.calls == s.calls
  {
    if a.SubmitStep? {
      assert !PastCheck(s.submitters[a.i]);
    }
  }

  /** ... and nothing moves again: the queue, the workers and all six counters are frozen in
      every later state, whatever calls follow. */
  lemma {:induction false} SettledForever(s: State, steps: seq<Step>, t: State)
    requires Settled(s) && Runs(s, steps, t)
    ensures Settled(t)
    ensures t.workers == s.workers && t.queue == s.queue && t.counters == s.counters && t.calls == s.calls
    decreases |steps|
  {
    if steps != [] {
      SettledStep(s, steps[0]);
      StepKeepsInv(s, steps[0]);
      SettledForever(Apply(s, steps[0]), steps[1..], t);
    }
  }

  lemma DrainIsFinal(cfg: Config, s: State, i: nat, steps: seq<Step>, t: State)
    requires Reachable(cfg, s) && DrainReturnedNil(s, i) && Runs(s, steps, t)
    ensures t.queue == s.queue && t.counters == s.counters && t.calls == s.calls
  {
    ReachableKeepsInv(cfg, s);
    DrainSettles(s, i);
    SettledForever(s, steps, t);
  }

  // ---- How tasks end ----

  /** A task is abandoned only when some caller asked for it, and only if its base delay is
      positive: without a delay the quit signal is never looked at. */
  lemma AbandonedOnlyAfterQuit(cfg: Config, t: State, r: Record)
    requires Reachable(cfg, t) && r in t.finished && r.outcome.Abandoned?
    ensures t.quit && exists i :: 0 <= i < |t.closers| && Signalled(t.closers[i])
    ensures BaseDelay(cfg, r.task) > 0
  {
    ReachableKeepsInv(cfg, t);
    var k :| 0 <= k < |t.finished| && t.finished[k] == r;
    assert FinishedOk(t, t.finished[k]);
  }

  /** Without an immediate close and without a cancelled drain every counted task ended by
      success, by a refusal of a configured predicate, or by using up exactly its retries. */
  lemma NothingAbandoned(cfg: Config, t: State, r: Record)
    requires Reachable(cfg, t) && r in t.finished
    requires forall c <- t.closers :: !Signalled(c)
    ensures match r.outcome
            case Success => Bounded(cfg, r.task) ==> 1 <= r.calls <= MaxRetries(cfg, r.task) + 1
            case Refused => HasPredicate(cfg, r.task)
                            && (Bounded(cfg, r.task) ==> 1 <= r.calls <= MaxRetries(cfg, r.task) + 1)
            case Exhausted => Bounded(cfg, r.task) && r.calls == MaxAttempts(cfg, r.task)
            case _ => false
    ensures KeepsSettings(cfg, r)
  {
    ReachableKeepsInv(cfg, t);
    var k :| 0 <= k < |t.finished| && t.finished[k] == r;
    assert FinishedOk(t, t.finished[k]);
  }

  /** A task whose limit is the largest int never runs out of retries: its loop counter wraps. */
  lemma NeverExhausted(cfg: Config, t: State, r: Record)
    requires Reachable(cfg, t) && r in t.finished && !Bounded(cfg, r.task)
    ensures !r.outcome.Exhausted?
  {
    ReachableKeepsInv(cfg, t);
    var k :| 0 <= k < |t.finished| && t.finished[k] == r;
    assert FinishedOk(t, t.finished[k]);
  }

  // ---- Attempts ----

  function WasAbandoned(r: Record): int { One(r.outcome.Abandoned?) }

  function NeverCalled(r: Record): int { One(r.calls == 0) }

  lemma {:induction false} RecordsBalance(cfg: Config, rs: seq<Record>)
    requires forall r <- rs :: RecordOk(cfg, r) && !r.outcome.Lost?
    ensures SumBy(RecordCalls, rs) + SumBy(WasAbandoned, rs) + SumBy(NeverCalled, rs) == SumBy(RecordRetries, rs) + |rs|
  {
    if rs != [] {
      RecordsBalance(cfg, rs[1..]);
    }
  }

  /** Each Process call is a first attempt or a retry: once no worker holds a task and none
      was lost, calls + abandoned + never called = Retried + Processed + Failed, where the
      tasks never called are exactly those with a negative limit. */
  lemma AttemptAccounting(cfg: Config, t: State)
    requires Reachable(cfg, t)
    requires forall task <- t.received :: Bounded(cfg, task)
    requires forall w <- t.workers :: !w.Busy?
    requires t.lost == []
    ensures t.calls + SumBy(WasAbandoned, t.finished) + SumBy(NeverCalled, t.finished)
         == t.counters.retried + t.counters.processed + t.counters.failed
    ensures forall r <- t.finished :: r.calls == 0 <==> MaxRetries(cfg, r.task) < 0
  {
    ReachableKeepsInv(cfg, t);
    forall r | r in t.finished
      ensures RecordOk(t.cfg, r) && !r.outcome.Lost?
    {
      FinishedWasReceived(t, r);
    }
    RecordsBalance(t.cfg, t.finished);
    SumByZero(RetriesOf, t.workers);
    SumByZero(CallsOf, t.workers);
  }

  lemma FinishedWasReceived(t: State, r: Record)
    requires Inv(t) && r in t.finished
    ensures r.task in t.received
    ensures Bounded(t.cfg, r.task) ==> RecordOk(t.cfg, r)
    ensures !r.outcome.Lost?
  {
    var k :| 0 <= k < |t.finished| && t.finished[k] == r;
    assert FinishedOk(t, t.finished[k]);
    assert Tasks(t.finished)[k] == r.task;
    assert r.task in multiset(Tasks(t.finished));
    assert r.task in multiset(t.received);
  }

  /** No task is attempted more than maxRetries + 1 times or retried more than maxRetries
      times, whether it was counted, was lost or is still held, where the task's own settings
      come before the configured ones. */
  lemma AttemptBound(cfg: Config, t: State, r: Record)
    requires Reachable(cfg, t)
    requires r in t.finished || r in t.lost || exists w <- t.workers :: w.Busy? && RecordOf(w) == r
    ensures KeepsSettings(cfg, r)
    ensures Bounded(cfg, r.task) ==> r.calls <= MaxAttempts(cfg, r.task)
    ensures Bounded(cfg, r.task) ==> r.retries <= if MaxRetries(cfg, r.task) < 0 then 0 else MaxRetries(cfg, r.task)
  {
    ReachableKeepsInv(cfg, t);
    if r in t.finished {
      var k :| 0 <= k < |t.finished| && t.finished[k] == r;
      assert FinishedOk(t, t.finished[k]);
    } else if r in t.lost {
      var k :| 0 <= k < |t.lost| && t.lost[k] == r;
      assert LostOk(t.cfg, t.lost[k]);
    } else {
      var k :| 0 <= k < |t.workers| && t.workers[k].Busy? && RecordOf(t.workers[k]) == r;
      HeldRecordOk(t, k);
    }
    RecordKeepsSettings(cfg, r);
  }

  /** What the invariant knows of a record. */
  predicate KnownOf(cfg: Config, r: Record) {
    && (Bounded(cfg, r.task) ==> RecordOk(cfg, r))
    && (r.outcome.Abandoned? ==> SleepPossible(cfg, r.task))
    && (r.outcome.Refused? ==> HasPredicate(cfg, r.task))
    && (r.outcome.Exhausted? ==> Bounded(cfg, r.task))
  }

  lemma HeldRecordOk(t: State, k: nat)
    requires Inv(t) && k < |t.workers| && t.workers[k].Busy?
    ensures KnownOf(t.cfg, RecordOf(t.workers[k]))
  {
    assert WorkerOk(t, t.workers[k]);
  }

  lemma RecordKeepsSettings(cfg: Config, r: Record)
    requires KnownOf(cfg, r)
    ensures KeepsSettings(cfg, r)
    ensures Bounded(cfg, r.task) ==> r.calls <= MaxAttempts(cfg, r.task)
    ensures Bounded(cfg, r.task) ==> r.retries <= if MaxRetries(cfg, r.task) < 0 then 0 else MaxRetries(cfg, r.task)
  {
  }

  // ---- Snapshots ----

  predicate Complete(o: Observer) {
    |o.loads| == FIELDS
  }

  /** Each field of a Snapshot lies between its counter at the start and at the end of the call. */
  lemma SnapshotBounds(cfg: Config, t: State, i: nat)
    requires Reachable(cfg, t) && i < |t.observers| && Complete(t.observers[i])
    ensures Between(t.observers[i].start, t.observers[i].loads, t.counters)
    ensures forall k :: 0 <= k < FIELDS ==>
              Field(t.observers[i].start, k) <= t.observers[i].loads[k] <= Field(t.counters, k)
  {
    ReachableKeepsInv(cfg, t);
    assert ObserverOk(t.counters, t.observers[i]);
    ByName(t.observers[i].start, t.observers[i].loads, t.counters);
  }

  /** The loads of a Snapshot by counter. */
  predicate Between(c: Counters, loads: seq<nat>, d: Counters) {
    && |loads| == FIELDS
    && c.enqueued <= loads[0] <= d.enqueued && c.processed <= loads[1] <= d.processed
    && c.failed <= loads[2] <= d.failed && c.retried <= loads[3] <= d.retried
    && c.dropped <= loads[4] <= d.dropped && c.predicatesFailed <= loads[5] <= d.predicatesFailed
  }

  predicate Shows(loads: seq<nat>, c: Counters) {
    loads == [c.enqueued, c.processed, c.failed, c.retried, c.dropped, c.predicatesFailed]
  }

  lemma ByName(c: Counters, loads: seq<nat>, d: Counters)
    requires |loads| == FIELDS && forall k :: 0 <= k < FIELDS ==> Field(c, k) <= loads[k] <= Field(d, k)
    ensures Between(c, loads, d)
  {
    assert Field(c, 0) == c.enqueued && Field(d, 0) == d.enqueued;
    assert Field(c, 1) == c.processed && Field(d, 1) == d.processed;
    assert Field(c, 2) == c.failed && Field(d, 2) == d.failed;
    assert Field(c, 3) == c.retried && Field(d, 3) == d.retried;
    assert Field(c, 4) == c.dropped && Field(d, 4) == d.dropped;
    assert Field(c, 5) == c.predicatesFailed && Field(d, 5) == d.predicatesFailed;
  }

  /** So a Snapshot during which a counter did not change has its value, and one during which
      none changed is the counters at one instant, those of its start and end. */
  lemma QuietSnapshotIsAnInstant(cfg: Config, t: State, i: nat)
    requires Reachable(cfg, t) && i < |t.observers| && Complete(t.observers[i])
    ensures var o := t.observers[i];
            && (forall k :: 0 <= k < FIELDS && Field(o.start, k) == Field(t.counters, k) ==>
                  o.loads[k] == Field(o.start, k))
            && (o.start == t.counters ==> Shows(o.loads, t.counters))
  {
    SnapshotBounds(cfg, t, i);
  }

  ghost predicate StartsAfter(c: Counters, n: nat, t: State) {
    && n <= |t.observers|
    && CountersGrow(c, t.counters)
    && forall j :: n <= j < |t.observers| ==> CountersGrow(c, t.observers[j].start)
  }

  lemma SubmitGrows(n: Counters, pc: SubmitPc)
    ensures CountersGrow(n, CountSubmit(n, pc))
  {
  }

  lemma WorkGrows(n: Counters, w: Worker, a: WorkAct)
    ensures CountersGrow(n, CountWork(n, w, a))
  {
  }

  lemma GrowStep(s: State, a: Step)
    requires Enabled(s, a)
    ensures CountersGrow(s.counters, Apply(s, a).counters)
  {
    match a
    case SubmitStep(i, act) => SubmitGrows(s.counters, s.submitters[i].pc);
    case WorkStep(i, act) => WorkGrows(s.counters, s.workers[i], act);
    case _ => assert Apply(s, a).counters == s.counters;
  }

  lemma GrowTransitive(c: Counters, d: Counters, e: Counters)
    requires CountersGrow(c, d) && CountersGrow(d, e)
    ensures CountersGrow(c, e)
  {
    assert forall k :: 0 <= k < FIELDS ==> Field(c, k) <= Field(d, k) <= Field(e, k);
  }

  /** A step starts an observer at the present counters or leaves the starts alone. */
  lemma ObserverStarts(s: State, a: Step)
    requires Enabled(s, a)
    ensures var t := Apply(s, a);
            && |s.observers| <= |t.observers|
            && (forall j :: 0 <= j < |s.observers| ==> t.observers[j].start == s.observers[j].start)
            && (forall j :: |s.observers| <= j < |t.observers| ==> t.observers[j].start == s.counters)
  {
    match a
    case NewStats =>
    case Load(_) =>
    case _ => assert Apply(s, a).observers == s.observers;
  }

  lemma LaterStep(c: Counters, n: nat, s: State, a: Step, t: State)
    requires StartsAfter(c, n, s) && Enabled(s, a) && t == Apply(s, a)
    ensures StartsAfter(c, n, t)
  {
    GrowStep(s, a);
    GrowTransitive(c, s.counters, t.counters);
    ObserverStarts(s, a);
    forall j | n <= j < |t.observers|
      ensures CountersGrow(c, t.observers[j].start)
    {
      if j < |s.observers| {
        assert CountersGrow(c, s.observers[j].start);
      }
    }
  }

  lemma {:induction false} LaterSnapshots(c: Counters, n: nat, s: State, steps: seq<Step>, t: State)
    requires StartsAfter(c, n, s) && Runs(s, steps, t)
    ensures StartsAfter(c, n, t)
    decreases |steps|
  {
    if steps != [] {
      LaterStep(c, n, s, steps[0], Apply(s, steps[0]));
      LaterSnapshots(c, n, Apply(s, steps[0]), steps[1..], t);
    }
  }

  /** Sequential snapshots are componentwise monotone. */
  lemma SnapshotsMonotone(cfg: Config, s: State, i: nat, steps: seq<Step>, t: State, j: nat)
    requires Reachable(cfg, s) && i < |s.observers| && Complete(s.observers[i])
    requires Runs(s, steps, t) && |s.observers| <= j < |t.observers| && Complete(t.observers[j])
    ensures forall k :: 0 <= k < FIELDS ==> s.observers[i].loads[k] <= t.observers[j].loads[k]
  {
    ReachableKeepsInv(cfg, s);
    RunsKeepInv(s, steps, t);
    LaterSnapshots(s.counters, |s.observers|, s, steps, t);
    assert ObserverOk(s.counters, s.observers[i]);
    assert ObserverOk(t.counters, t.observers[j]);
    assert CountersGrow(s.counters, t.observers[j].start);
  }

  /** A snapshot begun after a drain Close returned nil is the exact state of the counters,
      so without internal panics Enqueued = Processed + Failed in it. */
  lemma SnapshotAfterDrain(cfg: Config, s: State, i: nat, steps: seq<Step>, t: State, j: nat)
    requires Reachable(cfg, s) && DrainReturnedNil(s, i)
    requires Runs(s, steps, t) && |s.observers| <= j < |t.observers| && Complete(t.observers[j])
    ensures Shows(t.observers[j].loads, s.counters)
    ensures SumBy(Died, s.workers) == 0 ==> t.observers[j].loads[0] == t.observers[j].loads[1] + t.observers[j].loads[2]
  {
    ReachableKeepsInv(cfg, s);
    DrainedBalance(cfg, s, i);
    DrainIsFinal(cfg, s, i, steps, t);
    RunsKeepInv(s, steps, t);
    LaterSnapshots(s.counters, |s.observers|, s, steps, t);
    assert ObserverOk(t.counters, t.observers[j]);
    assert CountersGrow(s.counters, t.observers[j].start);
    forall k | 0 <= k < FIELDS
      ensures t.observers[j].loads[k] == Field(s.counters, k)
    {
      assert Field(t.observers[j].start, k) <= t.observers[j].loads[k] <= Field(t.counters, k);
    }
    ByName(s.counters, t.observers[j].loads, s.counters);
  }

  // ---- Runs ----

  /** All steps are of worker i. */
  ghost predicate OnlyWorker(i: nat, steps: seq<Step>) {
    forall k :: 0 <= k < |steps| ==> steps[k].WorkStep? && steps[k].i == i
  }

  lemma RunsCons(s: State, a: Step, rest: seq<Step>, t: State)
    requires Enabled(s, a) && Runs(Apply(s, a), rest, t)
    ensures Runs(s, [a] + rest, t)
  {
    assert ([a] + rest)[1..] == rest;
  }

  lemma {:induction false} RunsAppend(s: State, steps: seq<Step>, u: State, more: seq<Step>, t: State)
    requires Runs(s, steps, u) && Runs(u, more, t)
    ensures Runs(s, steps + more, t)
    decreases |steps|
  {
    if steps == [] {
      assert steps + more == more;
    } else {
      RunsAppend(Apply(s, steps[0]), steps[1..], u, more, t);
      RunsCons(s, steps[0], steps[1..] + more, t);
      assert steps + more == [steps[0]] + (steps[1..] + more);
    }
  }

  lemma ReachableStep(cfg: Config, s: State, a: Step)
    requires Reachable(cfg, s) && Enabled(s, a)
    ensures Reachable(cfg, Apply(s, a))
  {
    var t := FollowingStep(Init(cfg), s, a);
  }

  /** t comes after s in some run. */
  ghost predicate Follows(s: State, t: State) {
    exists steps: seq<Step> :: Runs(s, steps, t)
  }

  lemma FollowingStep(s: State, t: State, a: Step) returns (u: State)
    requires Follows(s, t) && Enabled(t, a)
    ensures Follows(s, u) && u == Apply(t, a)
  {
    var steps :| Runs(s, steps, t);
    u := Apply(t, a);
    assert Runs(u, [], u);
    RunsCons(t, a, [], u);
    RunsAppend(s, steps, t, [a] + [], u);
  }

  lemma ReachableFollows(cfg: Config, s: State, t: State)
    requires Reachable(cfg, s) && Follows(s, t)
    ensures Reachable(cfg, t)
  {
    var before :| Runs(Init(cfg), before, s);
    var after :| Runs(s, after, t);
    RunsAppend(Init(cfg), before, s, after, t);
  }

  lemma WorkerFollows(s: State, t: State, i: nat, a: WorkAct) returns (u: State)
    requires Follows(s, t) && WorkEnabled(t, i, a)
    ensures Follows(s, u) && u == WorkApply(t, i, a)
  {
    u := FollowingStep(s, t, WorkStep(i, a));
  }

  lemma WorkerMoves(cfg: Config, s: State, i: nat, a: WorkAct) returns (t: State)
    requires Reachable(cfg, s) && WorkEnabled(s, i, a)
    ensures Reachable(cfg, t) && t == WorkApply(s, i, a)
  {
    ReachableStep(cfg, s, WorkStep(i, a));
    t := WorkApply(s, i, a);
  }

  lemma SubmitterMoves(cfg: Config, s: State, i: nat, a: SubmitAct) returns (t: State)
    requires Reachable(cfg, s) && SubmitEnabled(s, i, a)
    ensures Reachable(cfg, t) && t == SubmitApply(s, i, a)
  {
    ReachableStep(cfg, s, SubmitStep(i, a));
    t := SubmitApply(s, i, a);
  }

  lemma CloserMoves(cfg: Config, s: State, i: nat, a: CloseAct) returns (t: State)
    requires Reachable(cfg, s) && CloseEnabled(s, i, a)
    ensures Reachable(cfg, t) && t == CloseApply(s, i, a)
  {
    ReachableStep(cfg, s, CloseStep(i, a));
    t := CloseApply(s, i, a);
  }

  lemma InitReachable(cfg: Config)
    requires cfg.Valid()
    ensures Reachable(cfg, Init(cfg))
  {
    assert Runs(Init(cfg), [], Init(cfg));
  }
}
