/** The sequential code of a worker: the attempt loop of execute and the receive loop around
    it, as methods on a collector, and the proof that each execution is a run of the
    transition system. */
module Execute {
  import opened Wrappers
  import opened GoInts
  import opened Backoff
  import opened Stats
  import opened Dispatcher
  import opened DispatcherInvariant
  import opened DispatcherSafety

  datatype Wake = TimerFired | QuitSeen

  /** Everything an execution does not decide itself, by attempt: the outcome of Process, the
      verdict of the retry predicate, the random draw, the value of an out-of-range delay,
      and which case of the sleeping select fires. */
  datatype Env = Env(
    job: nat -> JobOutcome, allow: nat -> bool, draw: nat -> nat, wild: nat -> Int64, wake: nat -> Wake)

  function DelayOf(cfg: Config, task: Task, env: Env, attempt: nat): int {
    var d := RetryDelay(BaseDelay(cfg, task), cfg.maxRetryDelay, attempt, cfg.strategy, env.draw(attempt));
    if d.Exactly? then d.ns else env.wild(attempt)
  }

  predicate Interrupted(cfg: Config, task: Task, env: Env, attempt: nat) {
    DelayOf(cfg, task, env, attempt) > 0 && env.wake(attempt).QuitSeen?
  }

  /** What becomes of a task that has failed `attempt` times and is at the loop condition. */
  function Exec(cfg: Config, task: Task, env: Env, attempt: nat): Record
    requires attempt <= MaxAttempts(cfg, task)
    decreases MaxAttempts(cfg, task) - attempt
  {
    var m := MaxRetries(cfg, task);
    if attempt > m then Record(task, attempt, if m < 0 then 0 else m, Exhausted)
    else if env.job(attempt).JobOk? then Record(task, attempt + 1, attempt, Success)
    else if HasPredicate(cfg, task) && !env.allow(attempt) then Record(task, attempt + 1, attempt, Refused)
    else if attempt < m && Interrupted(cfg, task, env, attempt) then
      Record(task, attempt + 1, attempt + 1, Abandoned)
    else Exec(cfg, task, env, attempt + 1)
  }

  lemma {:induction false} ExecRecordOk(cfg: Config, task: Task, env: Env, attempt: nat)
    requires attempt <= MaxAttempts(cfg, task)
    ensures var r := Exec(cfg, task, env, attempt);
            RecordOk(cfg, r) && r.task == task && !r.outcome.Lost?
    decreases MaxAttempts(cfg, task) - attempt
  {
    var m := MaxRetries(cfg, task);
    if attempt <= m && !env.job(attempt).JobOk? && (env.allow(attempt) || !HasPredicate(cfg, task))
       && !(attempt < m && Interrupted(cfg, task, env, attempt))
    {
      ExecRecordOk(cfg, task, env, attempt + 1);
    }
  }

  /** What every attempt before `upto` was: a failure that no predicate refused and no quit cut
      short. */
  ghost predicate AllRetried(cfg: Config, task: Task, env: Env, upto: int) {
    forall k: nat :: k < upto ==>
      && !env.job(k).JobOk?
      && (task.hasPredicate || cfg.hasPredicate ==> env.allow(k))
      && (DelayOf(cfg, task, env, k) > 0 ==> env.wake(k).TimerFired?)
  }

  /** How the last attempt ended the task. */
  predicate EndsAs(cfg: Config, task: Task, env: Env, last: int, outcome: Outcome) {
    match outcome
    case Success => last >= 0 && env.job(last).JobOk?
    case Refused =>
      && last >= 0 && !env.job(last).JobOk?
      && (task.hasPredicate || cfg.hasPredicate) && !env.allow(last)
    case Abandoned =>
      && last >= 0 && !env.job(last).JobOk?
      && (task.hasPredicate || cfg.hasPredicate ==> env.allow(last))
      && DelayOf(cfg, task, env, last) > 0 && env.wake(last).QuitSeen?
    case Exhausted =>
      last >= 0 ==> !env.job(last).JobOk? && (task.hasPredicate || cfg.hasPredicate ==> env.allow(last))
    case Lost => false
  }

  lemma {:induction false} ExecFrom(cfg: Config, task: Task, env: Env, attempt: nat)
    requires attempt <= MaxAttempts(cfg, task)
    requires AllRetried(cfg, task, env, attempt - 1)
    requires attempt > 0 ==> EndsAs(cfg, task, env, attempt - 1, Exhausted)
    requires 0 < attempt <= MaxRetries(cfg, task) ==> !Interrupted(cfg, task, env, attempt - 1)
    ensures var r := Exec(cfg, task, env, attempt);
            AllRetried(cfg, task, env, r.calls - 1) && EndsAs(cfg, task, env, r.calls - 1, r.outcome)
    decreases MaxAttempts(cfg, task) - attempt
  {
    if !Ends(cfg, task, env, attempt) {
      ExecFrom(cfg, task, env, attempt + 1);
    }
  }

  /** A task ends with the first attempt that succeeds, is refused or is cut short, and with
      the last one otherwise; a panic is a failure like any other. */
  lemma ExecOutcome(cfg: Config, task: Task, env: Env)
    ensures var r := Exec(cfg, task, env, 0);
            AllRetried(cfg, task, env, r.calls - 1) && EndsAs(cfg, task, env, r.calls - 1, r.outcome)
  {
    ExecFrom(cfg, task, env, 0);
  }

  lemma {:induction false} ExecAbandonsInSleep(cfg: Config, task: Task, env: Env, attempt: nat)
    requires attempt <= MaxAttempts(cfg, task)
    ensures Exec(cfg, task, env, attempt).outcome.Abandoned? ==> SleepPossible(cfg, task)
    ensures Exec(cfg, task, env, attempt).outcome.Refused? ==> HasPredicate(cfg, task)
    decreases MaxAttempts(cfg, task) - attempt
  {
    if !Ends(cfg, task, env, attempt) {
      ExecAbandonsInSleep(cfg, task, env, attempt + 1);
    }
  }

  /** With any limit below the largest int the task's own settings are kept. */
  lemma ExecKeepsSettings(cfg: Config, task: Task, env: Env)
    requires Bounded(cfg, task)
    ensures KeepsSettings(cfg, Exec(cfg, task, env, 0))
  {
    ExecRecordOk(cfg, task, env, 0);
    ExecAbandonsInSleep(cfg, task, env, 0);
    RecordKeepsSettings(cfg, Exec(cfg, task, env, 0));
  }

  /** What an ended task adds to the counters. */
  function Tally(c: Snapshot, r: Record): Snapshot {
    c.(processed := if r.outcome.Success? then Plus(c.processed, 1) else c.processed,
       failed := if r.outcome.Success? then c.failed else Plus(c.failed, 1),
       retried := Plus(c.retried, r.retries),
       predicatesFailed := if r.outcome.Refused? then Plus(c.predicatesFailed, 1) else c.predicatesFailed)
  }

  /** Whether the iteration of that attempt returns. */
  predicate Ends(cfg: Config, task: Task, env: Env, attempt: nat) {
    || attempt > MaxRetries(cfg, task)
    || env.job(attempt).JobOk?
    || (HasPredicate(cfg, task) && !env.allow(attempt))
    || (attempt < MaxRetries(cfg, task) && Interrupted(cfg, task, env, attempt))
  }

  /** One iteration of the attempt loop. It returns if and only if Ends, with the record of the
      whole execution; otherwise the rest of the execution is that of the next attempt. */
  method Attempt(cfg: Config, task: Task, env: Env, attempt: nat, c: Collector) returns (ended: Option<Record>)
    requires attempt <= MaxRetries(cfg, task)
    modifies c
    ensures ended.Some? <==> Ends(cfg, task, env, attempt)
    ensures ended.Some? ==> ended.value == Exec(cfg, task, env, attempt)
                            && ended.value.retries >= attempt
                            && c.Counts() == Tally(old(c.Counts()), Since(ended.value, attempt))
    ensures ended.None? ==> Exec(cfg, task, env, attempt) == Exec(cfg, task, env, attempt + 1)
                            && c.Counts() == Retried(old(c.Counts()), if attempt < MaxRetries(cfg, task) then 1 else 0)
  {
    NoRetries(c.Counts());
    if env.job(attempt).JobOk? {
      c.IncProcessed();
      return Some(Record(task, attempt + 1, attempt, Success));
    }
    if HasPredicate(cfg, task) && !env.allow(attempt) {
      c.IncRetryPredicatesFailed();
      c.IncFailed();
      return Some(Record(task, attempt + 1, attempt, Refused));
    }
    if attempt < MaxRetries(cfg, task) {
      c.IncRetried();
      if DelayOf(cfg, task, env, attempt) > 0 {
        if env.wake(attempt).QuitSeen? {
          c.IncFailed();
          return Some(Record(task, attempt + 1, attempt + 1, Abandoned));
        }
      }
    }
    return None;
  }

  /** The record without the retries made before that attempt. */
  function Since(r: Record, attempt: nat): Record
    requires r.retries >= attempt
  {
    r.(retries := r.retries - attempt)
  }

  lemma NoRetries(c: Snapshot)
    ensures Plus(c.retried, 0) == c.retried
  {
  }

  lemma TallyAfterRetries(c: Snapshot, r: Record, retries: nat)
    requires r.retries >= retries
    ensures Tally(Retried(c, retries), Since(r, retries)) == Tally(c, r)
  {
    PlusPlus(c.retried, retries, r.retries - retries);
  }

  lemma RetriedAgain(c: Snapshot, retries: nat, n: nat)
    ensures Retried(Retried(c, retries), n) == Retried(c, retries + n)
  {
    PlusPlus(c.retried, retries, n);
  }

  /** One task. The limit must be below the largest int: at it, attempt++ wraps and the loop
      of the source does not end. */
  method ExecuteTask(cfg: Config, task: Task, env: Env, c: Collector) returns (r: Record)
    requires Bounded(cfg, task)
    modifies c
    ensures r == Exec(cfg, task, env, 0) && RecordOk(cfg, r)
    ensures r.task == task && KeepsSettings(cfg, r)
    ensures c.Counts() == Tally(old(c.Counts()), r)
  {
    var maxRetries := MaxRetries(cfg, task);
    var attempt := 0;
    ExecRecordOk(cfg, task, env, 0);
    ExecKeepsSettings(cfg, task, env);
    NoRetries(c.Counts());
    while attempt <= maxRetries
      invariant 0 <= attempt <= MaxAttempts(cfg, task)
      invariant Exec(cfg, task, env, 0) == Exec(cfg, task, env, attempt)
      invariant c.Counts() == Retried(old(c.Counts()), RetriesBefore(cfg, task, attempt))
      decreases MaxAttempts(cfg, task) - attempt
    {
      var ended := Attempt(cfg, task, env, attempt, c);
      if ended.Some? {
        TallyAfterRetries(old(c.Counts()), ended.value, attempt);
        return ended.value;
      }
      RetriedAgain(old(c.Counts()), attempt, if attempt < maxRetries then 1 else 0);
      attempt := attempt + 1;
    }
    r := Record(task, attempt, RetriesBefore(cfg, task, attempt), Exhausted);
    c.IncFailed();
  }

  /** The retries counted when that many attempts have failed. */
  function RetriesBefore(cfg: Config, task: Task, attempt: nat): nat {
    var m := MaxRetries(cfg, task);
    if attempt <= m then attempt else if m < 0 then 0 else m
  }

  function Retried(c: Snapshot, retries: nat): Snapshot {
    c.(retried := Plus(c.retried, retries))
  }

  /** The records of a worker that drains a closed channel. */
  function ExecAll(cfg: Config, tasks: seq<Task>, env: nat -> Env): seq<Record> {
    seq(|tasks|, k requires 0 <= k < |tasks| => Exec(cfg, tasks[k], env(k), 0))
  }

  function TallyAll(c: Snapshot, rs: seq<Record>): Snapshot {
    if rs == [] then c else Tally(TallyAll(c, rs[..|rs| - 1]), rs[|rs| - 1])
  }

  /** The receive loop of one worker over what a closed channel still holds: every task is
      executed, in order, and counted exactly once. */
  method Drain(cfg: Config, tasks: seq<Task>, env: nat -> Env, c: Collector) returns (rs: seq<Record>)
    requires forall t <- tasks :: Bounded(cfg, t)
    modifies c
    ensures rs == ExecAll(cfg, tasks, env)
    ensures c.Counts() == TallyAll(old(c.Counts()), rs)
  {
    rs := [];
    var k := 0;
    while k < |tasks|
      invariant 0 <= k <= |tasks|
      invariant rs == ExecAll(cfg, tasks[..k], env)
      invariant c.Counts() == TallyAll(old(c.Counts()), rs)
    {
      var r := ExecuteTask(cfg, tasks[k], env(k), c);
      assert (rs + [r])[..k] == rs;
      assert tasks[..k + 1] == tasks[..k] + [tasks[k]];
      rs := rs + [r];
      k := k + 1;
    }
    assert tasks[..k] == tasks;
  }

  /** A drain adds its successes to Processed, the rest to Failed, and the sum of the retries
      to Retried (modulo 2^64); the other counters stay. */
  lemma {:induction false} TallyAllSums(c: Snapshot, rs: seq<Record>)
    ensures var d := TallyAll(c, rs);
            && d.processed == Plus(c.processed, SumBy(Succeeded, rs))
            && d.failed == Plus(c.failed, |rs| - SumBy(Succeeded, rs))
            && d.retried == Plus(c.retried, SumBy(RecordRetries, rs))
            && d.predicatesFailed == Plus(c.predicatesFailed, SumBy(WasRefused, rs))
            && d.enqueued == c.enqueued && d.dropped == c.dropped
    decreases |rs|
  {
    if rs != [] {
      var n := |rs| - 1;
      var r := rs[n];
      TallyAllSums(c, rs[..n]);
      assert rs == rs[..n] + [r];
      SumByAppend(Succeeded, rs[..n], r);
      SumByAppend(RecordRetries, rs[..n], r);
      SumByAppend(WasRefused, rs[..n], r);
      TallyStep(c.processed, SumBy(Succeeded, rs[..n]), Succeeded(r));
      TallyStep(c.failed, n - SumBy(Succeeded, rs[..n]), 1 - Succeeded(r));
      TallyStep(c.retried, SumBy(RecordRetries, rs[..n]), r.retries);
      TallyStep(c.predicatesFailed, SumBy(WasRefused, rs[..n]), WasRefused(r));
    }
  }

  lemma TallyStep(x: UInt64, m: int, n: int)
    ensures Plus(Plus(x, m), n) == Plus(x, m + n)
    ensures Plus(x, 0) == x
  {
    PlusPlus(x, m, n);
  }

  // ---- A whole sequential run ----

  function AtMost(n: nat, limit: nat): nat {
    if n <= limit then n else limit
  }

  /** TrySubmit of each task before any worker has started: the first ones fill the queue, the
      rest are dropped. */
  method TrySubmitAll(cfg: Config, tasks: seq<Task>, c: Collector) returns (queue: seq<Task>)
    modifies c
    ensures queue == tasks[..AtMost(|tasks|, cfg.queueSize)]
    ensures c.Counts() == Submitted(old(c.Counts()), |queue|, |tasks| - |queue|)
  {
    queue := [];
    for k := 0 to |tasks|
      invariant queue == tasks[..AtMost(k, cfg.queueSize)]
      invariant c.Counts() == Submitted(old(c.Counts()), |queue|, k - |queue|)
    {
      if |queue| < cfg.queueSize {
        PlusPlus(old(c.enqueued), |queue|, 1);
        queue := queue + [tasks[k]];
        c.IncEnqueued();
      } else {
        PlusPlus(old(c.dropped), k - |queue|, 1);
        c.IncDropped();
      }
    }
  }

  function Submitted(c: Snapshot, enqueued: int, dropped: int): Snapshot {
    c.(enqueued := Plus(c.enqueued, enqueued), dropped := Plus(c.dropped, dropped))
  }

  /** A program that submits without blocking and then closes, with one worker that starts
      late: the first tasks, as many as the queue holds, run in order; the rest are dropped;
      and the final snapshot balances, Enqueued = Processed + Failed. */
  method SubmitThenDrain(cfg: Config, tasks: seq<Task>, env: nat -> Env) returns (rs: seq<Record>, snap: Snapshot)
    requires forall t <- tasks :: Bounded(cfg, t)
    ensures rs == ExecAll(cfg, tasks[..AtMost(|tasks|, cfg.queueSize)], env)
    ensures snap.enqueued == |rs| % TWO_64 && snap.dropped == (|tasks| - |rs|) % TWO_64
    ensures snap.enqueued == (snap.processed + snap.failed) % TWO_64
    ensures snap.processed == SumBy(Succeeded, rs) % TWO_64 && snap.predicatesFailed == SumBy(WasRefused, rs) % TWO_64
    ensures snap.retried == SumBy(RecordRetries, rs) % TWO_64
  {
    var c := new Collector();
    var queue := TrySubmitAll(cfg, tasks, c);
    ghost var submitted := c.Counts();
    rs := Drain(cfg, queue, env, c);
    snap := c.TakeSnapshot();
    TallyAllSums(submitted, rs);
    SumModulo(SumBy(Succeeded, rs), |rs| - SumBy(Succeeded, rs));
  }

  lemma SumModulo(x: int, y: int)
    ensures (x % TWO_64 + y % TWO_64) % TWO_64 == (x + y) % TWO_64
  {
  }

  // ---- Each execution is a run of the transition system ----

  /** The variables that a worker changes inside execute. */
  datatype Local = Local(w: Worker, counters: Counters, calls: nat, finished: seq<Record>)

  ghost predicate InExecute(cfg: Config, quit: bool, l: Local, a: WorkAct) {
    l.w.Busy? && !a.Panic? && BusyEnabled(cfg, quit, l.w, a)
  }

  function Next(cfg: Config, l: Local, a: WorkAct): Local
    requires l.w.Busy?
  {
    Local(BusyNext(cfg, l.w, a), CountWork(l.counters, l.w, a), if a.Call? then l.calls + 1 else l.calls,
          if a.Finish? then l.finished + [RecordOf(l.w)] else l.finished)
  }

  ghost predicate LocalRuns(cfg: Config, quit: bool, l: Local, acts: seq<WorkAct>, l': Local)
    decreases |acts|
  {
    if acts == [] then l' == l
    else InExecute(cfg, quit, l, acts[0]) && LocalRuns(cfg, quit, Next(cfg, l, acts[0]), acts[1..], l')
  }

  /** Steps inside execute lead from l to l'. */
  ghost predicate Leads(cfg: Config, quit: bool, l: Local, l': Local) {
    exists acts: seq<WorkAct> :: LocalRuns(cfg, quit, l, acts, l')
  }

  lemma {:induction false} LocalRunsSnoc(cfg: Config, quit: bool, l: Local, acts: seq<WorkAct>, l': Local, a: WorkAct)
    requires LocalRuns(cfg, quit, l, acts, l') && InExecute(cfg, quit, l', a)
    ensures LocalRuns(cfg, quit, l, acts + [a], Next(cfg, l', a))
    decreases |acts|
  {
    if acts == [] {
      assert (acts + [a])[1..] == [];
    } else {
      LocalRunsSnoc(cfg, quit, Next(cfg, l, acts[0]), acts[1..], l', a);
      assert (acts + [a])[1..] == acts[1..] + [a];
    }
  }

  /** One more step inside execute. */
  lemma Advance(cfg: Config, quit: bool, o: Local, l: Local, a: WorkAct) returns (l': Local)
    requires Leads(cfg, quit, o, l) && InExecute(cfg, quit, l, a)
    ensures l' == Next(cfg, l, a) && Leads(cfg, quit, o, l')
  {
    var acts :| LocalRuns(cfg, quit, o, acts, l);
    LocalRunsSnoc(cfg, quit, o, acts, l, a);
    l' := Next(cfg, l, a);
  }

  /** A worker at the loop condition after `attempt` failed attempts. */
  function AtCheck(cfg: Config, task: Task, attempt: nat): Worker
    requires Bounded(cfg, task) && attempt <= MaxAttempts(cfg, task)
  {
    Busy(task, attempt, attempt, RetriesBefore(cfg, task, attempt), Check)
  }

  /** What the shared variables are once the task has ended with record r. */
  function Ended(l: Local, r: Record): Local
    requires l.w.Busy? && r.retries >= l.w.retries && r.calls >= l.w.calls
  {
    var n := l.counters;
    Local(Reporting,
          Counters(n.enqueued,
                   if r.outcome.Success? then n.processed + 1 else n.processed,
                   if r.outcome.Success? then n.failed else n.failed + 1,
                   n.retried + r.retries - l.w.retries, n.dropped,
                   if r.outcome.Refused? then n.predicatesFailed + 1 else n.predicatesFailed),
          l.calls + r.calls - l.w.calls, l.finished + [r])
  }

  lemma {:induction false} ExecGrows(cfg: Config, task: Task, env: Env, attempt: nat)
    requires attempt <= MaxAttempts(cfg, task) && Bounded(cfg, task)
    ensures var r := Exec(cfg, task, env, attempt);
            r.calls >= attempt && r.retries >= AtCheck(cfg, task, attempt).retries
    decreases MaxAttempts(cfg, task) - attempt
  {
    if attempt < MaxAttempts(cfg, task) {
      ExecGrows(cfg, task, env, attempt + 1);
    }
  }

  /** A failed attempt that will be retried: up to IncRetried and the delay. */
  lemma RetryIsCounted(cfg: Config, quit: bool, o: Local, l: Local, task: Task, env: Env, attempt: nat)
    returns (l': Local)
    requires Leads(cfg, quit, o, l)
    requires attempt < MaxRetries(cfg, task) && l.w == Busy(task, attempt, attempt + 1, attempt, Errored)
    ensures l' == Local(Busy(task, attempt, attempt + 1, attempt + 1, Delaying),
                        l.counters.(retried := l.counters.retried + 1), l.calls, l.finished)
    ensures Leads(cfg, quit, o, l')
  {
    var l1 := Advance(cfg, quit, o, l, Decide(true));
    l' := Advance(cfg, quit, o, l1, CountRetry);
  }

  /** An iteration that fails and goes on: to the next loop condition. */
  lemma IterationGoesOn(cfg: Config, quit: bool, o: Local, l: Local, task: Task, env: Env, attempt: nat)
    returns (l': Local)
    requires Leads(cfg, quit, o, l)
    requires Bounded(cfg, task) && attempt < MaxAttempts(cfg, task)
    requires l.w == Busy(task, attempt, attempt + 1, attempt, Errored)
    requires !(attempt < MaxRetries(cfg, task) && Interrupted(cfg, task, env, attempt))
    ensures l' == Local(AtCheck(cfg, task, attempt + 1),
                        l.counters.(retried := l.counters.retried + if attempt < MaxRetries(cfg, task) then 1 else 0),
                        l.calls, l.finished)
    ensures Leads(cfg, quit, o, l')
  {
    if attempt < MaxRetries(cfg, task) {
      var ns := DelayOf(cfg, task, env, attempt);
      var l1 := RetryIsCounted(cfg, quit, o, l, task, env, attempt);
      DelayOccurs(cfg, task, env, attempt);
      l' := Advance(cfg, quit, o, l1, Delay(ns));
      if ns > 0 {
        l' := Advance(cfg, quit, o, l', Timer);
      }
    } else {
      l' := Advance(cfg, quit, o, l, Decide(true));
    }
  }

  lemma DelayOccurs(cfg: Config, task: Task, env: Env, attempt: nat)
    ensures DelayPossible(cfg, task, attempt, DelayOf(cfg, task, env, attempt))
  {
    assert DelayIs(cfg, task, attempt, env.draw(attempt), DelayOf(cfg, task, env, attempt));
  }

  /** The last step of every execution. */
  lemma FinishRecords(cfg: Config, quit: bool, o: Local, l: Local, outcome: Outcome)
    requires Leads(cfg, quit, o, l)
    requires l.w.Busy? && l.w.phase == Ending(outcome)
    ensures Leads(cfg, quit, o, Local(Reporting, CountWork(l.counters, l.w, Finish), l.calls,
                                               l.finished + [Record(l.w.task, l.w.calls, l.w.retries, outcome)]))
  {
    var l' := Advance(cfg, quit, o, l, Finish);
  }

  lemma IterationAbandons(cfg: Config, quit: bool, o: Local, l: Local, task: Task, env: Env, attempt: nat)
    requires Leads(cfg, quit, o, l) && quit
    requires attempt < MaxRetries(cfg, task) && Interrupted(cfg, task, env, attempt)
    requires l.w == Busy(task, attempt, attempt + 1, attempt, Errored)
    ensures Leads(cfg, quit, o, Ended(l, Record(task, attempt + 1, attempt + 1, Abandoned)))
  {
    var l1 := RetryIsCounted(cfg, quit, o, l, task, env, attempt);
    DelayOccurs(cfg, task, env, attempt);
    var l2 := Advance(cfg, quit, o, l1, Delay(DelayOf(cfg, task, env, attempt)));
    var l3 := Advance(cfg, quit, o, l2, SeeQuit);
    FinishRecords(cfg, quit, o, l3, Abandoned);
  }

  lemma IterationRefuses(cfg: Config, quit: bool, o: Local, l: Local, task: Task, attempt: nat)
    requires Leads(cfg, quit, o, l) && HasPredicate(cfg, task)
    requires attempt <= MaxRetries(cfg, task) && l.w == Busy(task, attempt, attempt + 1, attempt, Errored)
    ensures Leads(cfg, quit, o, Ended(l, Record(task, attempt + 1, attempt, Refused)))
  {
    var l1 := Advance(cfg, quit, o, l, Decide(false));
    var l2 := Advance(cfg, quit, o, l1, CountRefusal);
    FinishRecords(cfg, quit, o, l2, Refused);
  }

  /** One attempt: past the loop condition and through Process. */
  lemma AttemptMade(cfg: Config, quit: bool, o: Local, l: Local, task: Task, env: Env, attempt: nat)
    returns (l': Local)
    requires Leads(cfg, quit, o, l)
    requires Bounded(cfg, task) && attempt <= MaxRetries(cfg, task) && l.w == AtCheck(cfg, task, attempt)
    ensures l' == Local(Busy(task, attempt, attempt + 1, attempt,
                             if env.job(attempt).JobOk? then Ending(Success) else Errored),
                        l.counters, l.calls + 1, l.finished)
    ensures Leads(cfg, quit, o, l')
  {
    var l1 := Advance(cfg, quit, o, l, Loop);
    l' := Advance(cfg, quit, o, l1, Call(env.job(attempt)));
  }

  /** An iteration that returns. */
  lemma IterationEnds(cfg: Config, quit: bool, o: Local, l: Local, task: Task, env: Env, attempt: nat)
    requires Leads(cfg, quit, o, l)
    requires Bounded(cfg, task) && attempt <= MaxAttempts(cfg, task) && l.w == AtCheck(cfg, task, attempt)
    requires (quit || env.wake(attempt).TimerFired?) && Ends(cfg, task, env, attempt)
    ensures Leads(cfg, quit, o, Ended(l, Exec(cfg, task, env, attempt)))
  {
    if attempt > MaxRetries(cfg, task) {
      var l1 := Advance(cfg, quit, o, l, Loop);
      FinishRecords(cfg, quit, o, l1, Exhausted);
    } else {
      var l1 := AttemptMade(cfg, quit, o, l, task, env, attempt);
      if env.job(attempt).JobOk? {
        FinishRecords(cfg, quit, o, l1, Success);
      } else if HasPredicate(cfg, task) && !env.allow(attempt) {
        IterationRefuses(cfg, quit, o, l1, task, attempt);
      } else {
        IterationAbandons(cfg, quit, o, l1, task, env, attempt);
      }
    }
  }

  /** A whole iteration that fails and goes on: the end of the task is the same seen from the
      next loop condition. */
  lemma IterationFails(cfg: Config, quit: bool, o: Local, l: Local, task: Task, env: Env, attempt: nat)
    returns (l': Local)
    requires Leads(cfg, quit, o, l)
    requires Bounded(cfg, task) && attempt <= MaxAttempts(cfg, task) && l.w == AtCheck(cfg, task, attempt)
    requires !Ends(cfg, task, env, attempt)
    ensures attempt < MaxAttempts(cfg, task) && l'.w == AtCheck(cfg, task, attempt + 1) && Leads(cfg, quit, o, l')
    ensures Exec(cfg, task, env, attempt) == Exec(cfg, task, env, attempt + 1)
    ensures forall r: Record :: r.calls >= l'.w.calls && r.retries >= l'.w.retries ==>
              r.calls >= l.w.calls && r.retries >= l.w.retries && Ended(l', r) == Ended(l, r)
  {
    var l1 := AttemptMade(cfg, quit, o, l, task, env, attempt);
    l' := IterationGoesOn(cfg, quit, o, l1, task, env, attempt);
  }

  /** The worker that executes the task, with the outcomes of env, ends it with the record
      and the counters of the sequential code. */
  lemma {:induction false} ExecutionIsARun(cfg: Config, quit: bool, o: Local, l: Local, task: Task, env: Env,
                                           attempt: nat)
    requires Leads(cfg, quit, o, l)
    requires Bounded(cfg, task) && attempt <= MaxAttempts(cfg, task) && l.w == AtCheck(cfg, task, attempt)
    requires quit || forall k: nat :: env.wake(k).TimerFired?
    ensures var r := Exec(cfg, task, env, attempt);
            && r.calls >= l.w.calls && r.retries >= l.w.retries
            && Leads(cfg, quit, o, Ended(l, r))
    decreases MaxAttempts(cfg, task) - attempt
  {
    ExecGrows(cfg, task, env, attempt);
    if Ends(cfg, task, env, attempt) {
      IterationEnds(cfg, quit, o, l, task, env, attempt);
    } else {
      var l' := IterationFails(cfg, quit, o, l, task, env, attempt);
      ExecutionIsARun(cfg, quit, o, l', task, env, attempt + 1);
    }
  }

  // ---- ... lifted to the whole dispatcher ----

  function With(s: State, i: nat, l: Local): State
    requires i < |s.workers|
  {
    s.(workers := s.workers[i := l.w], counters := l.counters, calls := l.calls, finished := l.finished)
  }

  lemma BusyStep(s: State, i: nat, l: Local, a: WorkAct)
    requires i < |s.workers| && InExecute(s.cfg, s.quit, l, a)
    ensures WorkEnabled(With(s, i, l), i, a)
    ensures WorkApply(With(s, i, l), i, a) == With(s, i, Next(s.cfg, l, a))
  {
    assert s.workers[i := l.w][i := BusyNext(s.cfg, l.w, a)] == s.workers[i := BusyNext(s.cfg, l.w, a)];
  }

  lemma {:induction false} LocalRunsAreRuns(s: State, i: nat, l: Local, acts: seq<WorkAct>, l': Local)
    returns (steps: seq<Step>)
    requires i < |s.workers| && LocalRuns(s.cfg, s.quit, l, acts, l')
    ensures Runs(With(s, i, l), steps, With(s, i, l')) && OnlyWorker(i, steps)
    decreases |acts|
  {
    if acts == [] {
      steps := [];
    } else {
      BusyStep(s, i, l, acts[0]);
      var rest := LocalRunsAreRuns(s, i, Next(s.cfg, l, acts[0]), acts[1..], l');
      RunsCons(With(s, i, l), WorkStep(i, acts[0]), rest, With(s, i, l'));
      steps := [WorkStep(i, acts[0])] + rest;
    }
  }

  /** From the moment a worker has received a task: whatever the outcomes, the sequential
      code of execute is a run of that worker alone, which ends the task with the same record
      and moves the counters by the same amounts. */
  lemma ExecuteRefinesSteps(s: State, i: nat, env: Env) returns (steps: seq<Step>)
    requires i < |s.workers| && s.workers[i].Busy? && Bounded(s.cfg, s.workers[i].task)
    requires s.workers[i] == Busy(s.workers[i].task, 0, 0, 0, Check)
    requires s.quit || forall k: nat :: env.wake(k).TimerFired?
    ensures var r := Exec(s.cfg, s.workers[i].task, env, 0);
            Runs(s, steps, With(s, i, Ended(Local(s.workers[i], s.counters, s.calls, s.finished), r)))
    ensures OnlyWorker(i, steps)
  {
    var l := Local(s.workers[i], s.counters, s.calls, s.finished);
    var r := Exec(s.cfg, s.workers[i].task, env, 0);
    assert With(s, i, l) == s;
    assert LocalRuns(s.cfg, s.quit, l, [], l);
    ExecutionIsARun(s.cfg, s.quit, l, l, s.workers[i].task, env, 0);
    var acts :| LocalRuns(s.cfg, s.quit, l, acts, Ended(l, r));
    steps := LocalRunsAreRuns(s, i, l, acts, Ended(l, r));
  }
}
