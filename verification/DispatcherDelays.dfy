/** How long a worker sleeps between two attempts, in terms of the configuration. */
module DispatcherDelays {
  import opened GoInts
  import opened PowersOfTwo
  import opened Float64
  import opened Backoff
  import opened Dispatcher
  import opened DispatcherInvariant
  import opened DispatcherSafety
  import opened Execute

  function Least(a: int, b: int): int {
    if a <= b then a else b
  }

  /** The wait documented for the retry after the given number of failed attempts, in integers.
      The cap counts when positive, and for the exponential strategies only. */
  predicate DocumentedWait(cfg: Config, base: Nanos, failures: nat, ns: int)
    requires failures > 0
  {
    var doubled := base * Pow2(failures - 1);
    var exp := if cfg.maxRetryDelay > 0 then Least(cfg.maxRetryDelay, doubled) else doubled;
    if base <= 0 then ns == 0
    else
      match cfg.strategy
      case Constant => ns == base
      case Linear => ns == base * failures
      case Exponential => ns == exp
      case ExponentialJitter => 0 <= ns < exp
      case Unknown(_) => ns == 0
  }

  /** Where the documentation is exact: Linear while it fits 63 bits, the exponential strategies
      up to 2^53 ns. */
  predicate InRange(cfg: Config, base: Nanos, failures: nat)
    requires failures > 0
  {
    var doubled := base * Pow2(failures - 1);
    base > 0 ==>
      match cfg.strategy
      case Linear => base * failures < TWO_63
      case Exponential => 0 < cfg.maxRetryDelay <= TWO_53 || doubled <= TWO_53
      case ExponentialJitter => 0 < cfg.maxRetryDelay <= TWO_53 || doubled <= TWO_53
      case _ => true
  }

  lemma DocumentedIsExp(base: Nanos, maxDelay: Nanos, attempt: nat)
    requires base > 0
    ensures var doubled := base * Pow2(attempt);
            Documented(base, maxDelay, attempt) == if maxDelay > 0 then Least(maxDelay, doubled) else doubled
  {
  }

  lemma ExponentialDocumented(base: Nanos, maxDelay: Nanos, attempt: nat, draw: nat)
    requires base > 0 && (0 < maxDelay <= TWO_53 || base * Pow2(attempt) <= TWO_53)
    ensures RetryDelay(base, maxDelay, attempt, Exponential, draw) == Exactly(Documented(base, maxDelay, attempt))
  {
    ExponentialIsRounded(base, maxDelay, attempt, draw);
    Round53Small(Documented(base, maxDelay, attempt));
  }

  /** RetryDelay returns a documented wait, and any documented wait for some draw. */
  lemma RetryDelayDocumented(cfg: Config, base: Nanos, attempt: nat, draw: nat)
    requires InRange(cfg, base, attempt + 1) && attempt + 1 < TWO_63
    ensures var d := RetryDelay(base, cfg.maxRetryDelay, attempt, cfg.strategy, draw);
            d.Exactly? && DocumentedWait(cfg, base, attempt + 1, d.ns)
  {
    if base > 0 {
      match cfg.strategy
      case Linear => LinearExactIff(base, cfg.maxRetryDelay, attempt, draw);
      case Exponential =>
        DocumentedIsExp(base, cfg.maxRetryDelay, attempt);
        ExponentialDocumented(base, cfg.maxRetryDelay, attempt, draw);
      case ExponentialJitter =>
        DocumentedIsExp(base, cfg.maxRetryDelay, attempt);
        ExponentialDocumented(base, cfg.maxRetryDelay, attempt, draw);
        JitterBelowExponential(base, cfg.maxRetryDelay, attempt, draw);
      case _ =>
    }
  }

  lemma EveryWaitIsDrawn(cfg: Config, base: Nanos, attempt: nat, ns: int)
    requires InRange(cfg, base, attempt + 1) && attempt + 1 < TWO_63 && DocumentedWait(cfg, base, attempt + 1, ns)
    ensures exists draw: nat :: RetryDelay(base, cfg.maxRetryDelay, attempt, cfg.strategy, draw) == Exactly(ns)
  {
    var draw: nat := if base > 0 && cfg.strategy.ExponentialJitter? then ns else 0;
    RetryDelayDocumented(cfg, base, attempt, draw);
    if base > 0 && cfg.strategy.ExponentialJitter? {
      DocumentedIsExp(base, cfg.maxRetryDelay, attempt);
      ExponentialDocumented(base, cfg.maxRetryDelay, attempt, draw);
      JitterBelowExponential(base, cfg.maxRetryDelay, attempt, draw);
    }
    assert RetryDelay(base, cfg.maxRetryDelay, attempt, cfg.strategy, draw) == Exactly(ns);
  }

  // ---- The worker ----

  /** The task's own base delay if it has one, else the configured one. */
  predicate BaseIs(cfg: Config, task: Task, base: Nanos) {
    match task.retryDelay
    case Some(own) => base == own
    case None => base == cfg.retryDelay
  }

  predicate LimitIsBelowMax(cfg: Config, task: Task) {
    match task.maxRetries
    case Some(own) => own < MAX_INT
    case None => cfg.maxRetries < MAX_INT
  }

  /** A worker about to wait has failed w.calls times, and may wait exactly the documented time:
      the delay is computed from the task's base, the configured cap and strategy, and the
      number of failed attempts. */
  lemma WorkerWaitsAsDocumented(cfg: Config, t: State, i: nat, base: Nanos, ns: int)
    requires Reachable(cfg, t) && i < |t.workers| && t.workers[i].Busy? && t.workers[i].phase.Delaying?
    requires LimitIsBelowMax(cfg, t.workers[i].task) && BaseIs(cfg, t.workers[i].task, base)
    ensures t.workers[i].calls > 0
    ensures InRange(cfg, base, t.workers[i].calls) ==>
              (WorkEnabled(t, i, Delay(ns)) <==> DocumentedWait(cfg, base, t.workers[i].calls, ns))
  {
    ReachableKeepsInv(cfg, t);
    var w := t.workers[i];
    assert WorkerOk(t, w);
    assert w.attempt == w.calls - 1 && w.attempt + 1 < TWO_63;
    if InRange(cfg, base, w.calls) {
      DelayPossibleIff(cfg, w.task, w.attempt, base, ns);
    }
  }

  lemma DelayPossibleIff(cfg: Config, task: Task, attempt: nat, base: Nanos, ns: int)
    requires BaseIs(cfg, task, base) && attempt + 1 < TWO_63 && InRange(cfg, base, attempt + 1)
    ensures DelayPossible(cfg, task, attempt, ns) <==> DocumentedWait(cfg, base, attempt + 1, ns)
  {
    if DelayPossible(cfg, task, attempt, ns) && base > 0 && !cfg.strategy.Unknown? {
      var draw: nat :| DelayIs(cfg, task, attempt, draw, ns);
      RetryDelayDocumented(cfg, base, attempt, draw);
    }
    if DocumentedWait(cfg, base, attempt + 1, ns) {
      EveryWaitIsDrawn(cfg, base, attempt, ns);
      var draw: nat :| RetryDelay(base, cfg.maxRetryDelay, attempt, cfg.strategy, draw) == Exactly(ns);
      assert DelayIs(cfg, task, attempt, draw, ns);
    }
  }

  /** The sequential code waits as documented too. */
  lemma ExecWaitsAsDocumented(cfg: Config, task: Task, env: Env, attempt: nat, base: Nanos)
    requires BaseIs(cfg, task, base) && attempt + 1 < TWO_63 && InRange(cfg, base, attempt + 1)
    ensures DocumentedWait(cfg, base, attempt + 1, DelayOf(cfg, task, env, attempt))
  {
    RetryDelayDocumented(cfg, base, attempt, env.draw(attempt));
  }
}
