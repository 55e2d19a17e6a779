/** Every step of every actor keeps the invariant. */
module DispatcherPreservation {
  import opened Wrappers
  import opened Dispatcher
  import opened DispatcherInvariant

  // ---- The initial state ----

  lemma {:induction false} IdleSums(n: nat)
    ensures var ws := seq(n, _ => Idle);
            && SumBy(Holds, ws) == 0 && SumBy(Alive, ws) == n && SumBy(Died, ws) == 0
            && SumBy(BetweenRefusalCounts, ws) == 0 && SumBy(CallsOf, ws) == 0 && SumBy(RetriesOf, ws) == 0
            && Held(ws) == multiset{}
  {
    if n > 0 {
      IdleSums(n - 1);
      var ws: seq<Worker> := seq(n, _ => Idle);
      assert ws[1..] == seq(n - 1, _ => Idle);
    }
  }

  lemma InitInv(cfg: Config)
    requires cfg.Valid()
    ensures Inv(Init(cfg))
  {
    IdleSums(cfg.workerCount);
  }

  // ---- Frames: what a step of one actor leaves to the others ----

  lemma FrameWork(s: State, t: State)
    requires WorkCounts(s) && EachOnce(s) && SingleWorkerInv(s)
    requires t.workers == s.workers && t.finished == s.finished && t.lost == s.lost && t.received == s.received
    requires t.calls == s.calls && t.wg == s.wg && t.cfg == s.cfg
    requires t.counters == s.counters.(enqueued := t.counters.enqueued, dropped := t.counters.dropped)
    ensures WorkCounts(t) && EachOnce(t) && SingleWorkerInv(t)
  {
  }

  lemma FrameRecords(s: State, t: State)
    requires RecordsOk(s)
    requires t.workers == s.workers && t.finished == s.finished && t.lost == s.lost && t.cfg == s.cfg
    requires (s.quit ==> t.quit) && (s.tasksClosed ==> t.tasksClosed && t.queue == s.queue)
    ensures RecordsOk(t)
  {
    forall j | 0 <= j < |t.workers|
      ensures WorkerOk(t, t.workers[j])
    {
      assert WorkerOk(s, s.workers[j]);
    }
    forall j | 0 <= j < |t.finished|
      ensures FinishedOk(t, t.finished[j])
    {
      assert FinishedOk(s, s.finished[j]);
    }
  }

  ghost predicate CountersGrow(c: Counters, d: Counters) {
    forall k :: 0 <= k < FIELDS ==> Field(c, k) <= Field(d, k)
  }

  lemma FrameObservers(s: State, t: State)
    requires ObserverInv(s) && t.observers == s.observers && CountersGrow(s.counters, t.counters)
    ensures ObserverInv(t)
  {
    forall j | 0 <= j < |t.observers|
      ensures ObserverOk(t.counters, t.observers[j])
    {
      assert ObserverOk(s.counters, s.observers[j]);
    }
  }

  lemma FrameSubmits(s: State, t: State)
    requires SubmitCounts(s)
    requires t.submitters == s.submitters && t.sent == s.sent
    requires t.counters.enqueued == s.counters.enqueued && t.counters.dropped == s.counters.dropped
    ensures SubmitCounts(t)
  {
  }

  lemma FrameClosers(s: State, t: State)
    requires forall j :: 0 <= j < |s.closers| ==> CloserOk(s, s.closers[j])
    requires t.closers == s.closers && t.closed == s.closed && t.tasksClosed == s.tasksClosed
    requires s.wg == 0 ==> t.wg == 0
    ensures forall j :: 0 <= j < |t.closers| ==> CloserOk(t, t.closers[j])
  {
    forall j | 0 <= j < |t.closers|
      ensures CloserOk(t, t.closers[j])
    {
      assert CloserOk(s, s.closers[j]);
    }
  }

  // ---- Submit ----

  /** A submitter past the check holds the read lock, so the channel is still open. */
  lemma SendIsSafe(s: State, i: nat)
    requires CloseInv(s) && i < |s.submitters| && PastCheck(s.submitters[i])
    ensures !s.closed && !s.tasksClosed
  {
  }

  lemma SubmitSums(cs: seq<Submitter>, i: nat, c: Submitter)
    requires i < |cs|
    ensures SumBy(Uncounted, cs[i := c]) == SumBy(Uncounted, cs) - Uncounted(cs[i]) + Uncounted(c)
    ensures SumBy(GotEnqueued, cs[i := c]) == SumBy(GotEnqueued, cs) - GotEnqueued(cs[i]) + GotEnqueued(c)
    ensures SumBy(GotDropped, cs[i := c]) == SumBy(GotDropped, cs) - GotDropped(cs[i]) + GotDropped(c)
  {
    SumByUpdate(Uncounted, cs, i, c);
    SumByUpdate(GotEnqueued, cs, i, c);
    SumByUpdate(GotDropped, cs, i, c);
  }

  lemma SubmitKeepsLock(s: State, i: nat, a: SubmitAct)
    requires LockInv(s) && SubmitEnabled(s, i, a)
    ensures LockInv(SubmitApply(s, i, a))
  {
  }

  lemma SubmitKeepsClose(s: State, i: nat, a: SubmitAct)
    requires CloseInv(s) && SubmitEnabled(s, i, a)
    ensures CloseInv(SubmitApply(s, i, a))
  {
    if s.submitters[i].pc.SSelect? {
      SendIsSafe(s, i);
    }
    FrameClosers(s, SubmitApply(s, i, a));
  }

  /** The counters and the history move with one submitter, from b to c. */
  predicate SubmitMoves(s: State, t: State, b: Submitter, c: Submitter) {
    && SubmitterOk(c)
    && |t.sent| == |s.sent| + Uncounted(c) - Uncounted(b) + GotEnqueued(c) - GotEnqueued(b)
    && t.counters.enqueued == s.counters.enqueued + GotEnqueued(c) - GotEnqueued(b)
    && t.counters.dropped == s.counters.dropped + GotDropped(c) - GotDropped(b)
  }

  lemma SubmitMovesOne(s: State, i: nat, a: SubmitAct)
    requires SubmitEnabled(s, i, a) && SubmitterOk(s.submitters[i]) && (s.submitters[i].pc.SSelect? ==> !s.tasksClosed)
    ensures var t := SubmitApply(s, i, a);
            && t.submitters == s.submitters[i := t.submitters[i]]
            && SubmitMoves(s, t, s.submitters[i], t.submitters[i])
  {
  }

  lemma SubmitKeepsCounts(s: State, t: State, i: nat, c: Submitter)
    requires SubmitCounts(s) && i < |s.submitters| && t.submitters == s.submitters[i := c]
    requires SubmitMoves(s, t, s.submitters[i], c)
    ensures SubmitCounts(t)
  {
    SubmitSums(s.submitters, i, c);
    forall j | 0 <= j < |t.submitters|
      ensures SubmitterOk(t.submitters[j])
    {
      assert SubmitterOk(s.submitters[j]);
    }
  }

  lemma SubmitKeepsFifo(s: State, i: nat, a: SubmitAct)
    requires FifoInv(s) && SubmitEnabled(s, i, a) && (s.submitters[i].pc.SSelect? ==> !s.tasksClosed)
    ensures FifoInv(SubmitApply(s, i, a))
  {
  }

  lemma SubmitFrame(s: State, i: nat, a: SubmitAct)
    requires SubmitEnabled(s, i, a) && (s.submitters[i].pc.SSelect? ==> !s.tasksClosed)
    ensures var t := SubmitApply(s, i, a);
            && t == s.(submitters := t.submitters, readers := t.readers, queue := t.queue, sent := t.sent,
                       counters := s.counters.(enqueued := t.counters.enqueued, dropped := t.counters.dropped))
            && CountersGrow(s.counters, t.counters)
            && (s.tasksClosed ==> t.queue == s.queue)
  {
  }

  lemma SubmitKeepsInv(s: State, i: nat, a: SubmitAct, t: State)
    requires Inv(s) && SubmitEnabled(s, i, a) && t == SubmitApply(s, i, a)
    ensures Inv(t)
  {
    assert SubmitterOk(s.submitters[i]);
    if s.submitters[i].pc.SSelect? {
      SendIsSafe(s, i);
    }
    SubmitKeepsLock(s, i, a);
    SubmitKeepsClose(s, i, a);
    SubmitKeepsFifo(s, i, a);
    SubmitMovesOne(s, i, a);
    SubmitKeepsCounts(s, t, i, t.submitters[i]);
    SubmitFrame(s, i, a);
    FrameWork(s, t);
    FrameRecords(s, t);
    FrameObservers(s, t);
  }

  // ---- Close ----

  lemma CloseKeepsLock(s: State, i: nat, a: CloseAct)
    requires LockInv(s) && CloseEnabled(s, i, a)
    ensures LockInv(CloseApply(s, i, a))
  {
  }

  lemma CloseKeepsClosers(s: State, i: nat, a: CloseAct)
    requires LockInv(s) && CloseInv(s) && CloseEnabled(s, i, a)
    ensures var t := CloseApply(s, i, a);
            forall j :: 0 <= j < |t.closers| ==> CloserOk(t, t.closers[j])
  {
    var t := CloseApply(s, i, a);
    assert CloserOk(s, s.closers[i]);
    forall j | 0 <= j < |t.closers|
      ensures CloserOk(t, t.closers[j])
    {
      assert CloserOk(s, s.closers[j]);
      assert HoldsWrite(s.closers[j]) <==> s.writer == Some(j);
    }
  }

  lemma CloseKeepsClose(s: State, i: nat, a: CloseAct)
    requires LockInv(s) && CloseInv(s) && CloseEnabled(s, i, a)
    ensures CloseInv(CloseApply(s, i, a))
  {
    var t := CloseApply(s, i, a);
    assert CloserOk(s, s.closers[i]);
    assert HoldsWrite(s.closers[i]) <==> s.writer == Some(i);
    CloseKeepsClosers(s, i, a);
    if s.quit {
      var j :| 0 <= j < |s.closers| && Signalled(s.closers[j]);
      assert Signalled(t.closers[j]);
    } else if t.quit {
      assert Signalled(t.closers[i]);
    }
  }

  lemma CloseFrame(s: State, i: nat, a: CloseAct)
    requires CloseEnabled(s, i, a)
    ensures var t := CloseApply(s, i, a);
            && t == s.(closers := t.closers, pending := t.pending, writer := t.writer,
                       closed := t.closed, tasksClosed := t.tasksClosed,
                       quitOnce := t.quitOnce, quit := t.quit, fault := t.fault)
            && (s.quit ==> t.quit) && (s.tasksClosed ==> t.tasksClosed)
  {
  }

  lemma CloseKeepsInv(s: State, i: nat, a: CloseAct, t: State)
    requires Inv(s) && CloseEnabled(s, i, a) && t == CloseApply(s, i, a)
    ensures Inv(t)
  {
    CloseFrame(s, i, a);
    CloseKeepsLock(s, i, a);
    CloseKeepsClose(s, i, a);
    FrameSubmits(s, t);
    FrameWork(s, t);
    FrameRecords(s, t);
    FrameObservers(s, t);
  }

  // ---- Workers ----

  lemma WorkerSums(ws: seq<Worker>, i: nat, w: Worker)
    requires i < |ws|
    ensures SumBy(Holds, ws[i := w]) == SumBy(Holds, ws) - Holds(ws[i]) + Holds(w)
    ensures SumBy(Alive, ws[i := w]) == SumBy(Alive, ws) - Alive(ws[i]) + Alive(w)
    ensures SumBy(Died, ws[i := w]) == SumBy(Died, ws) - Died(ws[i]) + Died(w)
    ensures SumBy(BetweenRefusalCounts, ws[i := w])
         == SumBy(BetweenRefusalCounts, ws) - BetweenRefusalCounts(ws[i]) + BetweenRefusalCounts(w)
    ensures SumBy(CallsOf, ws[i := w]) == SumBy(CallsOf, ws) - CallsOf(ws[i]) + CallsOf(w)
    ensures SumBy(RetriesOf, ws[i := w]) == SumBy(RetriesOf, ws) - RetriesOf(ws[i]) + RetriesOf(w)
  {
    SumByUpdate(Holds, ws, i, w);
    SumByUpdate(Alive, ws, i, w);
    SumByUpdate(Died, ws, i, w);
    SumByUpdate(BetweenRefusalCounts, ws, i, w);
    SumByUpdate(CallsOf, ws, i, w);
    SumByUpdate(RetriesOf, ws, i, w);
  }

  lemma RecordSums(rs: seq<Record>, r: Record)
    ensures SumBy(Succeeded, rs + [r]) == SumBy(Succeeded, rs) + Succeeded(r)
    ensures SumBy(WasRefused, rs + [r]) == SumBy(WasRefused, rs) + WasRefused(r)
    ensures SumBy(RecordCalls, rs + [r]) == SumBy(RecordCalls, rs) + r.calls
    ensures SumBy(RecordRetries, rs + [r]) == SumBy(RecordRetries, rs) + r.retries
  {
    SumByAppend(Succeeded, rs, r);
    SumByAppend(WasRefused, rs, r);
    SumByAppend(RecordCalls, rs, r);
    SumByAppend(RecordRetries, rs, r);
  }

  /** A live worker is counted by the wait group. */
  lemma LiveWorkerCounted(s: State, i: nat)
    requires WorkCounts(s) && i < |s.workers| && !s.workers[i].Gone?
    ensures s.wg > 0
  {
    SumByTerm(Alive, s.workers, i);
  }

  /** One worker changes, and the counters and the history move with it. */
  lemma WorkCountsUpdate(s: State, t: State, i: nat, w: Worker)
    requires WorkCounts(s) && i < |s.workers| && t.workers == s.workers[i := w] && t.cfg == s.cfg
    requires t.finished == s.finished && t.lost == s.lost
    requires t.counters.processed == s.counters.processed && t.counters.failed == s.counters.failed
    requires var v := s.workers[i];
             && t.counters.predicatesFailed
                == s.counters.predicatesFailed + BetweenRefusalCounts(w) - BetweenRefusalCounts(v)
             && t.counters.retried == s.counters.retried + RetriesOf(w) - RetriesOf(v)
             && t.calls == s.calls + CallsOf(w) - CallsOf(v)
             && |t.received| == |s.received| + Holds(w) - Holds(v)
             && t.wg == s.wg + Alive(w) - Alive(v)
             && Died(w) >= Died(v)
    ensures WorkCounts(t)
  {
    WorkerSums(s.workers, i, w);
  }

  lemma FinishKeepsCounts(s: State, i: nat)
    requires WorkCounts(s) && WorkEnabled(s, i, Finish) && !s.workers[i].phase.outcome.Lost?
    ensures WorkCounts(WorkApply(s, i, Finish))
  {
    WorkerSums(s.workers, i, Reporting);
    RecordSums(s.finished, RecordOf(s.workers[i]));
  }

  lemma PanicKeepsCounts(s: State, i: nat)
    requires WorkCounts(s) && WorkEnabled(s, i, Panic)
    ensures WorkCounts(WorkApply(s, i, Panic))
  {
    WorkerSums(s.workers, i, Unwinding);
    if s.workers[i].Busy? {
      RecordSums(s.lost, RecordOf(s.workers[i]));
    }
  }

  lemma WorkKeepsCounts(s: State, i: nat, a: WorkAct)
    requires WorkCounts(s) && WorkEnabled(s, i, a)
    requires s.workers[i].Busy? && s.workers[i].phase.Ending? ==> !s.workers[i].phase.outcome.Lost?
    ensures WorkCounts(WorkApply(s, i, a))
  {
    if a.Finish? {
      FinishKeepsCounts(s, i);
    } else if a.Panic? {
      PanicKeepsCounts(s, i);
    } else {
      LiveWorkerCounted(s, i);
      WorkCountsUpdate(s, WorkApply(s, i, a), i, WorkApply(s, i, a).workers[i]);
    }
  }

  lemma {:induction false} HeldUpdate(ws: seq<Worker>, i: nat, w: Worker)
    requires i < |ws|
    ensures Held(ws[i := w]) + multiset(HeldBy(ws[i])) == Held(ws) + multiset(HeldBy(w))
  {
    var vs := ws[i := w];
    HeldSplit(ws);
    HeldSplit(vs);
    if i == 0 {
      assert vs[1..] == ws[1..];
      BagSwap(multiset(HeldBy(w)), Held(ws[1..]), multiset(HeldBy(ws[0])));
    } else {
      HeldUpdate(ws[1..], i - 1, w);
      assert vs[1..] == ws[1..][i - 1 := w];
      BagShift(multiset(HeldBy(ws[0])), Held(vs[1..]), Held(ws[1..]), multiset(HeldBy(ws[i])), multiset(HeldBy(w)));
    }
  }

  lemma BagSwap(a: multiset<Task>, b: multiset<Task>, c: multiset<Task>)
    ensures (a + b) + c == (c + b) + a
  {
  }

  lemma BagShift(a: multiset<Task>, x: multiset<Task>, y: multiset<Task>, u: multiset<Task>, v: multiset<Task>)
    requires x + u == y + v
    ensures (a + x) + u == (a + y) + v
  {
    assert (a + x) + u == a + (x + u);
    assert (a + y) + v == a + (y + v);
  }

  lemma HeldSplit(ws: seq<Worker>)
    requires ws != []
    ensures Held(ws) == multiset(HeldBy(ws[0])) + Held(ws[1..])
  {
  }

  lemma TasksAppend(rs: seq<Record>, r: Record)
    ensures Tasks(rs + [r]) == Tasks(rs) + [r.task]
  {
  }

  lemma WorkKeepsFifo(s: State, i: nat, a: WorkAct)
    requires FifoInv(s) && WorkEnabled(s, i, a)
    ensures FifoInv(WorkApply(s, i, a))
  {
  }

  /** The tasks a step moves in and out of the hands of worker i. */
  lemma EachOnceUpdate(s: State, t: State, i: nat, w: Worker)
    requires EachOnce(s) && i < |s.workers| && t.workers == s.workers[i := w]
    requires multiset(t.received) + (multiset(Tasks(s.finished)) + multiset(Tasks(s.lost)))
             + multiset(HeldBy(s.workers[i]))
          == multiset(s.received) + (multiset(Tasks(t.finished)) + multiset(Tasks(t.lost))) + multiset(HeldBy(w))
    ensures EachOnce(t)
  {
    HeldUpdate(s.workers, i, w);
    BagBalance(multiset(s.received), Held(s.workers), multiset(Tasks(s.finished)) + multiset(Tasks(s.lost)),
               multiset(HeldBy(s.workers[i])), multiset(t.received), Held(t.workers),
               multiset(Tasks(t.finished)) + multiset(Tasks(t.lost)), multiset(HeldBy(w)));
  }

  lemma BagBalance(r: multiset<Task>, h: multiset<Task>, e: multiset<Task>, b: multiset<Task>,
                   r': multiset<Task>, h': multiset<Task>, e': multiset<Task>, b': multiset<Task>)
    requires r == h + e && h' + b == h + b' && r' + e + b == r + e' + b'
    ensures r' == h' + e'
  {
    forall x: Task
      ensures r'[x] == (h' + e')[x]
    {
      assert (h' + b)[x] == (h + b')[x];
      assert (r' + e + b)[x] == (r + e' + b')[x];
      assert r[x] == (h + e)[x];
    }
  }

  lemma FinishKeepsEachOnce(s: State, i: nat)
    requires EachOnce(s) && WorkEnabled(s, i, Finish)
    ensures EachOnce(WorkApply(s, i, Finish))
  {
    TasksAppend(s.finished, RecordOf(s.workers[i]));
    EachOnceUpdate(s, WorkApply(s, i, Finish), i, Reporting);
  }

  lemma PanicKeepsEachOnce(s: State, i: nat)
    requires EachOnce(s) && WorkEnabled(s, i, Panic)
    ensures EachOnce(WorkApply(s, i, Panic))
  {
    var w := s.workers[i];
    if w.Busy? {
      LoseKeepsEachOnce(s, WorkApply(s, i, Panic), i, w);
    } else {
      EachOnceUpdate(s, WorkApply(s, i, Panic), i, Unwinding);
    }
  }

  lemma LoseKeepsEachOnce(s: State, t: State, i: nat, w: Worker)
    requires EachOnce(s) && i < |s.workers| && s.workers[i] == w && w.Busy?
    requires t.workers == s.workers[i := Unwinding] && t.received == s.received && t.finished == s.finished
    requires t.lost == s.lost + [RecordOf(w)]
    ensures EachOnce(t)
  {
    TasksAppend(s.lost, RecordOf(w));
    EachOnceUpdate(s, t, i, Unwinding);
  }

  lemma ReceiveKeepsEachOnce(s: State, i: nat)
    requires EachOnce(s) && WorkEnabled(s, i, Receive)
    ensures EachOnce(WorkApply(s, i, Receive))
  {
    var task := s.queue[0];
    EachOnceUpdate(s, WorkApply(s, i, Receive), i, Busy(task, 0, 0, 0, Check));
  }

  lemma SameHands(s: State, w: Worker, a: WorkAct)
    requires !a.Receive? && !a.Finish? && !a.Panic?
    ensures HeldBy(WorkNext(s, w, a)) == HeldBy(w)
  {
  }

  lemma WorkKeepsEachOnce(s: State, i: nat, a: WorkAct)
    requires EachOnce(s) && WorkEnabled(s, i, a)
    ensures EachOnce(WorkApply(s, i, a))
  {
    match a
    case Finish => FinishKeepsEachOnce(s, i);
    case Panic => PanicKeepsEachOnce(s, i);
    case Receive => ReceiveKeepsEachOnce(s, i);
    case _ =>
      SameHands(s, s.workers[i], a);
      EachOnceUpdate(s, WorkApply(s, i, a), i, WorkNext(s, s.workers[i], a));
  }

  lemma FinishKeepsSingle(s: State)
    requires SingleWorkerInv(s) && |s.workers| == 1 && WorkEnabled(s, 0, Finish)
    ensures SingleWorkerInv(WorkApply(s, 0, Finish))
  {
    TasksAppend(s.finished, RecordOf(s.workers[0]));
    assert Tasks(s.lost) == [];
  }

  lemma PanicKeepsSingle(s: State)
    requires SingleWorkerInv(s) && |s.workers| == 1 && WorkEnabled(s, 0, Panic)
    ensures SingleWorkerInv(WorkApply(s, 0, Panic))
  {
    if s.workers[0].Busy? {
      TasksAppend(s.lost, RecordOf(s.workers[0]));
    }
  }

  lemma WorkKeepsSingle(s: State, i: nat, a: WorkAct)
    requires SingleWorkerInv(s) && WorkEnabled(s, i, a)
    ensures SingleWorkerInv(WorkApply(s, i, a))
  {
    if |s.workers| == 1 {
      if a.Finish? {
        FinishKeepsSingle(s);
      } else if a.Panic? {
        PanicKeepsSingle(s);
      }
    }
  }

  lemma BusyNextOk(s: State, i: nat, a: WorkAct)
    requires WorkEnabled(s, i, a) && s.workers[i].Busy? && WorkerOk(s, s.workers[i]) && !a.Finish? && !a.Panic?
    ensures WorkerOk(s, BusyNext(s.cfg, s.workers[i], a))
  {
  }

  lemma WorkKeepsWorkers(s: State, i: nat, a: WorkAct)
    requires RecordsOk(s) && WorkEnabled(s, i, a)
    ensures var t := WorkApply(s, i, a);
            forall j :: 0 <= j < |t.workers| ==> WorkerOk(t, t.workers[j])
  {
    var t := WorkApply(s, i, a);
    assert WorkerOk(s, s.workers[i]);
    if s.workers[i].Busy? && !a.Finish? && !a.Panic? {
      BusyNextOk(s, i, a);
    }
    forall j | 0 <= j < |t.workers|
      ensures WorkerOk(t, t.workers[j])
    {
      assert WorkerOk(s, s.workers[j]);
    }
  }

  lemma WorkKeepsRecords(s: State, i: nat, a: WorkAct)
    requires RecordsOk(s) && WorkEnabled(s, i, a)
    ensures RecordsOk(WorkApply(s, i, a))
  {
    var t := WorkApply(s, i, a);
    var w := s.workers[i];
    assert WorkerOk(s, w);
    WorkKeepsWorkers(s, i, a);
    if a.Panic? && w.Busy? {
      PanicRecordOk(s.cfg, w);
    }
    forall j | 0 <= j < |t.finished|
      ensures FinishedOk(t, t.finished[j])
    {
      if j < |s.finished| {
        assert FinishedOk(s, s.finished[j]);
      }
    }
  }

  lemma PanicRecordOk(cfg: Config, w: Worker)
    requires w.Busy? && MayPanic(cfg, w) && (Bounded(cfg, w.task) ==> AttemptsOk(cfg, w))
    ensures LostOk(cfg, Record(w.task, w.calls, w.retries, Lost))
  {
  }

  lemma WorkFrame(s: State, i: nat, a: WorkAct)
    requires WorkEnabled(s, i, a) && s.wg > 0
    ensures var t := WorkApply(s, i, a);
            && t == s.(workers := t.workers, queue := t.queue, received := t.received, finished := t.finished,
                       lost := t.lost, calls := t.calls, wg := t.wg, counters := t.counters)
            && t.counters.enqueued == s.counters.enqueued && t.counters.dropped == s.counters.dropped
            && CountersGrow(s.counters, t.counters)
  {
  }

  lemma WorkKeepsInv(s: State, i: nat, a: WorkAct, t: State)
    requires Inv(s) && WorkEnabled(s, i, a) && t == WorkApply(s, i, a)
    ensures Inv(t)
  {
    assert WorkerOk(s, s.workers[i]);
    LiveWorkerCounted(s, i);
    WorkFrame(s, i, a);
    WorkKeepsCounts(s, i, a);
    WorkKeepsFifo(s, i, a);
    WorkKeepsEachOnce(s, i, a);
    WorkKeepsSingle(s, i, a);
    WorkKeepsRecords(s, i, a);
    FrameSubmits(s, t);
    FrameClosers(s, t);
    FrameObservers(s, t);
  }

  // ---- External steps and snapshots ----

  lemma NewSubmitKeepsCounts(s: State, t: State, c: Submitter)
    requires SubmitCounts(s) && c.pc.SStart?
    requires t == s.(submitters := s.submitters + [c])
    ensures SubmitCounts(t)
  {
    SumByAppend(Uncounted, s.submitters, c);
    SumByAppend(GotEnqueued, s.submitters, c);
    SumByAppend(GotDropped, s.submitters, c);
    forall j | 0 <= j < |t.submitters|
      ensures SubmitterOk(t.submitters[j])
    {
      if j < |s.submitters| {
        assert SubmitterOk(s.submitters[j]);
      }
    }
  }

  /** Steps that touch the submitters only, and no lock or counter. */
  lemma SubmittersOnly(s: State, t: State)
    requires Inv(s) && t == s.(submitters := t.submitters) && SubmitCounts(t)
    requires |s.submitters| <= |t.submitters|
    requires forall j :: 0 <= j < |s.submitters| ==> t.submitters[j].pc == s.submitters[j].pc
    requires forall j :: |s.submitters| <= j < |t.submitters| ==> t.submitters[j].pc.SStart?
    ensures Inv(t)
  {
    FrameClosers(s, t);
    FrameWork(s, t);
    FrameRecords(s, t);
    FrameObservers(s, t);
  }

  lemma CancelSubmitKeepsCounts(s: State, i: nat)
    requires SubmitCounts(s) && i < |s.submitters|
    ensures SubmitCounts(Apply(s, CancelSubmit(i)))
  {
    assert SubmitterOk(s.submitters[i]);
    SubmitKeepsCounts(s, Apply(s, CancelSubmit(i)), i, s.submitters[i].(ctxDone := true));
  }

  /** Steps that touch the closers only: a new Close call, a cancelled ctx. */
  lemma ClosersOnly(s: State, t: State)
    requires Inv(s) && t == s.(closers := t.closers)
    requires |s.closers| <= |t.closers|
    requires forall j :: 0 <= j < |s.closers| ==> t.closers[j] == s.closers[j].(ctxDone := t.closers[j].ctxDone)
    requires forall j :: |s.closers| <= j < |t.closers| ==> t.closers[j].pc.CStart? && t.closers[j].waiter.NotStarted?
    ensures Inv(t)
  {
    forall j | 0 <= j < |t.closers|
      ensures CloserOk(t, t.closers[j])
    {
      if j < |s.closers| {
        assert CloserOk(s, s.closers[j]);
      }
    }
    if s.quit {
      var j :| 0 <= j < |s.closers| && Signalled(s.closers[j]);
      assert Signalled(t.closers[j]);
    }
    FrameSubmits(s, t);
    FrameWork(s, t);
    FrameRecords(s, t);
    FrameObservers(s, t);
  }

  lemma ObserveKeepsObservers(s: State, a: Step)
    requires ObserverInv(s) && Enabled(s, a) && (a.NewStats? || a.Load?)
    ensures ObserverInv(Apply(s, a))
  {
    var t := Apply(s, a);
    forall j | 0 <= j < |t.observers|
      ensures ObserverOk(t.counters, t.observers[j])
    {
      if j < |s.observers| {
        assert ObserverOk(s.counters, s.observers[j]);
      }
    }
  }

  lemma ObserversOnly(s: State, t: State)
    requires Inv(s) && t == s.(observers := t.observers) && ObserverInv(t)
    ensures Inv(t)
  {
    FrameClosers(s, t);
    FrameSubmits(s, t);
    FrameWork(s, t);
    FrameRecords(s, t);
  }

  lemma SubmitterListKeepsInv(s: State, a: Step)
    requires Inv(s) && Enabled(s, a) && (a.NewSubmit? || a.CancelSubmit?)
    ensures Inv(Apply(s, a))
  {
    var t := Apply(s, a);
    match a
    case NewSubmit(kind, task, nilCtx, nilJob) =>
      NewSubmitKeepsCounts(s, t, Submitter(kind, task, nilCtx, nilJob, false, SStart));
      SubmittersOnly(s, t);
    case CancelSubmit(i) =>
      CancelSubmitKeepsCounts(s, i);
      SubmittersOnly(s, t);
  }

  /** New calls, cancelled contexts and loads of the counters. */
  lemma OutsideKeepsInv(s: State, a: Step, t: State)
    requires Inv(s) && Enabled(s, a) && (External(a) || a.Load?) && t == Apply(s, a)
    ensures Inv(t)
  {
    if a.NewSubmit? || a.CancelSubmit? {
      SubmitterListKeepsInv(s, a);
    } else if a.NewClose? || a.CancelClose? {
      ClosersOnly(s, t);
    } else {
      ObserveKeepsObservers(s, a);
      ObserversOnly(s, t);
    }
  }

  /** One step of any actor keeps the invariant. */
  lemma StepKeepsInv(s: State, a: Step)
    requires Inv(s) && Enabled(s, a)
    ensures Inv(Apply(s, a))
  {
    match a
    case SubmitStep(i, act) => SubmitKeepsInv(s, i, act, Apply(s, a));
    case CloseStep(i, act) => CloseKeepsInv(s, i, act, Apply(s, a));
    case WorkStep(i, act) => WorkKeepsInv(s, i, act, Apply(s, a));
    case _ => OutsideKeepsInv(s, a, Apply(s, a));
  }

  lemma StepKeepsConfig(s: State, a: Step)
    requires Enabled(s, a)
    ensures Apply(s, a).cfg == s.cfg
  {
  }

  /** ... so every run keeps it ... */
  lemma {:induction false} RunsKeepInv(s: State, steps: seq<Step>, t: State)
    requires Inv(s) && Runs(s, steps, t)
    ensures Inv(t) && t.cfg == s.cfg
    decreases |steps|
  {
    if steps != [] {
      StepKeepsInv(s, steps[0]);
      StepKeepsConfig(s, steps[0]);
      RunsKeepInv(Apply(s, steps[0]), steps[1..], t);
    }
  }

  /** ... and it holds in every state a new dispatcher can reach. */
  lemma ReachableInv(cfg: Config, steps: seq<Step>, t: State)
    requires cfg.Valid() && Runs(Init(cfg), steps, t)
    ensures Inv(t) && t.cfg == cfg && |t.workers| == cfg.workerCount
  {
    InitInv(cfg);
    RunsKeepInv(Init(cfg), steps, t);
  }
}
