/** The collector of stats/stats.go: six 64-bit counters, each incremented atomically. How
    loads interleave with increments is in Dispatcher; here is the object itself. */
module Stats {
  import opened GoInts

  datatype Snapshot = Snapshot(
    enqueued: UInt64, processed: UInt64, failed: UInt64, retried: UInt64, dropped: UInt64, predicatesFailed: UInt64)

  class Collector {
    var enqueued: UInt64
    var processed: UInt64
    var failed: UInt64
    var retried: UInt64
    var dropped: UInt64
    var predicatesFailed: UInt64

    function Counts(): Snapshot
      reads this
    {
      Snapshot(enqueued, processed, failed, retried, dropped, predicatesFailed)
    }

    constructor ()
      ensures Counts() == Snapshot(0, 0, 0, 0, 0, 0)
    {
      enqueued, processed, failed, retried, dropped, predicatesFailed := 0, 0, 0, 0, 0, 0;
    }

    method IncEnqueued()
      modifies this
      ensures Counts() == old(Counts()).(enqueued := Plus(old(enqueued), 1))
    {
      enqueued := Plus(enqueued, 1);
    }

    method IncProcessed()
      modifies this
      ensures Counts() == old(Counts()).(processed := Plus(old(processed), 1))
    {
      processed := Plus(processed, 1);
    }

    method IncFailed()
      modifies this
      ensures Counts() == old(Counts()).(failed := Plus(old(failed), 1))
    {
      failed := Plus(failed, 1);
    }

    method IncRetried()
      modifies this
      ensures Counts() == old(Counts()).(retried := Plus(old(retried), 1))
    {
      retried := Plus(retried, 1);
    }

    method IncDropped()
      modifies this
      ensures Counts() == old(Counts()).(dropped := Plus(old(dropped), 1))
    {
      dropped := Plus(dropped, 1);
    }

    method IncRetryPredicatesFailed()
      modifies this
      ensures Counts() == old(Counts()).(predicatesFailed := Plus(old(predicatesFailed), 1))
    {
      predicatesFailed := Plus(predicatesFailed, 1);
    }

    /** With no increment in between, the six loads are the state. */
    method TakeSnapshot() returns (s: Snapshot)
      ensures s == Counts()
    {
      s := Snapshot(enqueued, processed, failed, retried, dropped, predicatesFailed);
    }
  }
}
