/** What each MemoryStore call answers and leaves behind, in terms of the records' own fields. */
module StoreAnswers {
  import opened GoInts
  import opened Wrappers
  import opened Records
  import opened StoreModel
  import opened StoreHistory

  // ---- Errors ----

  /** The error of a call, if any: the ctx first, then a negative lease, then the closed store;
      an ID that exists already, one that does not exist, no pending record, another version. */
  ghost predicate Fails(s: State, op: Op, ctxDone: bool, error: Error) {
    match error
    case CtxDone => ctxDone
    case NegativeLease => !ctxDone && op.Requeue? && op.lease < 0
    case StoreClosed => !ctxDone && s.closed && !op.Close? && !(op.Requeue? && op.lease < 0)
    case AlreadyExists => !ctxDone && !s.closed && op.Save? && op.rec.id in s.records
    case NotFound =>
      && !ctxDone && !s.closed
      && (match op
          case Get(id) => id !in s.records
          case Delete(id) => id !in s.records
          case Update(rec) => rec.id !in s.records
          case Claim(_) => forall id <- s.records :: !s.records[id].status.Pending?
          case _ => false)
    case Conflict =>
      !ctxDone && !s.closed && op.Update? && op.rec.id in s.records && s.records[op.rec.id].version != op.rec.version
  }

  /** A call is refused with an error if and only if it has that cause, and then changes nothing. */
  lemma RefusedIff(s: State, c: Request, error: Error)
    requires Valid(s.records)
    ensures Answer(s, c) == Refused(error) <==> Fails(s, c.op, c.ctxDone, error)
    ensures Fails(s, c.op, c.ctxDone, error) ==> Then(s, c) == s
  {
    if c.op.Claim? {
      var pending := WithStatus(s.records, Pending);
      assert (pending == {}) <==> forall id <- s.records :: id !in pending;
    }
  }

  // ---- Effects ----

  /** A saved record is stored as passed, but pending if it had no status, with version 1 if it
      had none, and with no payload if it had an empty one; nothing else changes. */
  lemma SaveStores(s: State, rec: Rec, t: State)
    requires Valid(s.records) && Answer(s, Request(Save(rec), false)) == Done
    requires t == Then(s, Request(Save(rec), false))
    ensures t == s.(records := s.records[rec.id := t.records[rec.id]]) && rec.id !in s.records
    ensures var r := t.records[rec.id];
            && r.id == rec.id && r.name == rec.name && r.attempts == rec.attempts && r.createdAt == rec.createdAt
            && r.startedAt == rec.startedAt && r.finishedAt == rec.finishedAt
            && r.status == (if rec.status == Unset then Pending else rec.status)
            && r.version == (if rec.version == 0 then 1 else rec.version)
            && SamePayload(r, rec)
  {
  }

  /** An updated record is stored as passed, with the next version; nothing else changes. */
  lemma UpdateStores(s: State, rec: Rec, t: State)
    requires Valid(s.records) && Answer(s, Request(Update(rec), false)) == Done
    requires t == Then(s, Request(Update(rec), false))
    ensures rec.id in t.records && t == s.(records := s.records[rec.id := t.records[rec.id]])
    ensures var r := t.records[rec.id];
            && r.id == rec.id && r.name == rec.name && r.attempts == rec.attempts && r.createdAt == rec.createdAt
            && r.startedAt == rec.startedAt && r.finishedAt == rec.finishedAt && r.status == rec.status
            && (r.version == rec.version + 1 || (rec.version == MAX_INT && r.version == -TWO_63))
            && SamePayload(r, rec)
  {
  }

  /** The same bytes: an empty payload is read back as none. */
  predicate SamePayload(r: Rec, rec: Rec) {
    match rec.payload
    case None => r.payload == None
    case Some(bytes) => r.payload == if |bytes| == 0 then None else Some(bytes)
  }

  /** After a Delete the ID is not found until it is saved again, and all others are as before. */
  lemma DeleteRemoves(s: State, id: ID, t: State, cs: seq<Request>)
    requires Valid(s.records) && Answer(s, Request(Delete(id), false)) == Done
    requires t == Then(s, Request(Delete(id), false))
    requires forall k :: 0 <= k < |cs| ==> !Saves(At(t, cs, k), cs[k], id)
    requires !After(t, cs).closed
    ensures forall j :: j in t.records <==> j in s.records && j != id
    ensures forall j <- t.records :: t.records[j] == s.records[j]
    ensures Answer(After(t, cs), Request(Get(id), false)) == Refused(NotFound)
    ensures Answer(After(t, cs), Request(Delete(id), false)) == Refused(NotFound)
  {
    StaysAway(t, cs, id);
  }

  lemma {:induction false} StaysAway(s: State, cs: seq<Request>, id: ID)
    requires Valid(s.records) && id !in s.records
    requires forall k :: 0 <= k < |cs| ==> !Saves(At(s, cs, k), cs[k], id)
    ensures id !in After(s, cs).records
    decreases |cs|
  {
    if cs != [] {
      var n := |cs| - 1;
      forall k | 0 <= k < n
        ensures !Saves(At(s, cs[..n], k), cs[..n][k], id)
      {
        AtPrefix(s, cs, n, k);
      }
      StaysAway(s, cs[..n], id);
      StaysAwayStep(At(s, cs, n), cs[n], id);
    }
  }

  lemma StaysAwayStep(s: State, c: Request, id: ID)
    requires Valid(s.records) && id !in s.records && !Saves(s, c, id)
    ensures id !in Then(s, c).records
  {
  }

  /** After a Close with a live ctx, whatever follows, every call but Close is refused: with
      ErrStoreClosed if its own ctx is live and its lease not negative. */
  lemma ClosedRefuses(s: State, cs: seq<Request>, c: Request)
    requires Valid(s.records) && !c.op.Close?
    ensures var t := Then(s, Request(Close, false));
            && Answer(s, Request(Close, false)) == Done && t.closed && t.records == s.records
            && Answer(After(t, cs), c).Refused?
            && (!c.ctxDone && !(c.op.Requeue? && c.op.lease < 0) ==> Answer(After(t, cs), c) == Refused(StoreClosed))
  {
    ClosedForever(Then(s, Request(Close, false)), cs, c);
  }

  // ---- List ----

  /** What List returns: records of the store, of the wanted status if one is given, created
      earlier or at the same time with the smaller ID first; all of them without a limit, and
      otherwise as many as the limit allows, from the first on. */
  lemma ListAnswers(s: State, filter: Filter)
    requires Valid(s.records) && !s.closed
    ensures Answer(s, Request(List(filter), false)).Listed?
    ensures var rs := Answer(s, Request(List(filter), false)).recs;
            && (forall i, j :: 0 <= i < j < |rs| ==> Earlier(rs[i], rs[j]))
            && (forall r <- rs :: r.id in s.records && s.records[r.id] == r && Wanted(r, filter))
            && (filter.limit <= 0 ==> forall id <- s.records :: Wanted(s.records[id], filter) ==> s.records[id] in rs)
            && (filter.limit > 0 ==>
                  && |rs| <= filter.limit
                  && forall id <- s.records :: Wanted(s.records[id], filter) ==>
                       s.records[id] in rs || (|rs| == filter.limit && forall r <- rs :: Earlier(r, s.records[id])))
  {
    var m := s.records;
    var all := InOrder(m, Matching(m, filter.status));
    InOrderSorted(m, Matching(m, filter.status));
    SortedIsEarlier(all);
    var rs := Cut(all, filter.limit);
    assert forall r <- rs :: r in all;
    forall id | id in m && Wanted(m[id], filter)
      ensures m[id] in rs || (0 < filter.limit == |rs| && forall r <- rs :: Earlier(r, m[id]))
    {
      assert id in Matching(m, filter.status);
      CutOrLater(all, filter.limit, m[id]);
    }
  }

  lemma CutOrLater(all: seq<Rec>, limit: Int64, r: Rec)
    requires r in all && forall i, j :: 0 <= i < j < |all| ==> Earlier(all[i], all[j])
    ensures var rs := Cut(all, limit);
            r in rs || (0 < limit == |rs| && forall x <- rs :: Earlier(x, r))
  {
    var rs := Cut(all, limit);
    var k :| 0 <= k < |all| && all[k] == r;
    if k < |rs| {
      assert rs[k] == r;
    } else {
      forall x | x in rs
        ensures Earlier(x, r)
      {
        var l :| 0 <= l < |rs| && rs[l] == x;
        assert Earlier(all[l], all[k]);
      }
    }
  }

  predicate Wanted(r: Rec, filter: Filter) {
    match filter.status
    case None => true
    case Some(status) => r.status == status
  }
}
