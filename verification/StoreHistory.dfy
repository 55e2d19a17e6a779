/** Theorems about MemoryStore over whole histories of calls. */
module StoreHistory {
  import opened GoInts
  import opened Wrappers
  import opened Records
  import opened StoreModel

  datatype Request = Request(op: Op, ctxDone: bool)

  ghost function Answer(s: State, c: Request): Response
    requires Valid(s.records)
  {
    Call(s, c.op, c.ctxDone).1
  }

  ghost function Then(s: State, c: Request): (t: State)
    requires Valid(s.records)
    ensures Valid(t.records)
  {
    CallKeepsValid(s, c.op, c.ctxDone);
    Call(s, c.op, c.ctxDone).0
  }

  /** The state after a history of calls. */
  ghost function After(s: State, cs: seq<Request>): (t: State)
    requires Valid(s.records)
    ensures Valid(t.records)
    decreases |cs|
  {
    if cs == [] then s else Then(After(s, cs[..|cs| - 1]), cs[|cs| - 1])
  }

  /** The state in which call k is made. */
  ghost function At(s: State, cs: seq<Request>, k: nat): (t: State)
    requires Valid(s.records) && k <= |cs|
    ensures Valid(t.records)
  {
    After(s, cs[..k])
  }

  lemma AtPrefix(s: State, cs: seq<Request>, n: nat, k: nat)
    requires Valid(s.records) && k <= n <= |cs|
    ensures At(s, cs[..n], k) == At(s, cs, k)
  {
    assert cs[..n][..k] == cs[..k];
  }

  // ---- Listing ----

  /** InOrder is sorted and has exactly the chosen records. */
  lemma {:induction false} InOrderSorted(m: map<ID, Rec>, ids: set<ID>)
    requires Valid(m) && ids <= m.Keys
    ensures Sorted(InOrder(m, ids))
    ensures forall r: Rec :: r in InOrder(m, ids) <==> r.id in ids && m[r.id] == r
    decreases |ids|
  {
    if ids != {} {
      var id := First(m, ids);
      var rest := InOrder(m, ids - {id});
      InOrderSorted(m, ids - {id});
      assert InOrder(m, ids) == [m[id]] + rest;
      forall r: Rec
        ensures r in InOrder(m, ids) <==> r.id in ids && m[r.id] == r
      {
        assert r in InOrder(m, ids) <==> r == m[id] || r in rest;
      }
      forall j | 0 <= j < |rest|
        ensures Before(m[id], rest[j])
      {
        assert rest[j] in rest;
      }
    }
  }

  /** List returns the one sorted sequence of the matching records, cut to its limit: any
      sorted sequence with the same elements is the same sequence. */
  lemma ListIsUnique(m: map<ID, Rec>, filter: Filter, rs: seq<Rec>)
    requires Valid(m) && Sorted(rs)
    requires forall r: Rec :: r in rs <==> r.id in Matching(m, filter.status) && m[r.id] == r
    ensures Respond(m, List(filter)) == (m, Listed(Cut(rs, filter.limit)))
    ensures forall i, j :: 0 <= i < j < |rs| ==> Earlier(rs[i], rs[j])
  {
    InOrderSorted(m, Matching(m, filter.status));
    SortedUnique(rs, InOrder(m, Matching(m, filter.status)));
    SortedIsEarlier(rs);
  }

  lemma SortedIsEarlier(rs: seq<Rec>)
    ensures Sorted(rs) <==> forall i, j :: 0 <= i < j < |rs| ==> Earlier(rs[i], rs[j])
  {
    forall i, j | 0 <= i < j < |rs|
      ensures Before(rs[i], rs[j]) <==> Earlier(rs[i], rs[j])
    {
      BeforeIff(rs[i], rs[j]);
    }
  }

  // ---- Claiming ----

  lemma {:induction false} InOrderFrame(m: map<ID, Rec>, m': map<ID, Rec>, ids: set<ID>)
    requires Valid(m) && Valid(m') && ids <= m.Keys && ids <= m'.Keys
    requires forall id <- ids :: m[id] == m'[id]
    ensures InOrder(m, ids) == InOrder(m', ids)
    decreases |ids|
  {
    if ids != {} {
      assert IsFirst(m, ids, First(m', ids));
      FirstUnique(m, ids, First(m, ids), First(m', ids));
      InOrderFrame(m, m', ids - {First(m, ids)});
    }
  }

  /** What consecutive Claims return, until one finds nothing. */
  ghost function ClaimAll(m: map<ID, Rec>, nows: seq<Time>): seq<Rec>
    requires Valid(m)
    decreases |nows|
  {
    if nows == [] then []
    else
      CallKeepsValid(State(m, false), Claim(nows[0]), false);
      var (m', r) := Respond(m, Claim(nows[0]));
      if r.Found? then [r.rec] + ClaimAll(m', nows[1..]) else []
  }

  /** A Claim takes the head of the pending list and leaves its tail. */
  lemma ClaimTakesHead(m: map<ID, Rec>, now: Time)
    requires Valid(m) && WithStatus(m, Pending) != {}
    ensures var (m', r) := Respond(m, Claim(now));
            && Valid(m') && r.Found?
            && InOrder(m, WithStatus(m, Pending)) == [m[r.rec.id]] + InOrder(m', WithStatus(m', Pending))
            && r.rec == Claimed(m[r.rec.id], now)
  {
    var pending := WithStatus(m, Pending);
    var id := First(m, pending);
    var m' := m[id := Claimed(m[id], now)];
    CallKeepsValid(State(m, false), Claim(now), false);
    assert WithStatus(m', Pending) == pending - {id};
    InOrderFrame(m, m', pending - {id});
  }

  /** Consecutive Claims return the pending records in the order of List, each once, whatever
      the clock reads, and then nothing. */
  lemma {:induction false} ClaimsDrainInListOrder(m: map<ID, Rec>, nows: seq<Time>)
    requires Valid(m)
    ensures var order, claims := InOrder(m, WithStatus(m, Pending)), ClaimAll(m, nows);
            && |claims| == (if |nows| <= |order| then |nows| else |order|)
            && forall k :: 0 <= k < |claims| ==> claims[k] == Claimed(order[k], nows[k])
    decreases |nows|
  {
    if nows != [] && WithStatus(m, Pending) != {} {
      ClaimTakesHead(m, nows[0]);
      var (m', r) := Respond(m, Claim(nows[0]));
      ClaimsDrainInListOrder(m', nows[1..]);
      Prepend(m[r.rec.id], InOrder(m', WithStatus(m', Pending)), ClaimAll(m', nows[1..]), nows);
    }
  }

  lemma Prepend(head: Rec, order: seq<Rec>, claims: seq<Rec>, nows: seq<Time>)
    requires nows != [] && |claims| <= |order| && |claims| <= |nows[1..]|
    requires forall k :: 0 <= k < |claims| ==> claims[k] == Claimed(order[k], nows[1..][k])
    ensures var order', claims' := [head] + order, [Claimed(head, nows[0])] + claims;
            forall k :: 0 <= k < |claims'| ==> claims'[k] == Claimed(order'[k], nows[k])
  {
  }

  /** ... so the first k claims are exactly List(pending, limit k), claimed. */
  lemma ClaimsMatchList(m: map<ID, Rec>, nows: seq<Time>)
    requires Valid(m) && 0 < |nows| < TWO_63
    ensures var listed := Respond(m, List(Filter(Some(Pending), |nows|))).1.recs;
            && |ClaimAll(m, nows)| == |listed|
            && forall k :: 0 <= k < |listed| ==> ClaimAll(m, nows)[k] == Claimed(listed[k], nows[k])
  {
    ClaimsDrainInListOrder(m, nows);
  }

  // ---- Versions ----

  /** The call changed the record of that ID in place. */
  ghost predicate Mutates(s: State, c: Request, id: ID)
    requires Valid(s.records)
  {
    !Answer(s, c).Refused? &&
    match c.op
    case Claim(_) => Answer(s, c).rec.id == id
    case Update(rec) => rec.id == id
    case Requeue(now, lease) => id in Stale(s.records, now - lease)
    case _ => false
  }

  ghost predicate Deletes(s: State, c: Request, id: ID)
    requires Valid(s.records)
  {
    c.op == Delete(id) && Answer(s, c) == Done
  }

  /** How often a history changes the record. */
  ghost function Mutations(s: State, cs: seq<Request>, id: ID): (n: nat)
    requires Valid(s.records)
    ensures n <= |cs|
    decreases |cs|
  {
    if cs == [] then 0
    else
      var k := |cs| - 1;
      Mutations(s, cs[..k], id) + if Mutates(At(s, cs, k), cs[k], id) then 1 else 0
  }

  ghost predicate NeverDeleted(s: State, cs: seq<Request>, id: ID)
    requires Valid(s.records)
  {
    forall k :: 0 <= k < |cs| ==> !Deletes(At(s, cs, k), cs[k], id)
  }

  lemma NeverDeletedPrefix(s: State, cs: seq<Request>, n: nat, id: ID)
    requires Valid(s.records) && n < |cs| && NeverDeleted(s, cs, id)
    ensures NeverDeleted(s, cs[..n], id) && !Deletes(At(s, cs, n), cs[n], id)
  {
    forall k | 0 <= k < n
      ensures !Deletes(At(s, cs[..n], k), cs[..n][k], id)
    {
      AtPrefix(s, cs, n, k);
    }
  }

  /** One call moves the version by one if it changed the record, and not otherwise. */
  lemma VersionStep(s: State, c: Request, id: ID)
    requires Valid(s.records) && id in s.records && !Deletes(s, c, id)
    ensures id in Then(s, c).records
    ensures Then(s, c).records[id].version
         == if Mutates(s, c, id) then NextVersion(s.records[id].version) else s.records[id].version
    ensures !Mutates(s, c, id) ==> Then(s, c).records[id] == s.records[id]
  {
  }

  /** The record's version is `start`'s after n increments, and the record is `start` if n is 0. */
  ghost predicate Aged(t: State, id: ID, start: Rec, n: nat) {
    && id in t.records
    && t.records[id].version == Increments(start.version, n)
    && (n == 0 ==> t.records[id] == start)
  }

  lemma VersionStepFrom(u: State, c: Request, id: ID, start: Rec, n: nat)
    requires Valid(u.records) && Aged(u, id, start, n) && !Deletes(u, c, id)
    ensures Aged(Then(u, c), id, start, n + if Mutates(u, c, id) then 1 else 0)
  {
    VersionStep(u, c, id);
  }

  lemma {:induction false} HistoryAges(s: State, cs: seq<Request>, id: ID)
    requires Valid(s.records) && id in s.records && NeverDeleted(s, cs, id)
    ensures Aged(After(s, cs), id, s.records[id], Mutations(s, cs, id))
    decreases |cs|
  {
    if cs != [] {
      var k := |cs| - 1;
      NeverDeletedPrefix(s, cs, k, id);
      HistoryAges(s, cs[..k], id);
      VersionStepFrom(At(s, cs, k), cs[k], id, s.records[id], Mutations(s, cs[..k], id));
    }
  }

  /** Over any history that does not delete the record, its version is the starting one after
      as many increments as the record was changed. */
  lemma VersionCountsMutations(s: State, cs: seq<Request>, id: ID)
    requires Valid(s.records) && id in s.records && NeverDeleted(s, cs, id)
    ensures id in After(s, cs).records
    ensures After(s, cs).records[id].version == Increments(s.records[id].version, Mutations(s, cs, id))
    ensures Mutations(s, cs, id) == 0 ==> After(s, cs).records[id] == s.records[id]
  {
    HistoryAges(s, cs, id);
  }

  /** Fencing: an Update that presents the version a record had at some point succeeds later
      if and only if the number of changes since is a multiple of 2^64 - in practice, zero. */
  lemma Fencing(s: State, cs: seq<Request>, rec: Rec)
    requires Valid(s.records) && rec.id in s.records && s.records[rec.id].version == rec.version
    requires NeverDeleted(s, cs, rec.id) && !After(s, cs).closed
    ensures Answer(After(s, cs), Request(Update(rec), false))
         == if Mutations(s, cs, rec.id) % TWO_64 == 0 then Done else Refused(Conflict)
  {
    VersionCountsMutations(s, cs, rec.id);
    IncrementsReturn(rec.version, Mutations(s, cs, rec.id));
  }

  /** No lost update: of two Updates that present the same version of the same ID, not both
      succeed, whatever fewer than 2^64 - 1 calls come in between without deleting the ID. */
  lemma NoLostUpdate(s: State, first: Rec, cs: seq<Request>, second: Rec, t: State)
    requires Valid(s.records) && first.id == second.id && first.version == second.version
    requires Answer(s, Request(Update(first), false)) == Done && t == Then(s, Request(Update(first), false))
    requires NeverDeleted(t, cs, first.id) && |cs| + 1 < TWO_64
    ensures Answer(After(t, cs), Request(Update(second), false)) != Done
  {
    UpdateAdvances(s, first, t);
    VersionCountsMutations(t, cs, first.id);
    NeverBack(first.version, Mutations(t, cs, first.id));
    ConflictOnOtherVersion(After(t, cs), second);
  }

  lemma NeverBack(v: Int64, n: nat)
    requires n + 1 < TWO_64
    ensures Increments(NextVersion(v), n) != v
  {
    IncrementsShift(v, n);
    IncrementsReturn(v, n + 1);
    SmallRemainder(n + 1);
  }

  lemma UpdateAdvances(s: State, rec: Rec, t: State)
    requires Valid(s.records) && Answer(s, Request(Update(rec), false)) == Done
    requires t == Then(s, Request(Update(rec), false))
    ensures rec.id in t.records && t.records[rec.id].version == NextVersion(rec.version)
  {
  }

  lemma ConflictOnOtherVersion(s: State, rec: Rec)
    requires Valid(s.records) && rec.id in s.records && s.records[rec.id].version != rec.version
    ensures Answer(s, Request(Update(rec), false)) != Done
  {
  }

  lemma SmallRemainder(n: nat)
    requires 0 < n < TWO_64
    ensures n % TWO_64 != 0
  {
  }

  /** An expired claimant is refused: once RequeueStale has run on the record, the version its
      claim returned no longer opens it, for fewer than 2^64 calls. */
  lemma ExpiredClaimIsFenced(s: State, cs: seq<Request>, k: nat, rec: Rec)
    requires Valid(s.records) && rec.id in s.records && s.records[rec.id].version == rec.version
    requires NeverDeleted(s, cs, rec.id) && !After(s, cs).closed && |cs| < TWO_64
    requires k < |cs| && cs[k].op.Requeue? && Mutates(At(s, cs, k), cs[k], rec.id)
    ensures Answer(After(s, cs), Request(Update(rec), false)) == Refused(Conflict)
  {
    Fencing(s, cs, rec);
    MutationsCount(s, cs, k, rec.id);
    SmallRemainder(Mutations(s, cs, rec.id));
  }

  lemma {:induction false} MutationsCount(s: State, cs: seq<Request>, k: nat, id: ID)
    requires Valid(s.records) && k < |cs| && Mutates(At(s, cs, k), cs[k], id)
    ensures Mutations(s, cs, id) >= 1
    decreases |cs|
  {
    var last := |cs| - 1;
    if k < last {
      AtPrefix(s, cs, last, k);
      MutationsCount(s, cs[..last], k, id);
    }
  }

  /** Why the ID must not be deleted: a new record under an old ID starts again at version 1,
      and an Update read from the old record then overwrites the new one. */
  lemma DeleteAndSaveDefeatFencing(s: State, old': Rec, new': Rec)
    requires Valid(s.records) && !s.closed
    requires old'.id in s.records && s.records[old'.id].version == old'.version == 1
    requires new'.id == old'.id && new'.version == 0
    ensures var t := After(s, [Request(Delete(old'.id), false), Request(Save(new'), false)]);
            Answer(t, Request(Update(old'), false)) == Done
  {
    var cs := [Request(Delete(old'.id), false), Request(Save(new'), false)];
    assert cs[..1] == [Request(Delete(old'.id), false)];
    assert cs[..1][..0] == [];
    assert After(s, cs[..1]) == Then(s, cs[0]);
    assert After(s, cs) == Then(After(s, cs[..1]), cs[1]);
  }

  // ---- Attempts ----

  ghost predicate Takes(s: State, c: Request, id: ID)
    requires Valid(s.records)
  {
    c.op.Claim? && Mutates(s, c, id)
  }

  /** How often a history claims the record. */
  ghost function Takings(s: State, cs: seq<Request>, id: ID): (n: nat)
    requires Valid(s.records)
    ensures n <= |cs|
    decreases |cs|
  {
    if cs == [] then 0
    else
      var k := |cs| - 1;
      Takings(s, cs[..k], id) + if Takes(At(s, cs, k), cs[k], id) then 1 else 0
  }

  ghost predicate Rewrites(s: State, c: Request, id: ID)
    requires Valid(s.records)
  {
    Deletes(s, c, id) || (c.op.Update? && Mutates(s, c, id))
  }

  ghost predicate NeverRewritten(s: State, cs: seq<Request>, id: ID)
    requires Valid(s.records)
  {
    forall k :: 0 <= k < |cs| ==> !Rewrites(At(s, cs, k), cs[k], id)
  }

  lemma AttemptsStep(s: State, c: Request, id: ID)
    requires Valid(s.records) && id in s.records && !Rewrites(s, c, id)
    ensures id in Then(s, c).records
    ensures Then(s, c).records[id].attempts == Plus(s.records[id].attempts, if Takes(s, c, id) then 1 else 0)
  {
  }

  lemma NeverRewrittenPrefix(s: State, cs: seq<Request>, n: nat, id: ID)
    requires Valid(s.records) && n < |cs| && NeverRewritten(s, cs, id)
    ensures NeverRewritten(s, cs[..n], id) && !Rewrites(At(s, cs, n), cs[n], id)
  {
    forall k | 0 <= k < n
      ensures !Rewrites(At(s, cs[..n], k), cs[..n][k], id)
    {
      AtPrefix(s, cs, n, k);
    }
  }

  /** Unless an Update overwrites it, Attempts counts the claims of the record, however often
      it is requeued in between. */
  lemma {:induction false} AttemptsCountClaims(s: State, cs: seq<Request>, id: ID)
    requires Valid(s.records) && id in s.records && NeverRewritten(s, cs, id)
    ensures id in After(s, cs).records
    ensures After(s, cs).records[id].attempts == Plus(s.records[id].attempts, Takings(s, cs, id))
    decreases |cs|
  {
    if cs != [] {
      var k := |cs| - 1;
      NeverRewrittenPrefix(s, cs, k, id);
      AttemptsCountClaims(s, cs[..k], id);
      AttemptsStep(At(s, cs, k), cs[k], id);
      PlusPlus(s.records[id].attempts, Takings(s, cs[..k], id), if Takes(At(s, cs, k), cs[k], id) then 1 else 0);
    }
  }

  // ---- Exclusive claims ----

  /** The ways a claimed record becomes claimable again. */
  ghost predicate Releases(s: State, c: Request, id: ID)
    requires Valid(s.records)
  {
    || (c.op.Requeue? && Mutates(s, c, id))
    || (c.op.Update? && Mutates(s, c, id) && c.op.rec.status.Pending?)
    || Deletes(s, c, id)
  }

  ghost predicate NeverReleased(s: State, cs: seq<Request>, id: ID)
    requires Valid(s.records)
  {
    forall k :: 0 <= k < |cs| ==> !Releases(At(s, cs, k), cs[k], id)
  }

  lemma StaysClaimedStep(s: State, c: Request, id: ID)
    requires Valid(s.records) && id in s.records && !s.records[id].status.Pending? && !Releases(s, c, id)
    ensures id in Then(s, c).records && !Then(s, c).records[id].status.Pending?
  {
  }

  lemma {:induction false} StaysClaimed(s: State, cs: seq<Request>, id: ID)
    requires Valid(s.records) && id in s.records && !s.records[id].status.Pending? && NeverReleased(s, cs, id)
    ensures id in After(s, cs).records && !After(s, cs).records[id].status.Pending?
    decreases |cs|
  {
    if cs != [] {
      var k := |cs| - 1;
      forall j | 0 <= j < k
        ensures !Releases(At(s, cs[..k], j), cs[..k][j], id)
      {
        AtPrefix(s, cs, k, j);
      }
      StaysClaimed(s, cs[..k], id);
      StaysClaimedStep(At(s, cs, k), cs[k], id);
    }
  }

  /** Between two successful Claims of the same ID there is a RequeueStale that hit it, an
      Update that set it back to pending, or a Delete. */
  lemma ExclusiveClaim(s: State, now: Time, first: Rec, t: State, cs: seq<Request>, later: Time, second: Rec)
    requires Valid(s.records)
    requires Answer(s, Request(Claim(now), false)) == Found(first) && t == Then(s, Request(Claim(now), false))
    requires Answer(After(t, cs), Request(Claim(later), false)) == Found(second) && first.id == second.id
    ensures exists k :: 0 <= k < |cs| && Releases(At(t, cs, k), cs[k], first.id)
  {
    if NeverReleased(t, cs, first.id) {
      StaysClaimed(t, cs, first.id);
    }
  }

  // ---- Requeueing ----

  lemma RequeueMovesStatuses(m: map<ID, Rec>, cutoff: Time)
    ensures var m', stale := RequeueAll(m, cutoff), Stale(m, cutoff);
            && WithStatus(m', Pending) == WithStatus(m, Pending) + stale && WithStatus(m, Pending) !! stale
            && WithStatus(m', Running) == WithStatus(m, Running) - stale && stale <= WithStatus(m, Running)
  {
    var m' := RequeueAll(m, cutoff);
    forall id
      ensures id in WithStatus(m', Pending) <==> id in WithStatus(m, Pending) + Stale(m, cutoff)
      ensures id in WithStatus(m', Running) <==> id in WithStatus(m, Running) - Stale(m, cutoff)
    {
      if id in m {
        assert m'[id] == if IsStale(m[id], cutoff) then BackToPending(m[id]) else m[id];
      }
    }
  }

  lemma RequeueIsIdempotent(m: map<ID, Rec>, cutoff: Time)
    ensures var m' := RequeueAll(m, cutoff);
            Stale(m', cutoff) == {} && RequeueAll(m', cutoff) == m'
  {
    var m' := RequeueAll(m, cutoff);
    forall id | id in m'
      ensures !IsStale(m'[id], cutoff)
    {
      assert m'[id] == if IsStale(m[id], cutoff) then BackToPending(m[id]) else m[id];
    }
  }

  lemma Sizes(a: set<ID>, b: set<ID>, c: set<ID>)
    requires b == a + c && a !! c
    ensures |b| == |a| + |c|
  {
  }

  /** RequeueStale moves exactly the stale records from running to pending, the one started at
      the very cutoff included, and returns how many they are ... */
  lemma RequeueMovesStale(m: map<ID, Rec>, cutoff: Time)
    ensures var m', stale := RequeueAll(m, cutoff), Stale(m, cutoff);
            && WithStatus(m', Pending) == WithStatus(m, Pending) + stale
            && WithStatus(m', Running) == WithStatus(m, Running) - stale
            && |WithStatus(m', Pending)| == |WithStatus(m, Pending)| + |stale|
            && |WithStatus(m, Running)| == |WithStatus(m', Running)| + |stale|
  {
    RequeueMovesStatuses(m, cutoff);
    var m', stale := RequeueAll(m, cutoff), Stale(m, cutoff);
    Sizes(WithStatus(m, Pending), WithStatus(m', Pending), stale);
    Sizes(WithStatus(m', Running), WithStatus(m, Running), stale);
  }

  /** ... it resets those records, leaves every other alone, and finds nothing when repeated
      at the same cutoff. */
  lemma RequeueResetsStale(m: map<ID, Rec>, now: Time, lease: Int64, m': map<ID, Rec>, count: nat)
    requires Valid(m) && Respond(m, Requeue(now, lease)) == (m', Requeued(count))
    ensures m'.Keys == m.Keys && count == |Stale(m, now - lease)|
    ensures forall id <- m' :: if id in Stale(m, now - lease)
                               then m'[id] == m[id].(status := Pending, startedAt := None,
                                                     version := NextVersion(m[id].version))
                               else m'[id] == m[id]
    ensures Valid(m') && Respond(m', Requeue(now, lease)) == (m', Requeued(0))
  {
    CallKeepsValid(State(m, false), Requeue(now, lease), false);
    RequeueIsIdempotent(m, now - lease);
  }

  /** Which running records RequeueStale takes: those whose lease has run out, a lease that
      runs out at this very instant included. */
  lemma RequeuedIff(m: map<ID, Rec>, now: Time, lease: Int64, m': map<ID, Rec>, count: nat, id: ID)
    requires Valid(m) && Respond(m, Requeue(now, lease)) == (m', Requeued(count))
    requires id in m && m[id].status.Running?
    ensures id in m' && (m'[id].status.Pending? <==> m[id].startedAt.Some? && now - m[id].startedAt.value >= lease)
    ensures m[id].startedAt == Some(now - lease) ==> m'[id].status.Pending? && count > 0
  {
    assert m'[id] == if IsStale(m[id], now - lease) then BackToPending(m[id]) else m[id];
    if IsStale(m[id], now - lease) {
      assert id in Stale(m, now - lease);
    }
  }

  // ---- Round trips and closing ----

  /** A record that no call changes or deletes is what Get returns. */
  lemma ReadBack(t: State, rec: Rec, cs: seq<Request>)
    requires Valid(t.records) && rec.id in t.records && t.records[rec.id] == rec
    requires NeverDeleted(t, cs, rec.id) && Mutations(t, cs, rec.id) == 0 && !After(t, cs).closed
    ensures Answer(After(t, cs), Request(Get(rec.id), false)) == Found(rec)
  {
    VersionCountsMutations(t, cs, rec.id);
  }

  /** What was saved is what is read: the defaults filled in, any nonzero version kept. */
  lemma SaveThenGet(s: State, rec: Rec, cs: seq<Request>)
    requires Valid(s.records) && Answer(s, Request(Save(rec), false)) == Done
    requires var t := Then(s, Request(Save(rec), false));
             NeverDeleted(t, cs, rec.id) && Mutations(t, cs, rec.id) == 0 && !After(t, cs).closed
    ensures var t := Then(s, Request(Save(rec), false));
            Answer(After(t, cs), Request(Get(rec.id), false)) == Found(Normal(Defaults(rec)))
  {
    ReadBack(Then(s, Request(Save(rec), false)), Normal(Defaults(rec)), cs);
  }

  /** What Update wrote is what is read: the caller's record, one version on. */
  lemma UpdateThenGet(s: State, rec: Rec, t: State, cs: seq<Request>)
    requires Valid(s.records) && Answer(s, Request(Update(rec), false)) == Done
    requires t == Then(s, Request(Update(rec), false))
    requires NeverDeleted(t, cs, rec.id) && Mutations(t, cs, rec.id) == 0 && !After(t, cs).closed
    ensures Answer(After(t, cs), Request(Get(rec.id), false))
         == Found(Normal(rec.(version := NextVersion(s.records[rec.id].version))))
  {
    VersionCountsMutations(t, cs, rec.id);
  }

  lemma FirstIsEarliest(m: map<ID, Rec>, ids: set<ID>, id: ID)
    requires ids <= m.Keys && IsFirst(m, ids, id)
    ensures forall j <- ids :: j != id ==> Earlier(m[id], m[j])
  {
    forall j | j in ids && j != id
      ensures Earlier(m[id], m[j])
    {
      BeforeIff(m[id], m[j]);
    }
  }

  /** Claim returns what it stored: the first pending record, running since now, with attempts
      and version moved on, and otherwise as it was; no other record changes. */
  lemma ClaimWrites(s: State, now: Time, rec: Rec, t: State)
    requires Valid(s.records) && Answer(s, Request(Claim(now), false)) == Found(rec)
    requires t == Then(s, Request(Claim(now), false))
    ensures rec.id in s.records && IsFirst(s.records, WithStatus(s.records, Pending), rec.id)
    ensures rec == Claimed(s.records[rec.id], now) && t == s.(records := s.records[rec.id := rec])
    ensures rec == s.records[rec.id].(status := Running, startedAt := Some(now),
                                      attempts := rec.attempts, version := rec.version)
  {
  }

  /** What Claim returned is what is read. */
  lemma ClaimThenGet(s: State, now: Time, rec: Rec, t: State, cs: seq<Request>)
    requires Valid(s.records) && Answer(s, Request(Claim(now), false)) == Found(rec)
    requires t == Then(s, Request(Claim(now), false))
    requires NeverDeleted(t, cs, rec.id) && Mutations(t, cs, rec.id) == 0 && !After(t, cs).closed
    ensures rec.id in s.records && IsFirst(s.records, WithStatus(s.records, Pending), rec.id)
    ensures rec == Claimed(s.records[rec.id], now)
    ensures s.records[rec.id].status.Pending? && rec.createdAt == s.records[rec.id].createdAt
    ensures forall id <- s.records :: s.records[id].status.Pending? && id != rec.id ==>
              Earlier(s.records[rec.id], s.records[id])
    ensures Answer(After(t, cs), Request(Get(rec.id), false)) == Found(rec)
  {
    ClaimWrites(s, now, rec, t);
    FirstIsEarliest(s.records, WithStatus(s.records, Pending), rec.id);
    ReadBack(t, rec, cs);
  }

  ghost predicate Saves(s: State, c: Request, id: ID)
    requires Valid(s.records)
  {
    c.op.Save? && c.op.rec.id == id && Answer(s, c) == Done
  }

  /** A refused call changes nothing, and no call touches a record but by saving, changing or
      deleting it as defined above. */
  lemma CallFrame(s: State, c: Request, id: ID)
    requires Valid(s.records) && !Saves(s, c, id) && !Mutates(s, c, id) && !Deletes(s, c, id)
    ensures Answer(s, c).Refused? ==> Then(s, c) == s
    ensures id in Then(s, c).records <==> id in s.records
    ensures id in s.records ==> Then(s, c).records[id] == s.records[id]
  {
  }

  /** Only a Save brings an ID into the store, only a Delete takes it out, and so a history
      with neither leaves the set of IDs alone. */
  lemma {:induction false} IdsStay(s: State, cs: seq<Request>, id: ID)
    requires Valid(s.records)
    requires forall k :: 0 <= k < |cs| ==> !Saves(At(s, cs, k), cs[k], id) && !Deletes(At(s, cs, k), cs[k], id)
    ensures id in After(s, cs).records <==> id in s.records
    decreases |cs|
  {
    if cs != [] {
      var n := |cs| - 1;
      forall k | 0 <= k < n
        ensures !Saves(At(s, cs[..n], k), cs[..n][k], id) && !Deletes(At(s, cs[..n], k), cs[..n][k], id)
      {
        AtPrefix(s, cs, n, k);
      }
      IdsStay(s, cs[..n], id);
      IdsStayStep(At(s, cs, n), cs[n], id);
    }
  }

  lemma IdsStayStep(s: State, c: Request, id: ID)
    requires Valid(s.records) && !Saves(s, c, id) && !Deletes(s, c, id)
    ensures id in Then(s, c).records <==> id in s.records
  {
  }

  /** A closed store stays closed, keeps its records, and serves nothing but Close. */
  lemma {:induction false} ClosedForever(s: State, cs: seq<Request>, c: Request)
    requires Valid(s.records) && s.closed
    ensures After(s, cs) == s
    ensures !Answer(After(s, cs), c).Refused? ==> c.op.Close?
    decreases |cs|
  {
    if cs != [] {
      ClosedForever(s, cs[..|cs| - 1], cs[|cs| - 1]);
    }
  }
}
