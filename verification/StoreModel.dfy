/** MemoryStore of backend/memory.go as operations on a map. Every method of the source holds
    the mutex throughout, so a concurrent run is a sequence of these operations. */
module StoreModel {
  import opened GoInts
  import opened Wrappers
  import opened Records

  datatype State = State(records: map<ID, Rec>, closed: bool)

  /** One call. Claim and Requeue read the clock: `now` is whatever they read. */
  datatype Op =
    | Save(rec: Rec)
    | Get(id: ID)
    | Claim(now: Time)
    | Update(rec: Rec)
    | Delete(id: ID)
    | List(filter: Filter)
    | Requeue(now: Time, lease: Int64)
    | Close

  datatype Response = Done | Found(rec: Rec) | Listed(recs: seq<Rec>) | Requeued(count: nat) | Refused(error: Error)

  /** The invariant of the map: keys are the IDs of their records, and records are clones. */
  ghost predicate Valid(m: map<ID, Rec>) {
    forall id <- m :: m[id].id == id && Normal(m[id]) == m[id]
  }

  // ---- Selections ----

  function WithStatus(m: map<ID, Rec>, status: Status): set<ID> {
    set id | id in m && m[id].status == status
  }

  function Matching(m: map<ID, Rec>, status: Option<Status>): set<ID> {
    if status.None? then m.Keys else WithStatus(m, status.value)
  }

  predicate IsStale(r: Rec, cutoff: Time) {
    r.status.Running? && r.startedAt.Some? && r.startedAt.value <= cutoff
  }

  function Stale(m: map<ID, Rec>, cutoff: Time): set<ID> {
    set id | id in m && IsStale(m[id], cutoff)
  }

  ghost predicate IsFirst(m: map<ID, Rec>, ids: set<ID>, id: ID)
    requires ids <= m.Keys
  {
    id in ids && forall j <- ids :: j == id || Before(m[id], m[j])
  }

  lemma {:induction false} FirstExists(m: map<ID, Rec>, ids: set<ID>)
    requires Valid(m) && ids <= m.Keys && ids != {}
    ensures exists id :: IsFirst(m, ids, id)
    decreases |ids|
  {
    var x :| x in ids;
    var rest := ids - {x};
    if rest == {} {
      assert forall j <- ids :: j == x || j in rest;
      assert IsFirst(m, ids, x);
    } else {
      FirstExists(m, rest);
      var y :| IsFirst(m, rest, y);
      forall j | j in rest
        ensures j == y || Before(m[y], m[j])
        ensures Before(m[x], m[y]) ==> Before(m[x], m[j])
      {
        BeforeIsOrder(m[x], m[y], m[j]);
      }
      BeforeIsOrder(m[x], m[y], m[x]);
      assert IsFirst(m, ids, if Before(m[x], m[y]) then x else y);
    }
  }

  lemma FirstUnique(m: map<ID, Rec>, ids: set<ID>, a: ID, b: ID)
    requires ids <= m.Keys && IsFirst(m, ids, a) && IsFirst(m, ids, b)
    ensures a == b
  {
    BeforeIsOrder(m[a], m[b], m[a]);
  }

  /** The first of some records by creation time, then ID. */
  ghost function First(m: map<ID, Rec>, ids: set<ID>): (id: ID)
    requires Valid(m) && ids <= m.Keys && ids != {}
    ensures IsFirst(m, ids, id)
  {
    FirstExists(m, ids);
    var id :| IsFirst(m, ids, id);
    id
  }

  /** Some records in order. */
  ghost function InOrder(m: map<ID, Rec>, ids: set<ID>): (rs: seq<Rec>)
    requires Valid(m) && ids <= m.Keys
    ensures |rs| == |ids|
    decreases |ids|
  {
    if ids == {} then []
    else
      var id := First(m, ids);
      [m[id]] + InOrder(m, ids - {id})
  }

  // ---- Operations ----

  function Defaults(r: Rec): Rec {
    r.(status := if r.status.Unset? then Pending else r.status,
       version := if r.version == 0 then 1 else r.version)
  }

  function NextVersion(v: Int64): Int64 {
    Wrap64(v + 1)
  }

  function Claimed(r: Rec, now: Time): Rec {
    r.(status := Running, startedAt := Some(now), attempts := Plus(r.attempts, 1), version := NextVersion(r.version))
  }

  function BackToPending(r: Rec): Rec {
    r.(status := Pending, startedAt := None, version := NextVersion(r.version))
  }

  function RequeueAll(m: map<ID, Rec>, cutoff: Time): map<ID, Rec> {
    map id | id in m :: if IsStale(m[id], cutoff) then BackToPending(m[id]) else m[id]
  }

  function Cut(rs: seq<Rec>, limit: Int64): seq<Rec> {
    if 0 < limit < |rs| then rs[..limit] else rs
  }

  /** The state after a call on an open store with a live context, and what it returns. */
  ghost function Respond(m: map<ID, Rec>, op: Op): (map<ID, Rec>, Response)
    requires Valid(m)
  {
    match op
    case Save(rec) =>
      if rec.id in m then (m, Refused(AlreadyExists)) else (m[rec.id := Normal(Defaults(rec))], Done)
    case Get(id) => (m, if id in m then Found(m[id]) else Refused(NotFound))
    case Claim(now) =>
      var pending := WithStatus(m, Pending);
      if pending == {} then (m, Refused(NotFound))
      else
        var id := First(m, pending);
        (m[id := Claimed(m[id], now)], Found(Claimed(m[id], now)))
    case Update(rec) =>
      if rec.id !in m then (m, Refused(NotFound))
      else if m[rec.id].version != rec.version then (m, Refused(Conflict))
      else (m[rec.id := Normal(rec.(version := NextVersion(rec.version)))], Done)
    case Delete(id) => if id in m then (m - {id}, Done) else (m, Refused(NotFound))
    case List(filter) => (m, Listed(Cut(InOrder(m, Matching(m, filter.status)), filter.limit)))
    case Requeue(now, lease) => (RequeueAll(m, now - lease), Requeued(|Stale(m, now - lease)|))
    case Close => (m, Done)
  }

  /** A whole call. `ctxDone` is whether its context had ended when the call began. */
  ghost function Call(s: State, op: Op, ctxDone: bool): (State, Response)
    requires Valid(s.records)
  {
    if ctxDone then (s, Refused(CtxDone))
    else if op.Requeue? && op.lease < 0 then (s, Refused(NegativeLease))
    else if op.Close? then (s.(closed := true), Done)
    else if s.closed then (s, Refused(StoreClosed))
    else
      var (m, r) := Respond(s.records, op);
      (s.(records := m), r)
  }

  /** Every call keeps the invariant. */
  lemma CallKeepsValid(s: State, op: Op, ctxDone: bool)
    requires Valid(s.records)
    ensures Valid(Call(s, op, ctxDone).0.records)
  {
  }
}
