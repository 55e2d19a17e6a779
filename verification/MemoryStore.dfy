/** MemoryStore of backend/memory.go on the heap: payloads are byte arrays, start and finish
    times are pointers, and callers keep the records they pass in and get back. */
module MemoryStore {
  import opened GoInts
  import opened Wrappers
  import opened Records
  import opened StoreModel
  import opened StoreHistory

  /** What a *time.Time points to. */
  class Cell {
    var time: Time

    constructor (time: Time)
      ensures this.time == time
    {
      this.time := time;
    }
  }

  /** A JobRecord struct: a value with three references. */
  datatype HeapRec = HeapRec(
    id: ID, name: string, payload: array?<Byte>, attempts: UInt64, status: Status, version: Int64,
    createdAt: Time, startedAt: Cell?, finishedAt: Cell?)

  /** The objects a record leads to. */
  ghost function Refs(r: HeapRec): set<object> {
    (if r.payload == null then {} else {r.payload})
    + (if r.startedAt == null then {} else {r.startedAt})
    + (if r.finishedAt == null then {} else {r.finishedAt})
  }

  ghost function TimeAt(c: Cell?): Option<Time>
    reads c
  {
    if c == null then None else Some(c.time)
  }

  ghost function BytesAt(a: array?<Byte>): Option<seq<Byte>>
    reads a
  {
    if a == null then None else Some(a[..])
  }

  /** The record's value in the present heap. */
  ghost function View(r: HeapRec): Rec
    reads r.payload, r.startedAt, r.finishedAt
  {
    Rec(r.id, r.name, BytesAt(r.payload), r.attempts, r.status, r.version,
        r.createdAt, TimeAt(r.startedAt), TimeAt(r.finishedAt))
  }

  ghost function AllRefs(rs: seq<HeapRec>): set<object> {
    if rs == [] then {} else Refs(rs[0]) + AllRefs(rs[1..])
  }

  ghost function Views(rs: seq<HeapRec>): seq<Rec>
    reads AllRefs(rs)
  {
    if rs == [] then [] else [View(rs[0])] + Views(rs[1..])
  }

  lemma {:induction false} RefsIncluded(rs: seq<HeapRec>, k: nat)
    requires k < |rs|
    ensures Refs(rs[k]) <= AllRefs(rs)
  {
    if k > 0 {
      RefsIncluded(rs[1..], k - 1);
    }
  }

  lemma {:induction false} RefsWithin(rs: seq<HeapRec>, objects: set<object>)
    requires forall k :: 0 <= k < |rs| ==> Within(rs[k], objects)
    ensures AllRefs(rs) <= objects
  {
    if rs != [] {
      assert Within(rs[0], objects);
      RefsWithin(rs[1..], objects);
    }
  }

  lemma {:induction false} ViewsAre(rs: seq<HeapRec>, values: seq<Rec>)
    requires |rs| == |values| && forall k :: 0 <= k < |rs| ==> View(rs[k]) == values[k]
    ensures Views(rs) == values
  {
    if rs != [] {
      ViewsAre(rs[1..], values[1..]);
      assert View(rs[0]) == values[0];
      assert values == [values[0]] + values[1..];
    }
  }

  method CloneCell(c: Cell?) returns (out: Cell?)
    ensures TimeAt(out) == TimeAt(c)
    ensures out != null ==> fresh(out)
  {
    if c == null {
      out := null;
    } else {
      out := new Cell(c.time);
    }
  }

  /** A copy of the bytes, nil when there is nothing to copy. */
  method CloneBytes(a: array?<Byte>) returns (out: array?<Byte>)
    ensures BytesAt(out) == if BytesAt(a) == Some([]) then None else BytesAt(a)
    ensures out != null ==> fresh(out)
  {
    if a == null || a.Length == 0 {
      out := null;
      assert a != null ==> a[..] == [];
    } else {
      assert |a[..]| > 0;
      out := new Byte[a.Length](i requires 0 <= i < a.Length reads a => a[i]);
      assert out[..] == a[..];
    }
  }

  /** A deep copy: same value, nothing shared. */
  method CloneRecord(r: HeapRec) returns (out: HeapRec)
    ensures View(out) == Normal(View(r))
    ensures fresh(Refs(out))
  {
    var payload := CloneBytes(r.payload);
    var started := CloneCell(r.startedAt);
    var finished := CloneCell(r.finishedAt);
    out := r.(payload := payload, startedAt := started, finishedAt := finished);
  }

  /** The comparison given to sort.Slice. */
  predicate HeapBefore(a: HeapRec, b: HeapRec) {
    KeyBefore(a.createdAt, a.id, b.createdAt, b.id)
  }

  ghost predicate HeapSorted(rs: seq<HeapRec>) {
    forall i, j :: 0 <= i < j < |rs| ==> HeapBefore(rs[i], rs[j])
  }

  ghost predicate DistinctIds(rs: seq<HeapRec>) {
    forall i, j :: 0 <= i < j < |rs| ==> rs[i].id != rs[j].id
  }

  /** What sort.Slice does to records of different IDs: it sorts them. */
  method SortRecords(out: seq<HeapRec>) returns (sorted: seq<HeapRec>)
    requires DistinctIds(out)
    ensures HeapSorted(sorted) && multiset(sorted) == multiset(out)
  {
    sorted := [];
    for i := 0 to |out|
      invariant HeapSorted(sorted) && multiset(sorted) == multiset(out[..i])
    {
      assert out[..i + 1] == out[..i] + [out[i]];
      forall r | r in sorted
        ensures r.id != out[i].id
      {
        assert r in multiset(out[..i]);
      }
      sorted := Insert(sorted, out[i]);
    }
    assert out[..|out|] == out;
  }

  method Insert(rs: seq<HeapRec>, r: HeapRec) returns (out: seq<HeapRec>)
    requires HeapSorted(rs) && forall x <- rs :: x.id != r.id
    ensures HeapSorted(out) && multiset(out) == multiset(rs) + multiset{r}
  {
    var k := 0;
    while k < |rs| && HeapBefore(rs[k], r)
      invariant 0 <= k <= |rs| && forall i :: 0 <= i < k ==> HeapBefore(rs[i], r)
    {
      k := k + 1;
    }
    InsertedIsSorted(rs, k, r);
    out := rs[..k] + [r] + rs[k..];
    assert rs == rs[..k] + rs[k..];
  }

  lemma InsertedIsSorted(rs: seq<HeapRec>, k: nat, r: HeapRec)
    requires HeapSorted(rs) && k <= |rs| && forall x <- rs :: x.id != r.id
    requires forall i :: 0 <= i < k ==> HeapBefore(rs[i], r)
    requires k < |rs| ==> !HeapBefore(rs[k], r)
    ensures HeapSorted(rs[..k] + [r] + rs[k..])
  {
    forall i | k <= i < |rs|
      ensures HeapBefore(r, rs[i])
    {
      assert rs[k] in rs;
      KeyOrder(r.createdAt, r.id, rs[k].createdAt, rs[k].id, rs[i].createdAt, rs[i].id);
    }
    SplicedIsSorted(rs, k, r);
  }

  lemma SplicedIsSorted(rs: seq<HeapRec>, k: nat, r: HeapRec)
    requires HeapSorted(rs) && k <= |rs|
    requires forall i :: 0 <= i < k ==> HeapBefore(rs[i], r)
    requires forall i :: k <= i < |rs| ==> HeapBefore(r, rs[i])
    ensures HeapSorted(rs[..k] + [r] + rs[k..])
  {
    var out := rs[..k] + [r] + rs[k..];
    assert forall i :: 0 <= i < |out| ==> out[i] == if i < k then rs[i] else if i == k then r else rs[i - 1];
  }

  /** The record leads only to these objects. */
  ghost predicate Within(r: HeapRec, objects: set<object>) {
    && (r.payload != null ==> r.payload in objects)
    && (r.startedAt != null ==> r.startedAt in objects)
    && (r.finishedAt != null ==> r.finishedAt in objects)
  }

  /** The record leads only to these objects and has that value. */
  ghost predicate RecordOk(r: HeapRec, repr: set<object>, value: Rec)
    reads repr
  {
    Within(r, repr) && View(r) == value
  }

  class MemoryStore {
    var records: map<ID, HeapRec>
    var closed: bool
    /** What the records mean, and the objects the store has allocated for them. */
    ghost var contents: map<ID, Rec>
    ghost var repr: set<object>

    /** Keys are the IDs of their records; payloads are clones, so never empty; records lead
        only to objects of the store's own; and `contents` is their value in the heap. */
    ghost predicate Ok()
      reads this`records, this`contents, this`repr, repr
    {
      && this !in repr
      && Valid(contents) && contents.Keys == records.Keys
      && forall id :: id in records ==> RecordOk(records[id], repr, contents[id])
    }

    ghost function Abstract(): State
      reads this`contents, this`closed
    {
      State(contents, closed)
    }

    constructor ()
      ensures Ok() && Abstract() == State(map[], false) && repr == {}
    {
      records, contents := map[], map[];
      closed := false;
      repr := {};
    }

    /** Stores a deep copy of the record under its ID. */
    method Put(rec: HeapRec)
      requires Ok()
      modifies this`records, this`contents, this`repr
      ensures Ok() && fresh(repr - old(repr))
      ensures contents == old(contents)[rec.id := Normal(old(View(rec)))]
    {
      var clone := CloneRecord(rec);
      Install(rec.id, clone);
    }

    /** The store takes over a record that shares nothing with it. */
    method Install(id: ID, r: HeapRec)
      requires Ok() && this !in Refs(r) && r.id == id && Normal(View(r)) == View(r)
      modifies this`records, this`contents, this`repr
      ensures Ok() && repr == old(repr) + Refs(r)
      ensures contents == old(contents)[id := View(r)]
    {
      ghost var before := records;
      records := records[id := r];
      contents := contents[id := View(r)];
      repr := repr + Refs(r);
      forall j | j in records
        ensures RecordOk(records[j], repr, contents[j])
      {
        assert j != id ==> RecordOk(before[j], old(repr), old(contents)[j]);
      }
    }

    method Save(rec: HeapRec, ctxDone: bool) returns (err: Option<Error>)
      requires Ok()
      modifies this
      ensures Ok() && fresh(repr - old(repr))
      ensures (Abstract(), Verdict(err)) == old(Call(Abstract(), Op.Save(View(rec)), ctxDone))
    {
      if ctxDone {
        return Some(CtxDone);
      }
      if closed {
        return Some(StoreClosed);
      }
      if rec.id in records {
        return Some(AlreadyExists);
      }
      var filled := rec;
      if filled.status.Unset? {
        filled := filled.(status := Pending);
      }
      if filled.version == 0 {
        filled := filled.(version := 1);
      }
      Put(filled);
      return None;
    }

    method Get(id: ID, ctxDone: bool) returns (rec: Option<HeapRec>, err: Option<Error>)
      requires Ok()
      ensures rec.Some? <==> err.None?
      ensures rec.Some? ==> fresh(Refs(rec.value)) && Refs(rec.value) !! repr
      ensures (Abstract(), if rec.Some? then Found(View(rec.value)) else Verdict(err))
           == Call(Abstract(), Op.Get(id), ctxDone)
    {
      if ctxDone {
        return None, Some(CtxDone);
      }
      if closed {
        return None, Some(StoreClosed);
      }
      if id !in records {
        return None, Some(NotFound);
      }
      var clone := CloneRecord(records[id]);
      return Some(clone), None;
    }

    method Update(rec: HeapRec, ctxDone: bool) returns (err: Option<Error>)
      requires Ok()
      modifies this
      ensures Ok() && fresh(repr - old(repr))
      ensures (Abstract(), Verdict(err)) == old(Call(Abstract(), Op.Update(View(rec)), ctxDone))
    {
      if ctxDone {
        return Some(CtxDone);
      }
      if closed {
        return Some(StoreClosed);
      }
      if rec.id !in records {
        return Some(NotFound);
      }
      var stored := records[rec.id];
      if stored.version != rec.version {
        return Some(Conflict);
      }
      Put(rec.(version := Wrap64(stored.version + 1)));
      return None;
    }

    method Delete(id: ID, ctxDone: bool) returns (err: Option<Error>)
      requires Ok()
      modifies this
      ensures Ok() && repr == old(repr)
      ensures (Abstract(), Verdict(err)) == old(Call(Abstract(), Op.Delete(id), ctxDone))
    {
      if ctxDone {
        return Some(CtxDone);
      }
      if closed {
        return Some(StoreClosed);
      }
      if id !in records {
        return Some(NotFound);
      }
      records := records - {id};
      contents := contents - {id};
      return None;
    }

    method Close(ctxDone: bool) returns (err: Option<Error>)
      requires Ok()
      modifies this
      ensures Ok() && repr == old(repr)
      ensures (Abstract(), Verdict(err)) == old(Call(Abstract(), Op.Close, ctxDone))
    {
      if ctxDone {
        return Some(CtxDone);
      }
      closed := true;
      return None;
    }

    /** The scan visits the map in any order; the record it settles on does not depend on it. */
    method Oldest() returns (found: bool, chosen: ID)
      requires Ok()
      ensures found <==> WithStatus(contents, Pending) != {}
      ensures found ==> chosen in records && chosen == First(contents, WithStatus(contents, Pending))
      ensures found ==> forall id <- WithStatus(contents, Pending) :: id != chosen ==>
                Earlier(contents[chosen], contents[id])
    {
      ghost var m := contents;
      var todo := records.Keys;
      found, chosen := false, [];
      while todo != {}
        invariant todo <= records.Keys
        invariant !found ==> forall j <- WithStatus(m, Pending) :: j in todo
        invariant found ==> chosen in WithStatus(m, Pending)
        invariant found ==> forall j <- WithStatus(m, Pending) :: j in todo || j == chosen || Before(m[chosen], m[j])
      {
        var id :| id in todo;
        todo := todo - {id};
        var rec := records[id];
        if rec.status.Pending? {
          if !found || rec.createdAt < records[chosen].createdAt
             || (rec.createdAt == records[chosen].createdAt && IdLess(id, chosen))
          {
            if found {
              Improve(m, WithStatus(m, Pending) - todo - {id}, chosen, id);
            }
            found, chosen := true, id;
          } else {
            BeforeIsOrder(m[chosen], m[id], m[id]);
          }
        }
      }
      if found {
        assert IsFirst(m, WithStatus(m, Pending), chosen);
        FirstUnique(m, WithStatus(m, Pending), chosen, First(m, WithStatus(m, Pending)));
        FirstIsEarliest(m, WithStatus(m, Pending), chosen);
      }
    }

    method Claim(now: Time, ctxDone: bool) returns (rec: Option<HeapRec>, err: Option<Error>)
      requires Ok()
      modifies this
      ensures Ok() && fresh(repr - old(repr))
      ensures rec.Some? <==> err.None?
      ensures rec.Some? ==> fresh(Refs(rec.value)) && Refs(rec.value) !! repr
      ensures (Abstract(), if rec.Some? then Found(View(rec.value)) else Verdict(err))
           == old(Call(Abstract(), Op.Claim(now), ctxDone))
    {
      if ctxDone {
        return None, Some(CtxDone);
      }
      if closed {
        return None, Some(StoreClosed);
      }
      var found, chosen := Oldest();
      if !found {
        return None, Some(NotFound);
      }
      ghost var m := contents;
      var started := new Cell(now);
      var stored := records[chosen];
      var chosenRec := stored.(status := Running, startedAt := started, attempts := Plus(stored.attempts, 1),
                               version := Wrap64(stored.version + 1));
      assert RecordOk(stored, repr, m[chosen]);
      assert View(chosenRec) == Claimed(m[chosen], now) == Normal(Claimed(m[chosen], now));
      ClaimAnswer(m, now, chosen);
      Put(chosenRec);
      var clone := CloneRecord(chosenRec);
      return Some(clone), None;
    }

    method RequeueStale(now: Time, lease: Int64, ctxDone: bool) returns (count: nat, err: Option<Error>)
      requires Ok()
      modifies this
      ensures Ok() && repr == old(repr)
      ensures (Abstract(), if err.None? then Requeued(count) else Verdict(err))
           == old(Call(Abstract(), Op.Requeue(now, lease), ctxDone))
    {
      if ctxDone {
        return 0, Some(CtxDone);
      }
      if lease < 0 {
        return 0, Some(NegativeLease);
      }
      if closed {
        return 0, Some(StoreClosed);
      }
      RequeueAnswer(contents, now, lease);
      count := RewriteStale(now - lease);
      return count, None;
    }

    method List(filter: Filter, ctxDone: bool)
      returns (recs: seq<HeapRec>, err: Option<Error>)
      requires Ok()
      ensures fresh(AllRefs(recs)) && AllRefs(recs) !! repr
      ensures (Abstract(), if err.None? then Listed(Views(recs)) else Verdict(err))
           == Call(Abstract(), Op.List(filter), ctxDone)
    {
      if ctxDone {
        return [], Some(CtxDone);
      }
      if closed {
        return [], Some(StoreClosed);
      }
      recs := Select(filter);
      return recs, None;
    }

    /** Clones of the matching records, sorted and cut to the limit. */
    method Select(filter: Filter) returns (recs: seq<HeapRec>)
      requires Ok()
      ensures fresh(AllRefs(recs)) && AllRefs(recs) !! repr
      ensures Respond(contents, Op.List(filter)) == (contents, Listed(Views(recs)))
    {
      var out;
      ghost var given;
      out, given := Collect(filter.status);
      var all := SortRecords(out);
      recs := if 0 < filter.limit < |all| then all[..filter.limit] else all;
      SortedAreListed(contents, filter, given, out, all, recs);
    }

    /** The loop of List: clones of the matching records, in any order. */
    method Collect(status: Option<Status>) returns (out: seq<HeapRec>, ghost given: set<object>)
      requires Ok()
      ensures fresh(given) && given !! repr
      ensures ExactlyIds(out, Matching(contents, status))
      ensures forall r <- out :: r.id in contents && RecordOk(r, given, contents[r.id])
    {
      out, given := [], {};
      ghost var ids := Matching(contents, status);
      var todo := records.Keys;
      while todo != {}
        invariant todo <= contents.Keys
        invariant fresh(given) && given !! repr
        invariant forall r <- out :: r.id in contents && RecordOk(r, given, contents[r.id])
        invariant ExactlyIds(out, ids - todo)
      {
        var id :| id in todo;
        assert ids - (todo - {id}) == if id in ids then (ids - todo) + {id} else ids - todo;
        out, given := CollectOne(status, id, out, given, ids - todo);
        todo := todo - {id};
      }
      assert ids - todo == ids;
    }

    /** One turn of that loop. */
    method CollectOne(status: Option<Status>, id: ID, out: seq<HeapRec>, ghost given: set<object>, ghost ids: set<ID>)
      returns (out': seq<HeapRec>, ghost given': set<object>)
      requires Ok() && id in records && id !in ids && given !! repr && ExactlyIds(out, ids)
      requires forall r <- out :: r.id in contents && RecordOk(r, given, contents[r.id])
      ensures given <= given' && fresh(given' - given) && given' !! repr
      ensures ExactlyIds(out', if id in Matching(contents, status) then ids + {id} else ids)
      ensures forall r <- out' :: r.id in contents && RecordOk(r, given', contents[r.id])
    {
      out', given' := out, given;
      var rec := records[id];
      assert RecordOk(rec, repr, contents[id]);
      if status.None? || rec.status == status.value {
        var clone := CloneRecord(rec);
        OneMoreId(out, ids, clone);
        OneMoreClone(contents, out, given, clone);
        out', given' := out + [clone], given + Refs(clone);
      }
    }

    /** One turn of the loop of RequeueStale. */
    method RequeueIfStale(id: ID, cutoff: Time) returns (hit: bool)
      requires Ok() && id in records
      modifies this`records, this`contents
      ensures Ok() && records.Keys == old(records.Keys) && hit == IsStale(old(contents)[id], cutoff)
      ensures contents == if hit then old(contents)[id := BackToPending(old(contents)[id])] else old(contents)
    {
      var rec := records[id];
      ghost var before := records;
      assert RecordOk(rec, repr, contents[id]);
      hit := rec.status.Running? && rec.startedAt != null && rec.startedAt.time <= cutoff;
      if hit {
        records := records[id := rec.(status := Pending, startedAt := null, version := Wrap64(rec.version + 1))];
        contents := contents[id := BackToPending(contents[id])];
        forall j | j in records
          ensures RecordOk(records[j], repr, contents[j])
        {
          assert RecordOk(before[j], repr, old(contents)[j]);
        }
      }
    }

    /** The loop of RequeueStale: it rewrites the map it ranges over, visiting each key once,
        in any order. */
    method RewriteStale(cutoff: Time) returns (count: nat)
      requires Ok()
      modifies this`records, this`contents
      ensures Ok() && contents == RequeueAll(old(contents), cutoff) && count == |Stale(old(contents), cutoff)|
    {
      count := 0;
      ghost var m := contents;
      var todo := records.Keys;
      NotYetRequeued(m, cutoff);
      while todo != {}
        invariant Ok() && todo <= m.Keys
        invariant PartlyRequeued(m, cutoff, todo, contents)
        invariant count == |Stale(m, cutoff) - todo|
      {
        var id :| id in todo;
        ghost var mid := contents;
        var hit := RequeueIfStale(id, cutoff);
        RequeueTurn(m, cutoff, todo, mid, id);
        todo := todo - {id};
        if hit {
          count := count + 1;
        }
      }
      FullyRequeued(m, cutoff, contents);
    }
  }

  /** m', as far as the loop over m has come: `todo` is still as it was. */
  ghost predicate PartlyRequeued(m: map<ID, Rec>, cutoff: Time, todo: set<ID>, m': map<ID, Rec>) {
    && m'.Keys == m.Keys
    && forall id <- m' :: m'[id] == if id !in todo && IsStale(m[id], cutoff) then BackToPending(m[id]) else m[id]
  }

  lemma NotYetRequeued(m: map<ID, Rec>, cutoff: Time)
    ensures PartlyRequeued(m, cutoff, m.Keys, m) && Stale(m, cutoff) - m.Keys == {}
  {
  }

  lemma FullyRequeued(m: map<ID, Rec>, cutoff: Time, m': map<ID, Rec>)
    requires PartlyRequeued(m, cutoff, {}, m')
    ensures m' == RequeueAll(m, cutoff) && Stale(m, cutoff) - {} == Stale(m, cutoff)
  {
  }

  lemma RequeueTurn(m: map<ID, Rec>, cutoff: Time, todo: set<ID>, m': map<ID, Rec>, id: ID)
    requires PartlyRequeued(m, cutoff, todo, m') && id in todo && id in m
    ensures m'[id] == m[id]
    ensures PartlyRequeued(m, cutoff, todo - {id},
                           if IsStale(m[id], cutoff) then m'[id := BackToPending(m[id])] else m')
    ensures |Stale(m, cutoff) - (todo - {id})| == |Stale(m, cutoff) - todo| + if IsStale(m[id], cutoff) then 1 else 0
  {
    var done := Stale(m, cutoff) - todo;
    if IsStale(m[id], cutoff) {
      assert Stale(m, cutoff) - (todo - {id}) == done + {id};
    } else {
      assert Stale(m, cutoff) - (todo - {id}) == done;
    }
  }

  /** The model's answer for a method that returns only an error. */
  function Verdict(err: Option<Error>): Response {
    if err.None? then Done else Refused(err.value)
  }

  lemma ClaimAnswer(m: map<ID, Rec>, now: Time, chosen: ID)
    requires Valid(m) && WithStatus(m, Pending) != {} && chosen == First(m, WithStatus(m, Pending))
    ensures Call(State(m, false), Op.Claim(now), false)
         == (State(m[chosen := Claimed(m[chosen], now)], false), Found(Claimed(m[chosen], now)))
  {
  }

  lemma RequeueAnswer(m: map<ID, Rec>, now: Time, lease: Int64)
    requires Valid(m) && lease >= 0
    ensures Call(State(m, false), Op.Requeue(now, lease), false)
         == (State(RequeueAll(m, now - lease), false), Requeued(|Stale(m, now - lease)|))
  {
  }

  /** The records are of exactly these IDs, each once. */
  ghost predicate ExactlyIds(rs: seq<HeapRec>, ids: set<ID>) {
    && DistinctIds(rs)
    && (forall r <- rs :: r.id in ids)
    && (forall id <- ids :: exists k :: 0 <= k < |rs| && rs[k].id == id)
  }

  lemma OneMoreId(rs: seq<HeapRec>, ids: set<ID>, r: HeapRec)
    requires ExactlyIds(rs, ids) && r.id !in ids
    ensures ExactlyIds(rs + [r], ids + {r.id})
  {
    var out := rs + [r];
    forall id | id in ids + {r.id}
      ensures exists k :: 0 <= k < |out| && out[k].id == id
    {
      if id == r.id {
        assert out[|rs|].id == id;
      } else {
        var k :| 0 <= k < |rs| && rs[k].id == id;
        assert out[k].id == id;
      }
    }
    assert forall k :: 0 <= k < |rs| ==> rs[k] in rs;
  }

  lemma OneMoreClone(m: map<ID, Rec>, rs: seq<HeapRec>, given: set<object>, r: HeapRec)
    requires forall x <- rs :: x.id in m && RecordOk(x, given, m[x.id])
    requires r.id in m && View(r) == m[r.id]
    ensures forall x <- rs + [r] :: x.id in m && RecordOk(x, given + Refs(r), m[x.id])
  {
    forall x | x in rs + [r]
      ensures x.id in m && RecordOk(x, given + Refs(r), m[x.id])
    {
      assert x in rs || x == r;
    }
  }

  lemma SameElements(xs: seq<HeapRec>, ys: seq<HeapRec>)
    requires multiset(xs) == multiset(ys)
    ensures forall r: HeapRec :: r in xs <==> r in ys
  {
    forall r: HeapRec
      ensures r in xs <==> r in ys
    {
      assert r in xs <==> r in multiset(xs);
      assert r in ys <==> r in multiset(ys);
    }
  }

  /** Sorting clones of some records lists those records in order. */
  lemma SortedClones(m: map<ID, Rec>, ids: set<ID>, out: seq<HeapRec>, recs: seq<HeapRec>) returns (listed: seq<Rec>)
    requires Valid(m) && ids <= m.Keys && ExactlyIds(out, ids)
    requires HeapSorted(recs) && multiset(recs) == multiset(out)
    requires forall r <- out :: r.id in m && r.createdAt == m[r.id].createdAt
    ensures |listed| == |recs|
    ensures forall k :: 0 <= k < |recs| ==> recs[k] in out && recs[k].id in m && listed[k] == m[recs[k].id]
    ensures Sorted(listed) && forall r: Rec :: r in listed <==> r.id in ids && m[r.id] == r
  {
    SameElements(recs, out);
    listed := seq(|recs|, k requires 0 <= k < |recs| => m[recs[k].id]);
    forall id | id in ids
      ensures m[id] in listed
    {
      var k :| 0 <= k < |out| && out[k].id == id;
      assert out[k] in recs;
      var l :| 0 <= l < |recs| && recs[l] == out[k];
      assert listed[l] == m[id];
    }
  }

  /** Clones, cut like their values, are within their objects and have those values. */
  lemma ClonesListed(m: map<ID, Rec>, given: set<object>, all: seq<HeapRec>, listed: seq<Rec>, recs: seq<HeapRec>)
    requires |all| == |listed| && recs <= all
    requires forall k :: 0 <= k < |all| ==>
               all[k].id in m && RecordOk(all[k], given, m[all[k].id]) && listed[k] == m[all[k].id]
    ensures AllRefs(recs) <= given && Views(recs) == listed[..|recs|]
  {
    assert forall k :: 0 <= k < |recs| ==> recs[k] == all[k];
    RefsWithin(recs, given);
    ViewsAre(recs, listed[..|recs|]);
  }

  /** Clones of exactly the matching records, sorted and cut, are the answer of List. */
  lemma SortedAreListed(m: map<ID, Rec>, filter: Filter, given: set<object>, out: seq<HeapRec>, all: seq<HeapRec>,
                        recs: seq<HeapRec>)
    requires Valid(m) && ExactlyIds(out, Matching(m, filter.status))
    requires forall r <- out :: r.id in m && RecordOk(r, given, m[r.id])
    requires HeapSorted(all) && multiset(all) == multiset(out)
    requires recs == if 0 < filter.limit < |all| then all[..filter.limit] else all
    ensures AllRefs(recs) <= given
    ensures Respond(m, Op.List(filter)) == (m, Listed(Views(recs)))
  {
    var listed := SortedClones(m, Matching(m, filter.status), out, all);
    ListIsUnique(m, filter, listed);
    forall k | 0 <= k < |all|
      ensures RecordOk(all[k], given, m[all[k].id])
    {
      assert all[k] in out;
    }
    ClonesListed(m, given, all, listed, recs);
    assert listed[..|recs|] == Cut(listed, filter.limit);
  }

  /** A candidate that comes before the best so far comes before all it was compared with. */
  lemma Improve(m: map<ID, Rec>, seen: set<ID>, best: ID, id: ID)
    requires best in m && id in m && seen <= m.Keys && Before(m[id], m[best])
    requires forall j <- seen :: j == best || Before(m[best], m[j])
    ensures forall j <- seen :: Before(m[id], m[j])
  {
    forall j | j in seen
      ensures Before(m[id], m[j])
    {
      BeforeIsOrder(m[id], m[best], m[j]);
    }
  }

  // ---- Isolation ----

  /** A call with its arguments; the clock readings are those of the call. */
  datatype Action =
    | DoSave(rec: HeapRec)
    | DoGet(id: ID)
    | DoClaim(now: Time)
    | DoUpdate(rec: HeapRec)
    | DoDelete(id: ID)
    | DoList(filter: Filter)
    | DoRequeue(now: Time, lease: Int64)
    | DoClose

  /** What a call returns: an error, or records, or a number. */
  datatype Reply = Reply(err: Option<Error>, recs: seq<HeapRec>, count: nat)

  /** The objects a caller hands in. */
  ghost function ActionRefs(act: Action): set<object> {
    if act.DoSave? || act.DoUpdate? then Refs(act.rec) else {}
  }

  /** The model's operation: the same call, with the record's value in the present heap. */
  ghost function OpOf(act: Action): Op
    reads ActionRefs(act)
  {
    match act
    case DoSave(rec) => Op.Save(View(rec))
    case DoGet(id) => Op.Get(id)
    case DoClaim(now) => Op.Claim(now)
    case DoUpdate(rec) => Op.Update(View(rec))
    case DoDelete(id) => Op.Delete(id)
    case DoList(filter) => Op.List(filter)
    case DoRequeue(now, lease) => Op.Requeue(now, lease)
    case DoClose => Op.Close
  }

  /** The model's response that a reply stands for. */
  ghost function Meaning(act: Action, reply: Reply): Response
    reads AllRefs(reply.recs)
  {
    if reply.err.Some? then Refused(reply.err.value)
    else if act.DoList? then Listed(Views(reply.recs))
    else if act.DoRequeue? then Requeued(reply.count)
    else if reply.recs != [] then Found(Views(reply.recs)[0])
    else Done
  }

  function OneRecord(rec: Option<HeapRec>, err: Option<Error>): Reply {
    Reply(err, if rec.Some? then [rec.value] else [], 0)
  }

  /** Any call, on any record, even one that leads into the store: the store answers and
      changes as the model does on the record's value, what the call hands out is new and not the
      store's, and no object outside the store becomes the store's. */
  method AnyCall(store: MemoryStore, act: Action, ctxDone: bool, ghost outside: set<object>) returns (reply: Reply)
    requires store.Ok() && outside !! store.repr
    modifies store
    ensures store.Ok() && fresh(store.repr - old(store.repr)) && outside !! store.repr
    ensures fresh(AllRefs(reply.recs)) && AllRefs(reply.recs) !! store.repr
    ensures (store.Abstract(), Meaning(act, reply)) == old(Call(store.Abstract(), OpOf(act), ctxDone))
  {
    var rec: Option<HeapRec>, err: Option<Error> := None, None;
    match act {
      case DoSave(r) => err := store.Save(r, ctxDone);
      case DoUpdate(r) => err := store.Update(r, ctxDone);
      case DoDelete(id) => err := store.Delete(id, ctxDone);
      case DoClose => err := store.Close(ctxDone);
      case DoGet(id) => rec, err := store.Get(id, ctxDone);
      case DoClaim(now) => rec, err := store.Claim(now, ctxDone);
      case DoRequeue(now, lease) =>
        var count;
        count, err := store.RequeueStale(now, lease, ctxDone);
        return Reply(err, [], count);
      case DoList(filter) =>
        var recs;
        recs, err := store.List(filter, ctxDone);
        return Reply(err, recs, 0);
    }
    return OneRecord(rec, err);
  }

  /** Whatever is written to objects that are not the store's, the store stays as it is. */
  method ClientWrites(store: MemoryStore, ghost mine: set<object>)
    requires store.Ok() && store !in mine && mine !! store.repr
    modifies mine
    ensures store.Ok() && store.Abstract() == old(store.Abstract())
  {
    modify mine;
  }

  /** A record of the given value, made from the objects of another record where they fit. */
  method Reuse(value: Rec, scrap: HeapRec) returns (rec: HeapRec)
    modifies Refs(scrap)
    ensures View(rec) == value && fresh(Refs(rec) - Refs(scrap))
  {
    var payload := ReuseBytes(value.payload, scrap.payload);
    var started := ReuseCell(value.startedAt, scrap.startedAt);
    var finished := ReuseCell(value.finishedAt, if scrap.finishedAt == scrap.startedAt then null else scrap.finishedAt);
    rec := HeapRec(value.id, value.name, payload, value.attempts, value.status, value.version,
                   value.createdAt, started, finished);
  }

  method ReuseCell(value: Option<Time>, scrap: Cell?) returns (c: Cell?)
    modifies if scrap == null then {} else {scrap}
    ensures TimeAt(c) == value && (c == null || c == scrap || fresh(c))
  {
    if value.None? {
      c := null;
    } else if scrap == null {
      c := new Cell(value.value);
    } else {
      c := scrap;
      c.time := value.value;
    }
  }

  method ReuseBytes(value: Option<seq<Byte>>, scrap: array?<Byte>) returns (a: array?<Byte>)
    modifies if scrap == null then {} else {scrap}
    ensures BytesAt(a) == value && (a == null || a == scrap || fresh(a))
  {
    if value.None? {
      return null;
    }
    var bytes := value.value;
    if scrap == null || scrap.Length != |bytes| {
      a := new Byte[|bytes|](i requires 0 <= i < |bytes| => bytes[i]);
    } else {
      a := scrap;
      for i := 0 to |bytes|
        invariant a[..i] == bytes[..i]
      {
        a[i] := bytes[i];
      }
    }
    assert a[..] == bytes;
  }

  /** The call that stands for an operation of the model. */
  method ActionFor(op: Op, scrap: HeapRec) returns (act: Action)
    modifies Refs(scrap)
    ensures OpOf(act) == op && fresh(ActionRefs(act) - Refs(scrap))
  {
    match op
    case Save(value) =>
      var rec := Reuse(value, scrap);
      act := DoSave(rec);
    case Update(value) =>
      var rec := Reuse(value, scrap);
      act := DoUpdate(rec);
    case Get(id) => act := DoGet(id);
    case Claim(now) => act := DoClaim(now);
    case Delete(id) => act := DoDelete(id);
    case List(filter) => act := DoList(filter);
    case Requeue(now, lease) => act := DoRequeue(now, lease);
    case Close => act := DoClose;
  }

  /** A client that knows these objects overwrites them all with anything and prepares its
      next call; the store is as it was. */
  method Prepare(store: MemoryStore, ghost known: set<object>, op: Op, scrap: HeapRec) returns (act: Action)
    requires store.Ok() && store !in known && known !! store.repr && Refs(scrap) <= known
    modifies known
    ensures store.Ok() && store.Abstract() == old(store.Abstract())
    ensures OpOf(act) == op && fresh(ActionRefs(act) - known)
  {
    ClientWrites(store, known);
    act := ActionFor(op, scrap);
  }

  /** The record whose objects the next call reuses: the last one passed or handed out. */
  function LastRecord(act: Action, reply: Reply, scrap: HeapRec): HeapRec {
    if reply.recs != [] then reply.recs[|reply.recs| - 1]
    else if act.DoSave? || act.DoUpdate? then act.rec
    else scrap
  }

  lemma LastRecordIncluded(act: Action, reply: Reply, scrap: HeapRec)
    ensures Refs(LastRecord(act, reply, scrap)) <= Refs(scrap) + ActionRefs(act) + AllRefs(reply.recs)
  {
    if reply.recs != [] {
      RefsIncluded(reply.recs, |reply.recs| - 1);
    }
  }

  /** One turn of a client that knows these objects: it overwrites them all with anything,
      makes the call, and keeps what it got. */
  method ClientTurn(store: MemoryStore, ghost known: set<object>, request: Request, scrap: HeapRec)
    returns (ghost answer: Response, ghost known': set<object>, scrap': HeapRec)
    requires store.Ok() && store !in known && known !! store.repr && Refs(scrap) <= known
    modifies store, known
    ensures store.Ok() && fresh(store.repr - old(store.repr))
    ensures (store.Abstract(), answer) == old(Call(store.Abstract(), request.op, request.ctxDone))
    ensures known <= known' && fresh(known' - known) && store !in known' && known' !! store.repr
    ensures Refs(scrap') <= known'
  {
    var act := Prepare(store, known, request.op, scrap);
    known' := known + ActionRefs(act);
    var reply := AnyCall(store, act, request.ctxDone, known');
    answer := Meaning(act, reply);
    known' := known' + AllRefs(reply.recs);
    scrap' := LastRecord(act, reply, scrap);
    LastRecordIncluded(act, reply, scrap);
  }

  /** A client that makes the calls of a script. Before each it overwrites every object it ever
      passed in or got back with anything, and it makes the records it passes out of such
      objects again: those of the last record it passed or was handed. The store ends in the
      very state, and gives the very answers, of the model on that script: what the client
      writes never reaches the store. */
  method AnyClient(store: MemoryStore, mine: set<object>, script: seq<Request>)
    returns (ghost answers: seq<Response>, ghost known: set<object>)
    requires store.Ok() && store !in mine && mine !! store.repr
    modifies store, mine
    ensures store.Ok() && store.Abstract() == After(old(store.Abstract()), script)
    ensures answers == Answers(old(store.Abstract()), script)
    ensures mine <= known && fresh(known - mine) && store !in known && known !! store.repr
  {
    known, answers := mine, [];
    var scrap := HeapRec([], "", null, 0, Unset, 0, 0, null, null);
    for turn := 0 to |script|
      invariant store.Ok() && fresh(store.repr - old(store.repr))
      invariant mine <= known && fresh(known - mine) && store !in known && known !! store.repr
      invariant Refs(scrap) <= known
      invariant store.Abstract() == After(old(store.Abstract()), script[..turn])
      invariant answers == Answers(old(store.Abstract()), script[..turn])
    {
      Extend(old(store.Abstract()), script, turn);
      ghost var answer;
      answer, known, scrap := ClientTurn(store, known, script[turn], scrap);
      answers := answers + [answer];
    }
    assert script[..|script|] == script;
  }

  /** The model's answers to a script. */
  ghost function Answers(s: State, cs: seq<Request>): seq<Response>
    requires Valid(s.records)
  {
    if cs == [] then []
    else
      var n := |cs| - 1;
      Answers(s, cs[..n]) + [Answer(At(s, cs, n), cs[n])]
  }

  lemma Extend(s: State, cs: seq<Request>, n: nat)
    requires Valid(s.records) && n < |cs|
    ensures After(s, cs[..n + 1]) == Then(After(s, cs[..n]), cs[n])
    ensures Answers(s, cs[..n + 1]) == Answers(s, cs[..n]) + [Answer(After(s, cs[..n]), cs[n])]
  {
    assert cs[..n + 1][..n] == cs[..n];
  }
}
