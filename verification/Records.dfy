/** Job records and their order: creation time, then ID (backend/backend.go). */
module Records {
  import opened GoInts
  import opened Wrappers

  type Byte = x: int | 0 <= x < 256

  /** A Go string: bytes, compared lexicographically. */
  type ID = seq<Byte>

  /** A status string: empty, one of the four constants, or any other. */
  datatype Status = Unset | Pending | Running | Succeeded | Failed | Other(name: string)

  /** An instant, in nanoseconds. */
  type Time = int

  /** A JobRecord by value: an absent payload or time is nil. */
  datatype Rec = Rec(
    id: ID, name: string, payload: Option<seq<Byte>>, attempts: UInt64, status: Status, version: Int64,
    createdAt: Time, startedAt: Option<Time>, finishedAt: Option<Time>)

  datatype Error = CtxDone | StoreClosed | AlreadyExists | NotFound | Conflict | NegativeLease

  datatype Filter = Filter(status: Option<Status>, limit: Int64)

  /** What cloneRecord makes of a record: appending no bytes to a nil slice leaves it nil. */
  function Normal(r: Rec): Rec {
    if r.payload == Some([]) then r.(payload := None) else r
  }

  // ---- Order ----

  predicate IdLess(a: ID, b: ID) {
    b != [] && (a == [] || a[0] < b[0] || (a[0] == b[0] && IdLess(a[1..], b[1..])))
  }

  predicate KeyBefore(t: Time, a: ID, u: Time, b: ID) {
    t < u || (t == u && IdLess(a, b))
  }

  predicate Before(a: Rec, b: Rec) {
    KeyBefore(a.createdAt, a.id, b.createdAt, b.id)
  }

  lemma {:induction false} IdLessTotal(a: ID, b: ID)
    ensures a == b || IdLess(a, b) || IdLess(b, a)
  {
    if a != [] && b != [] && a[0] == b[0] {
      IdLessTotal(a[1..], b[1..]);
      assert a == [a[0]] + a[1..] && b == [b[0]] + b[1..];
    }
  }

  lemma {:induction false} IdLessAsymmetric(a: ID, b: ID)
    requires IdLess(a, b)
    ensures !IdLess(b, a)
  {
    if a != [] && a[0] == b[0] {
      IdLessAsymmetric(a[1..], b[1..]);
    }
  }

  lemma {:induction false} IdLessTransitive(a: ID, b: ID, c: ID)
    requires IdLess(a, b) && IdLess(b, c)
    ensures IdLess(a, c)
  {
    if a != [] && a[0] == b[0] == c[0] {
      IdLessTransitive(a[1..], b[1..], c[1..]);
    }
  }

  /** Keys are strictly ordered, and different IDs are always comparable. */
  lemma KeyOrder(t: Time, a: ID, u: Time, b: ID, v: Time, c: ID)
    ensures !(KeyBefore(t, a, u, b) && KeyBefore(u, b, t, a))
    ensures a != b ==> KeyBefore(t, a, u, b) || KeyBefore(u, b, t, a)
    ensures KeyBefore(t, a, u, b) && KeyBefore(u, b, v, c) ==> KeyBefore(t, a, v, c)
  {
    if t == u {
      IdLessTotal(a, b);
      if IdLess(a, b) {
        IdLessAsymmetric(a, b);
        if u == v && IdLess(b, c) {
          IdLessTransitive(a, b, c);
        }
      }
    }
  }

  lemma BeforeIsOrder(a: Rec, b: Rec, c: Rec)
    ensures !(Before(a, b) && Before(b, a))
    ensures a.id != b.id ==> Before(a, b) || Before(b, a)
    ensures Before(a, b) && Before(b, c) ==> Before(a, c)
  {
    KeyOrder(a.createdAt, a.id, b.createdAt, b.id, c.createdAt, c.id);
  }

  // ---- The order in plain terms ----

  /** a is a proper prefix of b, or has the smaller byte at the first difference, k. */
  predicate DiffersAt(a: ID, b: ID, k: nat) {
    && k <= |a| && k < |b| && a[..k] == b[..k]
    && (k < |a| ==> a[k] < b[k])
  }

  ghost predicate SmallerBytes(a: ID, b: ID) {
    exists k: nat :: DiffersAt(a, b, k)
  }

  /** Created earlier, or at the same time with the smaller ID. */
  ghost predicate Earlier(a: Rec, b: Rec) {
    a.createdAt < b.createdAt || (a.createdAt == b.createdAt && SmallerBytes(a.id, b.id))
  }

  lemma SameHeads(a: ID, b: ID, k: nat)
    requires DiffersAt(a, b, k)
    ensures k > 0 ==> a[0] == b[0]
  {
    assert k > 0 ==> a[..k][0] == a[0] && b[..k][0] == b[0];
  }

  lemma {:induction false} IdLessIff(a: ID, b: ID)
    ensures IdLess(a, b) <==> SmallerBytes(a, b)
  {
    if a != [] && b != [] && a[0] == b[0] {
      IdLessIff(a[1..], b[1..]);
      if IdLess(a, b) {
        var k: nat :| DiffersAt(a[1..], b[1..], k);
        assert a[..k + 1] == [a[0]] + a[1..][..k] && b[..k + 1] == [b[0]] + b[1..][..k];
        assert DiffersAt(a, b, k + 1);
      }
      if k: nat :| DiffersAt(a, b, k) {
        assert k > 0;
        assert a[1..][..k - 1] == a[..k][1..] && b[1..][..k - 1] == b[..k][1..];
        assert DiffersAt(a[1..], b[1..], k - 1);
      }
    } else {
      if IdLess(a, b) {
        assert DiffersAt(a, b, 0);
      }
      if k: nat :| DiffersAt(a, b, k) {
        SameHeads(a, b, k);
      }
    }
  }

  lemma BeforeIff(a: Rec, b: Rec)
    ensures Before(a, b) <==> Earlier(a, b)
  {
    IdLessIff(a.id, b.id);
  }

  ghost predicate Sorted(rs: seq<Rec>) {
    forall i, j :: 0 <= i < j < |rs| ==> Before(rs[i], rs[j])
  }

  /** A strictly sorted sequence is determined by its elements. */
  lemma {:induction false} SortedUnique(xs: seq<Rec>, ys: seq<Rec>)
    requires Sorted(xs) && Sorted(ys) && forall r: Rec :: r in xs <==> r in ys
    ensures xs == ys
  {
    if xs == [] || ys == [] {
      SameEmptiness(xs, ys);
    } else {
      assert xs[0] in ys;
      var k :| 0 <= k < |ys| && ys[k] == xs[0];
      assert ys[0] in xs;
      var l :| 0 <= l < |xs| && xs[l] == ys[0];
      BeforeIsOrder(xs[0], ys[0], xs[0]);
      assert k == 0;
      SortedTails(xs, ys);
      SortedUnique(xs[1..], ys[1..]);
      assert xs == [xs[0]] + xs[1..] && ys == [ys[0]] + ys[1..];
    }
  }

  lemma SameEmptiness(xs: seq<Rec>, ys: seq<Rec>)
    requires forall r: Rec :: r in xs <==> r in ys
    ensures xs == [] <==> ys == []
  {
    assert xs != [] ==> xs[0] in xs;
    assert ys != [] ==> ys[0] in ys;
  }

  lemma SortedTails(xs: seq<Rec>, ys: seq<Rec>)
    requires xs != [] && ys != [] && xs[0] == ys[0]
    requires Sorted(xs) && Sorted(ys) && forall r: Rec :: r in xs <==> r in ys
    ensures Sorted(xs[1..]) && Sorted(ys[1..])
    ensures forall r: Rec :: r in xs[1..] <==> r in ys[1..]
  {
    forall r: Rec | r in xs[1..]
      ensures r in ys[1..]
    {
      HeadNotInTail(xs, r);
      assert r in ys && ys == [ys[0]] + ys[1..];
    }
    forall r: Rec | r in ys[1..]
      ensures r in xs[1..]
    {
      HeadNotInTail(ys, r);
      assert r in xs && xs == [xs[0]] + xs[1..];
    }
  }

  lemma HeadNotInTail(xs: seq<Rec>, r: Rec)
    requires Sorted(xs) && xs != [] && r in xs[1..]
    ensures r in xs && r != xs[0]
  {
    var k :| 0 <= k < |xs[1..]| && xs[1..][k] == r;
    assert xs[k + 1] == r && Before(xs[0], xs[k + 1]);
    BeforeIsOrder(r, r, r);
  }
}
