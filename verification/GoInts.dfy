/** Go's 64-bit integers and their wrap-around. */
module GoInts {

  /** 2^63, 2^64. */
  const TWO_63: int := 0x8000_0000_0000_0000
  const TWO_64: int := 0x1_0000_0000_0000_0000
  const MAX_INT: int := TWO_63 - 1

  type Int64 = x: int | -TWO_63 <= x < TWO_63
  type UInt64 = x: int | 0 <= x < TWO_64

  /** Two's-complement wrap to 64 bits. */
  function Wrap64(x: int): (w: Int64)
    ensures -TWO_63 <= x < TWO_63 <==> w == x
    ensures (x - w) % TWO_64 == 0
  {
    (x + TWO_63) % TWO_64 - TWO_63
  }

  /** Addition on an unsigned 64-bit integer. */
  function Plus(x: UInt64, n: int): UInt64 {
    (x + n) % TWO_64
  }

  lemma PlusPlus(x: UInt64, m: int, n: int)
    ensures Plus(Plus(x, m), n) == Plus(x, m + n)
    ensures 0 <= x + n < TWO_64 ==> Plus(x, n) == x + n
  {
  }

  /** A signed counter after n increments. */
  function Increments(v: Int64, n: nat): Int64 {
    if n == 0 then v else Wrap64(Increments(v, n - 1) + 1)
  }

  lemma {:induction false} IncrementsWrap(v: Int64, n: nat)
    ensures Increments(v, n) == Wrap64(v + n)
  {
    if n > 0 {
      IncrementsWrap(v, n - 1);
      WrapStep(v + (n - 1), 1);
    }
  }

  lemma WrapStep(x: int, k: int)
    ensures Wrap64(Wrap64(x) + k) == Wrap64(x + k)
  {
  }

  lemma {:induction false} IncrementsShift(v: Int64, n: nat)
    ensures Increments(Wrap64(v + 1), n) == Increments(v, n + 1)
  {
    if n > 0 {
      IncrementsShift(v, n - 1);
    }
  }

  /** A wrapping counter is back at its start exactly after a multiple of 2^64 increments. */
  lemma IncrementsReturn(v: Int64, n: nat)
    ensures Increments(v, n) == v <==> n % TWO_64 == 0
  {
    IncrementsWrap(v, n);
  }
}
