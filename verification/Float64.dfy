/** The part of IEEE 754-2008 binary64 that the backoff arithmetic uses: non-negative
    integral values, round-to-nearest-even (section 4.3.1), overflow to +Inf, and the
    conversions to and from 64-bit integers. */
module Float64 {
  import opened GoInts
  import opened PowersOfTwo

  /** Digits of the binary64 significand, and the exponent at which finite values end. */
  const PRECISION: nat := 53
  const OVERFLOW_EXPONENT: nat := 1024
  /** 2^53. */
  const TWO_53: int := 0x20_0000_0000_0000

  datatype F64 = Finite(v: nat) | Inf | NaN

  // ---- Rounding ----

  /** The value of a significand m at exponent e. */
  function Scaled(m: nat, e: nat): nat {
    m * Pow2(e)
  }

  /** The values a 53-digit significand can carry. */
  ghost predicate Representable(x: nat) {
    exists m: nat, e: nat :: m < TWO_53 && x == Scaled(m, e)
  }

  /** How many low digits of n do not fit in the significand. */
  function Excess(n: nat): nat {
    if BitLen(n) <= PRECISION then 0 else BitLen(n) - PRECISION
  }

  /** n rounded to a multiple of u, ties to the even multiple. */
  function RoundTo(n: nat, u: nat): nat
    requires u > 0
  {
    var q := n / u;
    var r := n % u;
    if 2 * r > u || (2 * r == u && q % 2 == 1) then (q + 1) * u else q * u
  }

  /** n rounded to 53 significant binary digits. */
  function Round53(n: nat): nat {
    RoundTo(n, Pow2(Excess(n)))
  }

  function Distance(a: nat, b: nat): nat {
    if a <= b then b - a else a - b
  }

  lemma Powers()
    ensures Pow2(PRECISION) == TWO_53
    ensures Pow2(63) == TWO_63
    ensures Pow2(10) == 1024
  {
    assert Pow2(10) == 1024;
    Pow2Add(10, 10);
    assert Pow2(20) == 0x10_0000;
    Pow2Add(20, 20);
    Pow2Add(40, 10);
    Pow2Add(50, 3);
    Pow2Add(53, 10);
  }

  /** RoundTo in terms of any quotient and remainder. */
  lemma RoundToAt(n: nat, u: nat, q: nat, r: nat)
    requires n == q * u + r && r < u
    ensures RoundTo(n, u) == if 2 * r > u || (2 * r == u && q % 2 == 1) then q * u + u else q * u
  {
    DivModUnique(n, u, q, r);
    MulDistributes(q, 1, u);
  }

  lemma DivMod(n: nat, u: nat) returns (q: nat, r: nat)
    requires u > 0
    ensures n == q * u + r && r < u && q == n / u && r == n % u
  {
    q, r := n / u, n % u;
  }

  lemma RoundToBounds(n: nat, u: nat)
    requires u > 0
    ensures RoundTo(n, u) % u == 0
    ensures 2 * Distance(RoundTo(n, u), n) <= u
  {
    var q, r := DivMod(n, u);
    RoundToAt(n, u, q, r);
    MulDistributes(q, 1, u);
    DivModUnique(q * u, u, q, 0);
    DivModUnique(q * u + u, u, q + 1, 0);
  }

  lemma RoundToMonotone(a: nat, b: nat, u: nat)
    requires a <= b && u > 0
    ensures RoundTo(a, u) <= RoundTo(b, u)
  {
    var qa, ra := DivMod(a, u);
    var qb, rb := DivMod(b, u);
    RoundToAt(a, u, qa, ra);
    RoundToAt(b, u, qb, rb);
    if qa < qb {
      MulMonotone(qa + 1, qb, u);
      MulDistributes(qa, 1, u);
    } else if qb < qa {
      MulMonotone(qb + 1, qa, u);
      MulDistributes(qb, 1, u);
    }
  }

  /** A multiple of the unit is not moved. */
  lemma RoundToFixes(m: nat, u: nat)
    requires u > 0
    ensures RoundTo(m * u, u) == m * u
  {
    RoundToAt(m * u, u, m, 0);
  }

  lemma RoundToOne(n: nat)
    ensures RoundTo(n, Pow2(0)) == n
  {
    RoundToFixes(n, 1);
  }

  lemma RoundToScale(n: nat, u: nat, p: nat)
    requires u > 0 && p > 0
    ensures u * p > 0 && RoundTo(n * p, u * p) == RoundTo(n, u) * p
  {
    var q, r := DivMod(n, u);
    RoundToAt(n, u, q, r);
    MulDistributes(q * u, r, p);
    MulAssoc(q, u, p);
    MulMonotone(r + 1, u, p);
    MulDistributes(r, 1, p);
    RoundToAt(n * p, u * p, q, r * p);
    MulDistributes(q * u, u, p);
    MulAssoc(2, r, p);
    if 2 * r > u {
      MulMonotone(u + 1, 2 * r, p);
      MulDistributes(u, 1, p);
    } else if 2 * r < u {
      MulMonotone(2 * r + 1, u, p);
      MulDistributes(2 * r, 1, p);
    }
  }

  lemma LongLength(n: nat, sh: nat)
    requires sh > 0 && BitLen(n) == PRECISION + sh
    ensures Pow2(BitLen(n) - 1) == Pow2(PRECISION - 1) * Pow2(sh)
    ensures Pow2(BitLen(n)) == Pow2(PRECISION) * Pow2(sh)
  {
    Pow2Add(PRECISION - 1, sh);
    Pow2Add(PRECISION, sh);
  }

  /** The rounding unit of a long number: its quotient has exactly 53 digits. */
  lemma LongQuotient(n: nat)
    requires Excess(n) > 0
    ensures Pow2(PRECISION - 1) <= n / Pow2(Excess(n)) < Pow2(PRECISION)
    ensures Pow2(BitLen(n) - 1) == Pow2(PRECISION - 1) * Pow2(Excess(n))
    ensures Pow2(BitLen(n)) == Pow2(PRECISION) * Pow2(Excess(n))
  {
    var sh := Excess(n);
    LongLength(n, sh);
    BitLenBounds(n);
    QuotientBounds(n, Pow2(sh), Pow2(PRECISION - 1), Pow2(PRECISION));
  }

  lemma QuotientBounds(n: nat, u: nat, lo: nat, hi: nat)
    requires u > 0 && lo * u <= n < hi * u
    ensures lo <= n / u < hi
  {
    var q, r := DivMod(n, u);
    if q < lo {
      MulMonotone(q + 1, lo, u);
      MulDistributes(q, 1, u);
    }
    if hi <= q {
      MulMonotone(hi, q, u);
    }
  }

  lemma RoundToRange(n: nat, u: nat, lo: nat, hi: nat)
    requires u > 0 && lo <= n / u < hi
    ensures lo * u <= RoundTo(n, u) <= hi * u
  {
    var q, r := DivMod(n, u);
    RoundToAt(n, u, q, r);
    MulMonotone(lo, q, u);
    MulMonotone(q + 1, hi, u);
    MulDistributes(q, 1, u);
  }

  /** The rounded value lies in the closed binade of its argument. */
  lemma Round53Binade(n: nat)
    requires n > 0
    ensures Pow2(BitLen(n) - 1) <= Round53(n) <= Pow2(BitLen(n))
  {
    if Excess(n) == 0 {
      BitLenBounds(n);
      RoundToOne(n);
    } else {
      LongQuotient(n);
      RoundToRange(n, Pow2(Excess(n)), Pow2(PRECISION - 1), Pow2(PRECISION));
    }
  }

  lemma SameLengthMonotone(a: nat, b: nat)
    requires a <= b && BitLen(a) == BitLen(b)
    ensures Round53(a) <= Round53(b)
  {
    RoundToMonotone(a, b, Pow2(Excess(a)));
  }

  lemma LongerMonotone(a: nat, b: nat)
    requires 0 < a < b && BitLen(a) < BitLen(b)
    ensures Round53(a) <= Round53(b)
  {
    Round53Binade(a);
    Round53Binade(b);
    Pow2Monotone(BitLen(a), BitLen(b) - 1);
  }

  lemma Round53Monotone(a: nat, b: nat)
    requires a <= b
    ensures Round53(a) <= Round53(b)
  {
    BitLenMonotone(a, b);
    if a == 0 {
      Round53Small(0);
    } else if BitLen(a) == BitLen(b) {
      SameLengthMonotone(a, b);
    } else {
      LongerMonotone(a, b);
    }
  }

  /** A number of at most 53 digits stays exact when scaled. */
  lemma RoundScaledShort(n: nat, k: nat, sh: nat)
    requires sh <= k
    ensures RoundTo(n * Pow2(k), Pow2(sh)) == n * Pow2(k)
  {
    Pow2Add(k - sh, sh);
    MulAssoc(n, Pow2(k - sh), Pow2(sh));
    RoundToFixes(n * Pow2(k - sh), Pow2(sh));
  }

  /** Rounding commutes with scaling by a power of two: only the exponent moves. */
  lemma Round53Scale(n: nat, k: nat)
    ensures Round53(n * Pow2(k)) == Round53(n) * Pow2(k)
  {
    if n == 0 {
      RoundToOne(0);
    } else {
      BitLenScale(n, k);
      var sh := Excess(n);
      if sh > 0 {
        Pow2Add(sh, k);
        RoundToScale(n, Pow2(sh), Pow2(k));
        assert Excess(n * Pow2(k)) == sh + k;
      } else {
        RoundToOne(n);
        RoundScaledShort(n, k, Excess(n * Pow2(k)));
      }
    }
  }

  lemma ShortHasNoExcess(n: nat)
    requires n < TWO_53
    ensures Excess(n) == 0
  {
    Powers();
    if n > 0 {
      BitLenBounds(n);
      if BitLen(n) > PRECISION {
        Pow2Monotone(PRECISION, BitLen(n) - 1);
      }
    }
  }

  lemma Round53Small(n: nat)
    requires n <= TWO_53
    ensures Round53(n) == n
  {
    if n < TWO_53 {
      ShortHasNoExcess(n);
      RoundToOne(n);
    } else {
      Powers();
      ShortHasNoExcess(1);
      RoundToOne(1);
      Round53Scale(1, PRECISION);
    }
  }

  lemma Round53Representable(n: nat)
    ensures Representable(Round53(n))
  {
    Powers();
    var sh := Excess(n);
    if sh == 0 {
      RoundToOne(n);
      if n == 0 {
      } else {
        BitLenBounds(n);
        Pow2Monotone(BitLen(n), PRECISION);
      }
      assert n == Scaled(n, 0);
    } else {
      LongQuotient(n);
      var u := Pow2(sh);
      var q, r := DivMod(n, u);
      RoundToAt(n, u, q, r);
      MulDistributes(q, 1, u);
      if Round53(n) == Scaled(q, sh) {
      } else if q + 1 < TWO_53 {
        assert Round53(n) == Scaled(q + 1, sh);
      } else {
        Pow2Add(PRECISION, sh);
        assert Round53(n) == Scaled(1, PRECISION + sh);
      }
    }
  }

  /** Exactly the 53-digit values survive rounding. */
  lemma Round53Exact(n: nat)
    ensures Round53(n) == n <==> Representable(n)
  {
    Round53Representable(n);
    if Representable(n) {
      var m: nat, e: nat :| m < TWO_53 && n == Scaled(m, e);
      Round53Small(m);
      Round53Scale(m, e);
    }
  }

  /** In the binade of n and above, every 53-digit value is a multiple of the rounding unit. */
  lemma RepresentableIsMultiple(y: nat, sh: nat) returns (k: nat)
    requires Representable(y) && Pow2(PRECISION - 1) * Pow2(sh) <= y
    ensures y == k * Pow2(sh)
  {
    var m: nat, e: nat :| m < TWO_53 && y == Scaled(m, e);
    if e >= sh {
      Pow2Add(e - sh, sh);
      MulAssoc(m, Pow2(e - sh), Pow2(sh));
      k := m * Pow2(e - sh);
    } else {
      Powers();
      Pow2Monotone(e + 1, sh);
      MulMonotone(Pow2(e + 1), Pow2(sh), Pow2(PRECISION - 1));
      MulMonotone(m + 1, 2 * Pow2(PRECISION - 1), Pow2(e));
      MulDistributes(m, 1, Pow2(e));
      assert Pow2(PRECISION - 1) * (2 * Pow2(e)) == 2 * Pow2(PRECISION - 1) * Pow2(e);
      assert false;
    }
  }

  /** Among the multiples of u, RoundTo picks a nearest one, and on a tie an even one. */
  lemma RoundToNearest(n: nat, u: nat, k: nat)
    requires u > 0
    ensures Distance(RoundTo(n, u), n) <= Distance(k * u, n)
    ensures Distance(RoundTo(n, u), n) == Distance(k * u, n) && RoundTo(n, u) != k * u
            ==> RoundTo(n, u) % (2 * u) == 0
  {
    var q, r := DivMod(n, u);
    RoundToAt(n, u, q, r);
    MulDistributes(q, 1, u);
    if k < q {
      MulMonotone(k + 1, q, u);
      MulDistributes(k, 1, u);
    } else if k > q + 1 {
      MulMonotone(q + 2, k, u);
      MulDistributes(q, 2, u);
    }
    if 2 * r == u {
      var half := (q + 1) / 2;
      MulAssoc(half, 2, u);
      DivModUnique(half * 2 * u, 2 * u, half, 0);
    }
  }

  /** Round53 is round-to-nearest-even: no 53-digit value is nearer, and when another one
      is equally near, the chosen one is even in units of its last place. */
  lemma Round53Nearest(n: nat, y: nat)
    requires Representable(y)
    ensures Distance(Round53(n), n) <= Distance(y, n)
    ensures Distance(Round53(n), n) == Distance(y, n) && y != Round53(n)
            ==> Round53(n) % (2 * Pow2(Excess(n))) == 0
  {
    var sh := Excess(n);
    if sh == 0 {
      RoundToOne(n);
    } else {
      var lo := Pow2(PRECISION - 1) * Pow2(sh);
      LongQuotient(n);
      BitLenBounds(n);
      if y >= lo {
        var k := RepresentableIsMultiple(y, sh);
        RoundToNearest(n, Pow2(sh), k);
      } else {
        RoundToNearest(n, Pow2(sh), Pow2(PRECISION - 1));
      }
    }
  }

  /** Below 2^63 the rounding error is at most half of 2^10. */
  lemma Round53Error(n: nat)
    requires n < TWO_63
    ensures Distance(Round53(n), n) <= 512
  {
    Powers();
    if n > 0 {
      BitLenBounds(n);
      if BitLen(n) > 63 {
        Pow2Monotone(63, BitLen(n) - 1);
      }
    }
    RoundToBounds(n, Pow2(Excess(n)));
    Pow2Monotone(Excess(n), 10);
  }

  // ---- Operations ----

  /** The float64 nearest to a non-negative integer. */
  function Float(n: nat): F64 {
    var r := Round53(n);
    if r < Pow2(OVERFLOW_EXPONENT) then Finite(r) else Inf
  }

  function Mul(a: F64, b: F64): F64 {
    match (a, b)
    case (NaN, _) => NaN
    case (_, NaN) => NaN
    case (Finite(x), Finite(y)) => Float(x * y)
    case (Finite(x), Inf) => if x == 0 then NaN else Inf
    case (Inf, Finite(y)) => if y == 0 then NaN else Inf
    case (Inf, Inf) => Inf
  }

  predicate Greater(a: F64, b: F64) {
    match (a, b)
    case (Finite(x), Finite(y)) => x > y
    case (Inf, Finite(_)) => true
    case _ => false
  }

  /** math.Pow(2, n) for n >= 0: exact while finite. */
  function PowTwo(n: nat): F64 {
    if n < OVERFLOW_EXPONENT then Finite(Pow2(n)) else Inf
  }
}
