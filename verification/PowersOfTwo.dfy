/** Powers of two, binary lengths, and the few facts about products and quotients that
    the rounding proofs need. */
module PowersOfTwo {

  function Pow2(n: nat): (r: nat)
    ensures r >= 1
  {
    if n == 0 then 1 else 2 * Pow2(n - 1)
  }

  /** The number of binary digits of n; 0 for n == 0. */
  function BitLen(n: nat): nat {
    if n == 0 then 0 else 1 + BitLen(n / 2)
  }

  lemma {:induction false} Pow2Add(a: nat, b: nat)
    ensures Pow2(a + b) == Pow2(a) * Pow2(b)
  {
    if a == 0 {
    } else {
      Pow2Add(a - 1, b);
      assert Pow2(a + b) == 2 * Pow2(a - 1 + b);
      MulAssoc(2, Pow2(a - 1), Pow2(b));
    }
  }

  lemma Pow2Monotone(a: nat, b: nat)
    requires a <= b
    ensures Pow2(a) <= Pow2(b)
  {
    Pow2Add(a, b - a);
    MulMonotone(1, Pow2(b - a), Pow2(a));
  }

  lemma {:induction false} BitLenBounds(n: nat)
    requires n > 0
    ensures BitLen(n) > 0
    ensures Pow2(BitLen(n) - 1) <= n < Pow2(BitLen(n))
  {
    if n == 1 {
      assert BitLen(0) == 0;
    } else {
      BitLenBounds(n / 2);
    }
  }

  /** A number between consecutive powers of two has exactly that many digits. */
  lemma BitLenUnique(n: nat, k: nat)
    requires k > 0 && Pow2(k - 1) <= n < Pow2(k)
    ensures BitLen(n) == k
  {
    BitLenBounds(n);
    if BitLen(n) < k {
      Pow2Monotone(BitLen(n), k - 1);
    } else if BitLen(n) > k {
      Pow2Monotone(k, BitLen(n) - 1);
    }
  }

  lemma BitLenScale(n: nat, k: nat)
    requires n > 0
    ensures BitLen(n * Pow2(k)) == BitLen(n) + k
  {
    BitLenBounds(n);
    var b := BitLen(n);
    Pow2Add(b - 1, k);
    Pow2Add(b, k);
    MulMonotone(Pow2(b - 1), n, Pow2(k));
    MulMonotone(n + 1, Pow2(b), Pow2(k));
    MulDistributes(n, 1, Pow2(k));
    BitLenUnique(n * Pow2(k), b + k);
  }

  lemma {:induction false} BitLenMonotone(a: nat, b: nat)
    requires a <= b
    ensures BitLen(a) <= BitLen(b)
  {
    if a > 0 {
      BitLenMonotone(a / 2, b / 2);
    }
  }

  lemma MulAssoc(a: int, b: int, c: int)
    ensures a * b * c == a * (b * c)
  {
  }

  lemma MulMonotone(a: int, b: int, c: nat)
    requires a <= b
    ensures a * c <= b * c
  {
  }

  lemma MulDistributes(a: int, b: int, c: int)
    ensures (a + b) * c == a * c + b * c
  {
  }

  /** Quotient and remainder are determined by the division equation. */
  lemma DivModUnique(n: nat, u: nat, q: nat, r: nat)
    requires u > 0 && n == q * u + r && r < u
    ensures n / u == q && n % u == r
  {
    var q' := n / u;
    assert n == q' * u + n % u;
    if q < q' {
      MulMonotone(q + 1, q', u);
    } else if q' < q {
      MulMonotone(q' + 1, q, u);
    }
  }
}
