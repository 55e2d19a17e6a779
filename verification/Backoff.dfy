/** The retry delay (retryDelay in dispatcher/dispatcher.go): four strategies, two of them
    computed in float64, compared with the integer formulas the source documents. */
module Backoff {
  import opened GoInts
  import opened PowersOfTwo
  import opened Float64

  datatype Strategy = Constant | Linear | Exponential | ExponentialJitter | Unknown(name: string)

  /** Unspecified is a float-to-integer conversion out of range, whose value the Go
      specification leaves to the implementation. */
  datatype Delay = Exactly(ns: int) | Unspecified

  /** time.Duration: a 64-bit count of nanoseconds. */
  type Nanos = Int64

  /** float64(base) * math.Pow(2, attempt), capped by float64(maxDelay) when positive. */
  function ExpFloat(base: nat, maxDelay: int, attempt: nat): F64 {
    var exp := Mul(Float(base), PowTwo(attempt));
    if maxDelay > 0 && Greater(exp, Float(maxDelay)) then Float(maxDelay) else exp
  }

  /** Conversion of a non-negative float64 to time.Duration. */
  function ToDuration(f: F64): Delay {
    if f.Finite? && f.v < TWO_63 then Exactly(f.v) else Unspecified
  }

  /** The random draw is a parameter: rand.Int63n(n) is draw % n. */
  function RetryDelay(base: Nanos, maxDelay: Nanos, attempt: nat, strategy: Strategy, draw: nat): Delay {
    if base <= 0 then Exactly(0)
    else
      match strategy
      case Constant => Exactly(base)
      case Linear => Exactly(Wrap64(base * Wrap64(attempt + 1)))
      case Exponential => ToDuration(ExpFloat(base, maxDelay, attempt))
      case ExponentialJitter =>
        var exp := ExpFloat(base, maxDelay, attempt);
        if exp == Finite(0) then Exactly(0)
        else
          (match ToDuration(exp)
           case Exactly(bound) => if bound > 0 then Exactly(draw % bound) else Unspecified
           case Unspecified => Unspecified)
      case Unknown(_) => Exactly(0)
  }

  /** The documented integer: min(maxDelay, base * 2^attempt), uncapped if maxDelay <= 0. */
  function Documented(base: nat, maxDelay: int, attempt: nat): nat {
    var exp := Scaled(base, attempt);
    if 0 < maxDelay < exp then maxDelay else exp
  }

  // ---- The float computation refines the integer formula ----

  lemma FloatOfDuration(n: nat)
    requires n < TWO_63
    ensures Float(n) == Finite(Round53(n))
    ensures Round53(n) <= TWO_63 < Pow2(OVERFLOW_EXPONENT)
  {
    Powers();
    Pow2Monotone(64, OVERFLOW_EXPONENT);
    assert Pow2(64) == 2 * Pow2(63);
    Round53Monotone(n, TWO_63);
    Round53Small(1);
    Round53Scale(1, 63);
  }

  lemma PositiveRounded(n: nat)
    requires n > 0
    ensures Round53(n) > 0
  {
    Round53Small(1);
    Round53Monotone(1, n);
  }

  /** base * 2^attempt in float64: one rounding, and +Inf exactly from 2^1024 on. */
  lemma ExpFloatUncapped(base: nat, attempt: nat)
    requires 0 < base < TWO_63
    ensures Mul(Float(base), PowTwo(attempt))
         == (var r := Round53(Scaled(base, attempt)); if r < Pow2(OVERFLOW_EXPONENT) then Finite(r) else Inf)
  {
    FloatOfDuration(base);
    PositiveRounded(base);
    Round53Scale(base, attempt);
    var rb := Round53(base);
    if attempt < OVERFLOW_EXPONENT {
      Round53Scale(rb, attempt);
      Round53Representable(base);
      Round53Exact(rb);
    } else {
      Pow2Monotone(OVERFLOW_EXPONENT, attempt);
      MulMonotone(1, rb, Pow2(attempt));
    }
  }

  /** Capped or not, the float64 value is the documented integer rounded once to 53 digits. */
  lemma ExpFloatIsRounded(base: Nanos, maxDelay: Nanos, attempt: nat)
    requires base > 0
    ensures ExpFloat(base, maxDelay, attempt)
         == (var r := Round53(Documented(base, maxDelay, attempt));
             if r < Pow2(OVERFLOW_EXPONENT) then Finite(r) else Inf)
  {
    ExpFloatUncapped(base, attempt);
    var exp := Scaled(base, attempt);
    if maxDelay > 0 {
      FloatOfDuration(maxDelay);
      if exp <= maxDelay {
        Round53Monotone(exp, maxDelay);
      } else {
        Round53Monotone(maxDelay, exp);
      }
    }
  }

  lemma DocumentedPositive(base: nat, maxDelay: int, attempt: nat)
    requires base > 0
    ensures Documented(base, maxDelay, attempt) > 0
  {
    MulMonotone(1, base, Pow2(attempt));
  }

  /** Exponential is the documented integer rounded to 53 digits; out of range exactly when
      that is at least 2^63. */
  lemma ExponentialIsRounded(base: Nanos, maxDelay: Nanos, attempt: nat, draw: nat)
    requires base > 0
    ensures RetryDelay(base, maxDelay, attempt, Exponential, draw)
         == (var r := Round53(Documented(base, maxDelay, attempt));
             if r < TWO_63 then Exactly(r) else Unspecified)
  {
    ExpFloatIsRounded(base, maxDelay, attempt);
    FloatOfDuration(0);
  }

  /** The first integer that rounds up to 2^63 is 512 below it. */
  lemma RoundsToLimitIff(n: nat)
    ensures Round53(n) >= TWO_63 <==> n >= TWO_63 - 512
  {
    Powers();
    FloatOfDuration(0);
    NearLimit(TWO_53 - 1, 512);
    NearLimit(TWO_53 - 1, 511);
    if n >= TWO_63 - 512 {
      Round53Monotone(TWO_63 - 512, n);
    } else {
      Round53Monotone(n, TWO_63 - 513);
    }
  }

  /** Rounding between 2^63 - 1024 and 2^63, in units of 1024. */
  lemma NearLimit(q: nat, r: nat)
    requires q == TWO_53 - 1 && r < 1024
    ensures Round53(q * 1024 + r) == if r >= 512 then TWO_63 else TWO_63 - 1024
  {
    Powers();
    var n := q * 1024 + r;
    assert Pow2(63) == 2 * Pow2(62);
    BitLenUnique(n, 63);
    assert Excess(n) == 10;
    RoundToAt(n, 1024, q, r);
  }

  /** Both exponential strategies convert a float64 out of range, with a result that Go leaves
      to the implementation, if and only if the documented integer is at least 2^63 - 512. */
  lemma OutOfRangeIff(base: Nanos, maxDelay: Nanos, attempt: nat, strategy: Strategy, draw: nat)
    requires base > 0 && (strategy.Exponential? || strategy.ExponentialJitter?)
    ensures RetryDelay(base, maxDelay, attempt, strategy, draw) == Unspecified
       <==> Documented(base, maxDelay, attempt) >= TWO_63 - 512
  {
    ExponentialIsRounded(base, maxDelay, attempt, draw);
    JitterBelowExponential(base, maxDelay, attempt, draw);
    RoundsToLimitIff(Documented(base, maxDelay, attempt));
  }

  /** So a base of 1 ns without a cap is out of range at attempt 63. */
  lemma OutOfRangeExample(draw: nat)
    ensures RetryDelay(1, 0, 63, Exponential, draw) == Unspecified
    ensures RetryDelay(1, 0, 63, ExponentialJitter, draw) == Unspecified
  {
    Powers();
    OutOfRangeIff(1, 0, 63, Exponential, draw);
    OutOfRangeIff(1, 0, 63, ExponentialJitter, draw);
  }

  /** Exponential returns the documented integer if and only if that integer fits a 53-digit
      significand and 63 bits. */
  lemma ExponentialExactIff(base: Nanos, maxDelay: Nanos, attempt: nat, draw: nat)
    requires base > 0
    ensures RetryDelay(base, maxDelay, attempt, Exponential, draw) == Exactly(Documented(base, maxDelay, attempt))
       <==> Representable(Documented(base, maxDelay, attempt)) && Documented(base, maxDelay, attempt) < TWO_63
  {
    ExponentialIsRounded(base, maxDelay, attempt, draw);
    Round53Exact(Documented(base, maxDelay, attempt));
  }

  /** A cap of at most 2^53 ns (over 104 days) makes Exponential exact for every base and
      every attempt, the overflow to +Inf included. */
  lemma ExponentialExactUnderCap(base: Nanos, maxDelay: Nanos, attempt: nat, draw: nat)
    requires base > 0 && 0 < maxDelay <= TWO_53
    ensures RetryDelay(base, maxDelay, attempt, Exponential, draw) == Exactly(Documented(base, maxDelay, attempt))
    ensures 0 < Documented(base, maxDelay, attempt) <= maxDelay
  {
    ExponentialIsRounded(base, maxDelay, attempt, draw);
    Round53Small(Documented(base, maxDelay, attempt));
    DocumentedPositive(base, maxDelay, attempt);
  }

  /** Any positive cap: the delay is off the documented value by at most 512 ns, so it
      overshoots the cap by at most 512 ns, and it is undefined only for caps that round to 2^63. */
  lemma ExponentialNearCap(base: Nanos, maxDelay: Nanos, attempt: nat, draw: nat)
    requires base > 0 && maxDelay > 0
    ensures var d := RetryDelay(base, maxDelay, attempt, Exponential, draw);
            match d
            case Exactly(ns) => Distance(ns, Documented(base, maxDelay, attempt)) <= 512 && 0 < ns <= maxDelay + 512
            case Unspecified => Round53(maxDelay) == TWO_63
  {
    var doc := Documented(base, maxDelay, attempt);
    ExponentialIsRounded(base, maxDelay, attempt, draw);
    DocumentedPositive(base, maxDelay, attempt);
    PositiveRounded(doc);
    Round53Error(doc);
    Round53Monotone(doc, maxDelay);
    FloatOfDuration(maxDelay);
  }

  /** The cap holds for every base and attempt when it does not round up ... */
  lemma CapHolds(base: Nanos, maxDelay: Nanos, attempt: nat, draw: nat)
    requires base > 0 && maxDelay > 0 && Round53(maxDelay) <= maxDelay
    ensures var d := RetryDelay(base, maxDelay, attempt, Exponential, draw);
            d.Exactly? && 0 < d.ns <= maxDelay
  {
    ExponentialNearCap(base, maxDelay, attempt, draw);
    ExponentialIsRounded(base, maxDelay, attempt, draw);
    Round53Monotone(Documented(base, maxDelay, attempt), maxDelay);
  }

  /** ... and fails at the first attempt of a base equal to the cap when it does. */
  lemma CapFails(maxDelay: Nanos, draw: nat)
    requires maxDelay > 0 && Round53(maxDelay) > maxDelay
    ensures var d := RetryDelay(maxDelay, maxDelay, 0, Exponential, draw);
            d == Unspecified || d.ns > maxDelay
  {
    ExponentialIsRounded(maxDelay, maxDelay, 0, draw);
    assert Documented(maxDelay, maxDelay, 0) == maxDelay;
  }

  /** No cap below 2^53 + 3 ns rounds up ... */
  lemma SmallCapHolds(maxDelay: Nanos)
    requires 0 < maxDelay < TWO_53 + 3
    ensures Round53(maxDelay) <= maxDelay
  {
    Powers();
    if maxDelay <= TWO_53 {
      Round53Small(maxDelay);
    } else {
      BitLenUnique(maxDelay, 54);
      assert Excess(maxDelay) == 1 && Pow2(1) == 2;
      RoundToAt(maxDelay, 2, maxDelay / 2, maxDelay % 2);
    }
  }

  /** ... and that one is exceeded by one. */
  lemma CapFailsExample(draw: nat)
    ensures RetryDelay(TWO_53 + 3, TWO_53 + 3, 0, Exponential, draw) == Exactly(TWO_53 + 4)
  {
    Powers();
    var cap := TWO_53 + 3;
    BitLenUnique(cap, 54);
    assert Excess(cap) == 1 && Pow2(1) == 2;
    RoundToAt(cap, 2, TWO_53 / 2 + 1, 1);
    ExponentialIsRounded(cap, cap, 0, draw);
    assert Documented(cap, cap, 0) == cap;
  }

  /** While in range the delay never falls as the attempts go up; once out of range it stays so. */
  lemma ExponentialMonotone(base: Nanos, maxDelay: Nanos, early: nat, late: nat, draw: nat, draw': nat)
    requires base > 0 && early <= late
    ensures var d, d' := RetryDelay(base, maxDelay, early, Exponential, draw),
                         RetryDelay(base, maxDelay, late, Exponential, draw');
            && (d'.Exactly? ==> d.Exactly? && d.ns <= d'.ns)
            && (d == Unspecified ==> d' == Unspecified)
  {
    ExponentialIsRounded(base, maxDelay, early, draw);
    ExponentialIsRounded(base, maxDelay, late, draw');
    Pow2Monotone(early, late);
    MulMonotone(Pow2(early), Pow2(late), base);
    Round53Monotone(Documented(base, maxDelay, early), Documented(base, maxDelay, late));
  }

  /** Full jitter: where the conversion is in range, the argument of Int63n is the Exponential
      delay and positive, so the result is in [0, Exponential), and every value of that range is
      drawn by some draw. Out of range the argument is unspecified; a negative one makes Int63n
      panic. */
  lemma JitterBelowExponential(base: Nanos, maxDelay: Nanos, attempt: nat, draw: nat)
    requires base > 0
    ensures var d := RetryDelay(base, maxDelay, attempt, ExponentialJitter, draw);
            match RetryDelay(base, maxDelay, attempt, Exponential, draw)
            case Unspecified => d == Unspecified && Documented(base, maxDelay, attempt) >= TWO_63 - 512
            case Exactly(bound) => bound > 0 && d.Exactly? && 0 <= d.ns < bound
                                   && (draw < bound ==> d.ns == draw)
  {
    ExponentialIsRounded(base, maxDelay, attempt, draw);
    ExpFloatIsRounded(base, maxDelay, attempt);
    DocumentedPositive(base, maxDelay, attempt);
    PositiveRounded(Documented(base, maxDelay, attempt));
    FloatOfDuration(0);
    RoundsToLimitIff(Documented(base, maxDelay, attempt));
    DrawRange(draw, Round53(Documented(base, maxDelay, attempt)));
  }

  /** Under a cap of at most 2^53 ns that range is [0, min(maxDelay, base * 2^attempt)). */
  lemma JitterUnderCap(base: Nanos, maxDelay: Nanos, attempt: nat, draw: nat)
    requires base > 0 && 0 < maxDelay <= TWO_53
    ensures var d := RetryDelay(base, maxDelay, attempt, ExponentialJitter, draw);
            d.Exactly? && 0 <= d.ns < Documented(base, maxDelay, attempt)
  {
    ExponentialExactUnderCap(base, maxDelay, attempt, draw);
    JitterBelowExponential(base, maxDelay, attempt, draw);
  }

  lemma DrawRange(draw: nat, bound: nat)
    requires bound > 0
    ensures 0 <= draw % bound < bound
    ensures draw < bound ==> draw % bound == draw
  {
    if draw < bound {
      DivModUnique(draw, bound, 0, draw);
    }
  }

  /** Linear is base * (attempt + 1) if and only if that product fits 63 bits. */
  lemma LinearExactIff(base: Nanos, maxDelay: Nanos, attempt: nat, draw: nat)
    requires base > 0 && attempt + 1 < TWO_63
    ensures RetryDelay(base, maxDelay, attempt, Linear, draw) == Exactly(base * (attempt + 1))
       <==> base * (attempt + 1) < TWO_63
  {
  }

  /** ... and a product that does not fit wraps, here to the most negative delay: no wait. */
  lemma LinearWrapsExample(draw: nat)
    ensures RetryDelay(TWO_63 / 2, 0, 1, Linear, draw) == Exactly(-TWO_63)
  {
  }

  /** While it fits, Linear is strictly increasing up to that attempt. */
  lemma LinearIncreasing(base: Nanos, maxDelay: Nanos, early: nat, late: nat, draw: nat, draw': nat)
    requires base > 0 && early < late && late + 1 < TWO_63 && base * (late + 1) < TWO_63
    ensures var d, d' := RetryDelay(base, maxDelay, early, Linear, draw),
                         RetryDelay(base, maxDelay, late, Linear, draw');
            0 < d.ns < d'.ns
  {
    LinearExactIff(base, maxDelay, late, draw');
    MulMonotone(1, base, early + 1);
    MulMonotone(early + 2, late + 1, base);
    MulDistributes(early + 1, 1, base);
    LinearExactIff(base, maxDelay, early, draw);
  }

  // ---- The strategies compared ----

  lemma {:induction false} LinearBelowPow2(n: nat)
    ensures n + 1 <= Pow2(n)
  {
    if n > 0 {
      LinearBelowPow2(n - 1);
    }
  }

  /** Without a cap, and while base * 2^attempt is at most 2^53 ns, Constant waits the base,
      Linear at least as long, Exponential at least as long as Linear; at the first retry all
      three wait the base. */
  lemma StrategiesOrdered(base: Nanos, attempt: nat, draw: nat)
    requires base > 0 && Scaled(base, attempt) <= TWO_53
    ensures var c, l, e := RetryDelay(base, 0, attempt, Constant, draw), RetryDelay(base, 0, attempt, Linear, draw),
                           RetryDelay(base, 0, attempt, Exponential, draw);
            && c == Exactly(base) && l.Exactly? && e.Exactly?
            && c.ns <= l.ns <= e.ns
            && (attempt == 0 ==> c == l == e)
  {
    LinearBelowPow2(attempt);
    MulMonotone(attempt + 1, Pow2(attempt), base);
    MulMonotone(1, attempt + 1, base);
    MulMonotone(1, base, Pow2(attempt));
    MulMonotone(1, base, attempt + 1);
    LinearExactIff(base, 0, attempt, draw);
    ExponentialIsRounded(base, 0, attempt, draw);
    Round53Small(Scaled(base, attempt));
  }

  /** Without jitter, and while a Linear product fits 63 bits: the delay is specified but for an
      Exponential out of range; if it is, it is never negative, and positive if and only if the
      base is positive and the strategy known. */
  lemma WaitsIff(base: Nanos, maxDelay: Nanos, attempt: nat, strategy: Strategy, draw: nat)
    requires strategy.Linear? && base > 0 ==> base * (attempt + 1) < TWO_63
    requires !strategy.ExponentialJitter?
    ensures var d := RetryDelay(base, maxDelay, attempt, strategy, draw);
            var outOfRange := base > 0 && Documented(base, maxDelay, attempt) >= TWO_63 - 512;
            && (d == Unspecified <==> strategy.Exponential? && outOfRange)
            && (d.Exactly? ==> d.ns >= 0 && (d.ns > 0 <==> base > 0 && !strategy.Unknown?))
  {
    if base > 0 {
      match strategy
      case Linear =>
        MulMonotone(1, base, attempt + 1);
        MulMonotone(1, attempt + 1, base);
        LinearExactIff(base, maxDelay, attempt, draw);
      case Exponential =>
        OutOfRangeIff(base, maxDelay, attempt, Exponential, draw);
        ExponentialIsRounded(base, maxDelay, attempt, draw);
        DocumentedPositive(base, maxDelay, attempt);
        PositiveRounded(Documented(base, maxDelay, attempt));
      case _ =>
    }
  }
}
