/** Retry decisions shared by the proxy and the client (apiserversdk/util/http.go). Durations are nanoseconds. */
module Backoff {

  const TWO63: int := 0x8000_0000_0000_0000
  const TWO64: int := 0x1_0000_0000_0000_0000

  /** Signed 64-bit arithmetic keeps the low 64 bits of a product. */
  function Wrap64(x: int): (r: int)
    ensures -TWO63 <= r < TWO63 && (r - x) % TWO64 == 0
  {
    (x + TWO63) % TWO64 - TWO63
  }

  function Min(a: int, b: int): int { if a <= b then a else b }
  function Max(a: int, b: int): int { if a <= b then b else a }

  function Pow(b: nat, n: nat): nat {
    if n == 0 then 1 else b * Pow(b, n - 1)
  }

  function GetRetryBackoff(attempt: nat, init: int, factor: nat, max: int): int {
    Min(Wrap64(init * Pow(factor, attempt)), max)
  }

  predicate IsSuccessful(status: int) { 200 <= status < 300 }
  predicate IsRetryable(status: int) { status in {408, 429, 500, 502, 503, 504} }

  // ----- what the closed form means -----

  /** Multiply by the factor at each attempt, never past the maximum. */
  function Capped(n: nat, init: int, factor: nat, max: int): int {
    if n == 0 then Min(init, max) else Min(Capped(n - 1, init, factor, max) * factor, max)
  }

  predicate Fits(attempt: nat, init: int, factor: nat) {
    -TWO63 <= init * Pow(factor, attempt) < TWO63
  }

  lemma WrapOfFitting(x: int)
    requires -TWO63 <= x < TWO63
    ensures Wrap64(x) == x
  {
  }

  lemma MulGrows(a: int, f: nat)
    requires a >= 0 && f >= 1
    ensures a * f >= a
  {
  }

  lemma MulMonotone(a: int, b: int, f: nat)
    requires a <= b
    ensures a * f <= b * f
  {
  }

  lemma {:induction false} CappedInRange(n: nat, init: int, factor: nat, max: int)
    requires factor >= 1 && init >= 0 && max > 0
    ensures Min(init, max) <= Capped(n, init, factor, max) <= max
  {
    if n == 0 {
    } else {
      CappedInRange(n - 1, init, factor, max);
      MulGrows(Capped(n - 1, init, factor, max), factor);
    }
  }

  lemma {:induction false} CappedNondecreasing(m: nat, n: nat, init: int, factor: nat, max: int)
    requires factor >= 1 && init >= 0 && max > 0 && m <= n
    ensures Capped(m, init, factor, max) <= Capped(n, init, factor, max)
    decreases n
  {
    if m == n {
    } else {
      CappedNondecreasing(m, n - 1, init, factor, max);
      CappedInRange(n - 1, init, factor, max);
      MulGrows(Capped(n - 1, init, factor, max), factor);
    }
  }

  lemma {:induction false} CappedClosedForm(n: nat, init: int, factor: nat, max: int)
    requires factor >= 1 && init >= 0 && max > 0
    ensures Capped(n, init, factor, max) == Min(init * Pow(factor, n), max)
  {
    if n == 0 {
    } else {
      CappedClosedForm(n - 1, init, factor, max);
      CapStep(init * Pow(factor, n - 1), factor, max);
      Regroup(init, factor, Pow(factor, n - 1));
    }
  }

  lemma CapStep(p: int, factor: nat, max: int)
    requires factor >= 1 && max > 0
    ensures Min(Min(p, max) * factor, max) == Min(p * factor, max)
  {
    if p > max {
      MulGrows(max, factor);
      MulMonotone(max, p, factor);
    }
  }

  lemma Regroup(a: int, f: nat, p: nat)
    ensures a * (f * p) == a * p * f
  {
  }

  /** The backoff is iterated capped multiplication if and only if the product fits 64 bits or what
      they keep of it is past the maximum anyway. */
  lemma BackoffIsCappedExactlyWhen(n: nat, init: int, factor: nat, max: int)
    requires factor >= 1 && init >= 0 && 0 < max < TWO63
    ensures GetRetryBackoff(n, init, factor, max) == Capped(n, init, factor, max) <==>
            Fits(n, init, factor) || Wrap64(init * Pow(factor, n)) >= max
  {
    CappedClosedForm(n, init, factor, max);
    PowPositive(factor, n);
    MulGrows(init, Pow(factor, n));
    if Fits(n, init, factor) {
      WrapOfFitting(init * Pow(factor, n));
    }
  }

  // ----- the defaults -----

  const DEFAULT_INIT: int := 500_000_000
  const DEFAULT_MAX: int := 10_000_000_000
  const DEFAULT_FACTOR: nat := 2

  lemma {:induction false} PowSplits(b: nat, m: nat, n: nat)
    ensures Pow(b, m + n) == Pow(b, m) * Pow(b, n)
    decreases n
  {
    if n == 0 {
      assert Pow(b, n) == 1;
    } else {
      PowSplits(b, m, n - 1);
      calc {
        Pow(b, m + n);
        b * Pow(b, m + (n - 1));
        b * (Pow(b, m) * Pow(b, n - 1));
        Pow(b, m) * (b * Pow(b, n - 1));
        Pow(b, m) * Pow(b, n);
      }
    }
  }

  lemma {:induction false} PowPositive(b: nat, n: nat)
    requires b >= 1
    ensures Pow(b, n) >= 1
  {
    if n == 0 {
    } else {
      PowPositive(b, n - 1);
      MulGrows(Pow(b, n - 1), b);
    }
  }

  lemma PowersOfTwo()
    ensures Pow(2, 34) == 0x4_0000_0000 && Pow(2, 35) == 0x8_0000_0000
  {
    assert Pow(2, 4) == 16;
    PowSplits(2, 4, 4);
    PowSplits(2, 8, 8);
    assert Pow(2, 16) == 0x1_0000;
    assert Pow(2, 17) == 2 * Pow(2, 16);
    PowSplits(2, 17, 17);
    assert Pow(2, 35) == 2 * Pow(2, 34);
  }

  lemma {:induction false} PowNondecreasing(b: nat, m: nat, n: nat)
    requires b >= 1 && m <= n
    ensures Pow(b, m) <= Pow(b, n)
    decreases n
  {
    if m == n {
    } else {
      PowNondecreasing(b, m, n - 1);
      MulGrows(Pow(b, n - 1), b);
    }
  }

  /** With the default settings the product fits exactly up to attempt 34. */
  lemma DefaultFitsExactly(n: nat)
    ensures Fits(n, DEFAULT_INIT, DEFAULT_FACTOR) <==> n <= 34
  {
    PowersOfTwo();
    PowPositive(2, n);
    if n <= 34 {
      PowNondecreasing(2, n, 34);
    } else {
      PowNondecreasing(2, 35, n);
    }
  }

  // ----- past the attempts that fit -----

  lemma WrapDoubles(x: int)
    ensures Wrap64(2 * x) == Wrap64(2 * Wrap64(x))
  {
    WrapShift(2 * Wrap64(x), 2 * ((x + TWO63) / TWO64));
  }

  lemma WrapShift(y: int, k: int)
    ensures Wrap64(y + k * TWO64) == Wrap64(y)
  {
  }

  /** What 64 bits keep of the default product, from attempt 35 on. */
  const WRAPPED: seq<int> :=
    [
      -1_266_874_889_709_551_616, -2_533_749_779_419_103_232, -5_067_499_558_838_206_464, 8_311_744_956_033_138_688,
      -1_823_254_161_643_274_240, -3_646_508_323_286_548_480, -7_293_016_646_573_096_960, 3_860_710_780_563_357_696,
      7_721_421_561_126_715_392, -3_003_900_951_456_120_832, -6_007_801_902_912_241_664, 6_431_140_267_885_068_288,
      -5_584_463_537_939_415_040, 7_277_816_997_830_721_536, -3_891_110_078_048_108_544, -7_782_220_156_096_217_088,
      2_882_303_761_517_117_440, 5_764_607_523_034_234_880, -6_917_529_027_641_081_856, 4_611_686_018_427_387_904,
      -9_223_372_036_854_775_808, 0]

  lemma TableDoubles(i: nat)
    requires i < 21
    ensures WRAPPED[i + 1] == Wrap64(2 * WRAPPED[i])
  {
  }

  const CAPPED_ANYWAY: set<nat> := {38, 42, 43, 46, 48, 51, 52, 54}

  lemma TableSigns(n: nat)
    requires 35 <= n <= 55
    ensures if n in CAPPED_ANYWAY then WRAPPED[n - 35] >= DEFAULT_MAX else WRAPPED[n - 35] < 0
  {
  }

  lemma {:induction false} DefaultProduct(n: nat)
    requires 35 <= n <= 56
    ensures Wrap64(DEFAULT_INIT * Pow(DEFAULT_FACTOR, n)) == WRAPPED[n - 35]
  {
    if n == 35 {
      PowersOfTwo();
    } else {
      DefaultProduct(n - 1);
      WrapDoubles(DEFAULT_INIT * Pow(DEFAULT_FACTOR, n - 1));
      assert DEFAULT_INIT * Pow(DEFAULT_FACTOR, n) == 2 * (DEFAULT_INIT * Pow(DEFAULT_FACTOR, n - 1));
      TableDoubles(n - 36);
    }
  }

  lemma {:induction false} DefaultProductVanishes(n: nat)
    requires n >= 56
    ensures Wrap64(DEFAULT_INIT * Pow(DEFAULT_FACTOR, n)) == 0
  {
    if n == 56 {
      DefaultProduct(56);
    } else {
      DefaultProductVanishes(n - 1);
      WrapDoubles(DEFAULT_INIT * Pow(DEFAULT_FACTOR, n - 1));
      assert DEFAULT_INIT * Pow(DEFAULT_FACTOR, n) == 2 * (DEFAULT_INIT * Pow(DEFAULT_FACTOR, n - 1));
    }
  }

  /** With the default settings, for every attempt whose power still converts to an integer, the
      sleep is the intended one up to attempt 34 and at eight later ones; otherwise there is no wait at all. */
  lemma DefaultCappedExactlyWhen(n: nat)
    requires n <= 62
    ensures var sleep := GetRetryBackoff(n, DEFAULT_INIT, DEFAULT_FACTOR, DEFAULT_MAX);
            && (sleep == Capped(n, DEFAULT_INIT, DEFAULT_FACTOR, DEFAULT_MAX) <==> n <= 34 || n in CAPPED_ANYWAY)
            && (n > 34 && n !in CAPPED_ANYWAY ==> sleep <= 0)
            && (sleep == 0 <==> n >= 56)
  {
    hide Pow, Capped, Wrap64, Fits;
    DefaultFitsExactly(n);
    BackoffIsCappedExactlyWhen(n, DEFAULT_INIT, DEFAULT_FACTOR, DEFAULT_MAX);
    CappedInRange(n, DEFAULT_INIT, DEFAULT_FACTOR, DEFAULT_MAX);
    if n >= 56 {
      DefaultProductVanishes(n);
    } else if n >= 35 {
      DefaultProduct(n);
      TableSigns(n);
    }
  }
}
