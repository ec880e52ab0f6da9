// ln_ratio of deterministic_math.rs in exact arithmetic: take square roots until
// the ratio is close to one, finish with the atanh series, double back up.
module LnExact {
  import opened RealPowers
  import opened AtanhSeries
  import opened AtanhTerms

  const MAX_ROOTS := 10
  const MAX_RATIO := 4096.0
  const REDUCED_RATIO := 1.0625

  // A bound on the ratio after k roots, rounded or not, of anything up to 4096.
  function Cap(k: nat): real {
    if k == 0 then 4096.0 else if k == 1 then 64.001 else if k == 2 then 8.001
    else if k == 3 then 2.83 else if k == 4 then 1.6825 else if k == 5 then 1.2975
    else if k == 6 then 1.1395 else if k == 7 then 1.0679 else 1.0343
  }

  lemma ScaleStart(inner: real)
    ensures Prod(Exp2(0) as real, inner) == inner
  {
  }

  lemma ScaleStep(inner: real, i: nat)
    ensures Prod(Exp2(i + 1) as real, inner) == Prod(Exp2(i) as real, inner) * 2.0
  {
    var n := Exp2(i) as real;
    assert Exp2(i + 1) as real == 2.0 * n;
    assert Prod(2.0 * n, inner) == Prod(n, inner) * 2.0;
  }

  lemma RootBetween(sqrt: real -> real, x: real, bound: real)
    requires IsSqrt(sqrt) && 1.0 <= x <= Sq(bound) && bound >= 1.0
    ensures 1.0 <= sqrt(x) <= bound
    ensures x > 1.0 ==> sqrt(x) > 1.0
  {
    var r := sqrt(x);
    assert r >= 0.0 && Sq(r) == x;
    assert Sq(1.0) == 1.0 && Sq(0.0) == 0.0;
    hide IsSqrt;
    if 0.0 < r < 1.0 {
      ProdMonotone(r, 1.0, r, 1.0);
    } else if r > bound {
      ProdMonotone(bound, r, bound, r);
    }
    hide Prod;
  }

  // The reduction loop: the reduced ratio and the number of roots taken.
  function Reduce(sqrt: real -> real, x: real, left: nat): (real, nat)
    decreases left
  {
    if x > REDUCED_RATIO && left > 0 then
      var (reduced, k) := Reduce(sqrt, sqrt(x), left - 1);
      (reduced, k + 1)
    else
      (x, 0)
  }

  lemma {:induction false} ReduceExact(sqrt: real -> real, x: real, left: nat, taken: nat)
    requires IsSqrt(sqrt) && 1.0 <= x <= Cap(taken) && left + taken == MAX_ROOTS
    ensures var (reduced, k) := Reduce(sqrt, x, left);
            && (taken <= 8 ==> k + taken <= 8)
            && 1.0 <= reduced <= REDUCED_RATIO
            && (k > 0 ==> Sq(reduced) > REDUCED_RATIO)
            && Pow(reduced, Exp2(k)) == x
    decreases left
  {
    hide IsSqrt, Sq, Prod;
    if x > REDUCED_RATIO {
      ExactRoot(sqrt, x, taken);
      ReduceExact(sqrt, sqrt(x), left - 1, taken + 1);
      var (reduced, k) := Reduce(sqrt, sqrt(x), left - 1);
      PowDouble(reduced, k);
      SqOfRoot(sqrt, x);
    } else {
      ProdAlgebra(x, 1.0, 1.0);
      assert Pow(x, 1) == Prod(x, Pow(x, 0));
    }
  }

  lemma {:induction false} PowGrows(x: real, m: nat, n: nat)
    requires x >= 1.0 && m <= n
    ensures 1.0 <= Pow(x, m) <= Pow(x, n)
  {
    if n > 0 {
      PowGrows(x, 0, n - 1);
      ProductMonotone(1.0, Pow(x, n - 1), x, Pow(x, n - 1));
      if m < n {
        PowGrows(x, m, n - 1);
      }
    }
  }

  lemma FewRoots(reduced: real, x: real, k: nat, j: nat)
    requires 1.0 <= reduced <= REDUCED_RATIO && Pow(reduced, Exp2(k)) == x && k <= j
    ensures x <= Pow(REDUCED_RATIO, Exp2(j))
  {
    hide Pow, Exp2;
    PowMonotone(reduced, REDUCED_RATIO, Exp2(k));
    Exp2Monotone(k, j);
    PowGrows(REDUCED_RATIO, Exp2(k), Exp2(j));
  }

  lemma ManyRoots(reduced: real, x: real, k: nat, j: nat)
    requires reduced >= 1.0 && Sq(reduced) > REDUCED_RATIO && Pow(reduced, Exp2(k)) == x && k > j
    ensures x > Pow(REDUCED_RATIO, Exp2(j))
  {
    hide Pow, Exp2, Sq;
    PowOfSquare(reduced, k - 1);
    PowMonotone(REDUCED_RATIO, Sq(reduced), Exp2(k - 1));
    Exp2Monotone(j, k - 1);
    PowGrows(REDUCED_RATIO, Exp2(j), Exp2(k - 1));
  }

  // The number of roots taken is the least that brings the ratio down to the
  // limit: j roots are enough exactly for ratios up to the limit's 2^j-th power.
  lemma RootsExactly(sqrt: real -> real, x: real, j: nat)
    requires IsSqrt(sqrt) && 1.0 <= x <= MAX_RATIO
    ensures Reduce(sqrt, x, MAX_ROOTS).1 <= j <==> x <= Pow(REDUCED_RATIO, Exp2(j))
  {
    hide IsSqrt, Reduce, Pow, Exp2, Sq;
    ReduceExact(sqrt, x, MAX_ROOTS, 0);
    var (reduced, k) := Reduce(sqrt, x, MAX_ROOTS);
    if k <= j {
      FewRoots(reduced, x, k, j);
    } else {
      ManyRoots(reduced, x, k, j);
    }
  }

  // One squaring of a power of the limit that lies between two bounds.
  lemma SquaredBetween(n: nat, low: real, high: real, low2: real, high2: real)
    requires 0.0 < low <= Pow(REDUCED_RATIO, n) <= high && low2 <= low * low && high * high <= high2
    ensures low2 <= Pow(REDUCED_RATIO, 2 * n) <= high2
  {
    var p := Pow(REDUCED_RATIO, n);
    assert Pow(REDUCED_RATIO, 2 * n) == Prod(p, p) by {
      hide Pow, Prod;
      PowAdd(REDUCED_RATIO, n, n);
    }
    hide Pow;
    ProductMonotone(low, low, p, p);
    ProductMonotone(p, p, high, high);
  }

  lemma EighthPower()
    ensures Pow(REDUCED_RATIO, 1) == REDUCED_RATIO && 1.624 <= Pow(REDUCED_RATIO, 8) <= 1.6242
  {
    assert Pow(REDUCED_RATIO, 1) == Prod(REDUCED_RATIO, Pow(REDUCED_RATIO, 0));
    hide Pow;
    SquaredBetween(1, 1.0625, 1.0625, 1.1289, 1.12891);
    SquaredBetween(2, 1.1289, 1.12891, 1.2744, 1.27444);
    SquaredBetween(4, 1.2744, 1.27444, 1.624, 1.6242);
  }

  lemma TopPower()
    ensures 2339.6 <= Pow(REDUCED_RATIO, 128) <= 2347.5
  {
    EighthPower();
    hide Pow;
    SquaredBetween(8, 1.624, 1.6242, 2.6373, 2.6381);
    SquaredBetween(16, 2.6373, 2.6381, 6.955, 6.96);
    SquaredBetween(32, 6.955, 6.96, 48.37, 48.45);
    SquaredBetween(64, 48.37, 48.45, 2339.6, 2347.5);
  }

  // The 137th power of the limit is below 4096 and the 138th above it.
  lemma LimitPowers()
    ensures Pow(REDUCED_RATIO, 128) < Pow(REDUCED_RATIO, 137) < MAX_RATIO < Pow(REDUCED_RATIO, 138)
  {
    EighthPower();
    TopPower();
    hide Pow;
    ProductBetween(128, 8, 2339.6, 2347.5, 1.624, 1.6242, 3799.5, 3813.0);
    ProductBetween(136, 1, 3799.5, 3813.0, 1.0625, 1.0625, 4036.0, 4052.0);
    ProductBetween(137, 1, 4036.0, 4052.0, 1.0625, 1.0625, 4288.0, 4306.0);
  }

  lemma ProductBetween(m: nat, n: nat, low: real, high: real, low1: real, high1: real, low2: real, high2: real)
    requires 0.0 < low <= Pow(REDUCED_RATIO, m) <= high && 0.0 < low1 <= Pow(REDUCED_RATIO, n) <= high1
    requires low2 <= low * low1 && high * high1 <= high2
    ensures low2 <= Pow(REDUCED_RATIO, m + n) <= high2
  {
    var p, q := Pow(REDUCED_RATIO, m), Pow(REDUCED_RATIO, n);
    assert Pow(REDUCED_RATIO, m + n) == Prod(p, q) by {
      hide Pow, Prod;
      PowAdd(REDUCED_RATIO, m, n);
    }
    hide Pow;
    ProductMonotone(low, low1, p, q);
    ProductMonotone(p, q, high, high1);
  }

  // So the largest accepted ratio needs exactly eight roots, and none needs more.
  lemma EightRoots(sqrt: real -> real, x: real)
    requires IsSqrt(sqrt) && 1.0 <= x <= MAX_RATIO
    ensures Reduce(sqrt, x, MAX_ROOTS).1 <= 8
    ensures Reduce(sqrt, MAX_RATIO, MAX_ROOTS).1 == 8
  {
    hide IsSqrt, Reduce, Pow, Exp2, Sq, Cap;
    assert Cap(0) == MAX_RATIO by { FirstCap(); }
    ReduceExact(sqrt, x, MAX_ROOTS, 0);
    ReduceExact(sqrt, MAX_RATIO, MAX_ROOTS, 0);
    SevenBits();
    LimitPowers();
    RootsExactly(sqrt, MAX_RATIO, 7);
  }

  lemma FirstCap()
    ensures Cap(0) == MAX_RATIO
  {
  }

  lemma SevenBits()
    ensures Exp2(7) == 128
  {
    assert Exp2(3) == 8;
    assert Exp2(4) == 16;
    hide Exp2;
    Exp2Add(3, 4);
  }

  lemma SqOfRoot(sqrt: real -> real, x: real)
    requires IsSqrt(sqrt) && x >= 0.0
    ensures Sq(sqrt(x)) == x
  {
  }

  lemma ExactRoot(sqrt: real -> real, x: real, k: nat)
    requires IsSqrt(sqrt) && REDUCED_RATIO < x <= Cap(k)
    ensures k < 8 && 1.0 <= sqrt(x) <= Cap(k + 1)
  {
    assert Cap(k) <= Sq(Cap(k + 1));
    hide IsSqrt, Sq;
    RootBetween(sqrt, x, Cap(k + 1));
  }

  // What negative_log_one_minus(1 - 1/r) sums, as a function of r.
  function ZOf(r: real): real
    requires r >= 1.0
  {
    var ratio := 1.0 - 1.0 / r;
    ratio / (2.0 - ratio)
  }

  // The value with n terms of the series.
  function Value(sqrt: real -> real, x: real, n: nat): real
    requires IsSqrt(sqrt) && 1.0 <= x <= MAX_RATIO
  {
    ReduceExact(sqrt, x, MAX_ROOTS, 0);
    var (reduced, k) := Reduce(sqrt, x, MAX_ROOTS);
    Prod(Exp2(k) as real, 2.0 * AtanhSum(ZOf(reduced), n))
  }

  lemma ZIdentity(r: real)
    requires r >= 1.0
    ensures var z, v := ZOf(r), 1.0 - 1.0 / r;
            && Prod(z, r) == r - 1.0 - z
            && 2.0 * z - v == Prod(z, v)
            && 0.0 <= v && 0.0 <= z < 1.0
  {
    SmallerQuotient(1.0, r, 1.0, 1.0);
    var i := 1.0 / r;
    DivideMultiply(1.0, r);
    var v := 1.0 - i;
    var z := ZOf(r);
    DivideMultiply(v, 2.0 - v);
    assert z * (2.0 - v) == 2.0 * z - Prod(z, v);
    SmallerQuotient(v, 2.0 - v, v, 1.0);
    assert Prod(-i, r) == -1.0;
    if i <= 0.0 {
      NonNegative(-i, r);
    }
    assert z <= v < 1.0;
    assert z + Prod(z, i) == 1.0 - i;
    assert (z + z * i) * r == Prod(z, r) + z * (i * r);
    assert (1.0 - i) * r == r - i * r;
  }

  // For every number of terms the value lies between the two elementary
  // bounds on the logarithm, at the reduced ratio r with r^(2^k) = x.
  lemma BetweenElementaryBounds(sqrt: real -> real, x: real, n: nat)
    requires IsSqrt(sqrt) && 1.0 <= x <= MAX_RATIO && n >= 1
    ensures var (r, k) := Reduce(sqrt, x, MAX_ROOTS);
            && k <= 8 && 1.0 <= r <= REDUCED_RATIO && Pow(r, Exp2(k)) == x
            && Prod(Exp2(k) as real, 1.0 - 1.0 / r) <= Value(sqrt, x, n) <= Prod(Exp2(k) as real, r - 1.0)
  {
    hide IsSqrt, Sq, Prod, AtanhSum, ZOf, Pow;
    ReduceExact(sqrt, x, MAX_ROOTS, 0);
    var (r, k) := Reduce(sqrt, x, MAX_ROOTS);
    SeriesBounds(r, n);
    var s := 2.0 * AtanhSum(ZOf(r), n);
    ReciprocalBelow(r);
    ProductMonotone(Exp2(k) as real, 1.0 - 1.0 / r, Exp2(k) as real, s);
    ProductMonotone(Exp2(k) as real, s, Exp2(k) as real, r - 1.0);
  }

  lemma ReciprocalBelow(r: real)
    requires r >= 1.0
    ensures 1.0 - 1.0 / r >= 0.0
  {
    SmallerQuotient(1.0, r, 1.0, 1.0);
  }

  lemma SeriesBounds(r: real, n: nat)
    requires r >= 1.0 && n >= 1
    ensures 1.0 - 1.0 / r <= 2.0 * AtanhSum(ZOf(r), n) <= r - 1.0
  {
    var z := ZOf(r);
    ZIdentity(r);
    TailBound(z, 1, n);
    TailBound(z, 0, n);
    PowNonNegative(z, 2 * n + 1);
    FirstTerms(z);
    var s := AtanhSum(z, n);
    hide Pow, AtanhSum, ZOf;
    NonNegative(z, 1.0 - 1.0 / r);
    SeriesUpper(z, r, s);
  }

  lemma SeriesUpper(z: real, r: real, s: real)
    requires 0.0 <= z < 1.0 && Prod(z, r) == r - 1.0 - z && z <= s && Prod(s, 1.0 - Sq(z)) <= z
    ensures 2.0 * s <= r - 1.0
  {
    var q := Prod(s, 1.0 - z);
    assert Prod(s, 1.0 - Sq(z)) == q + Prod(q, z);
    NonNegative(s, 1.0 - z);
    NonNegative(q, z);
    assert Prod(r - 1.0 - 2.0 * s, 1.0 - z) == 2.0 * (z - q) by {
      assert (r - 1.0) * (1.0 - z) == r - 1.0 - Prod(z, r) + z;
    }
    assert Prod(2.0 * s - r + 1.0, 1.0 - z) == -Prod(r - 1.0 - 2.0 * s, 1.0 - z);
    hide Prod;
    if r - 1.0 - 2.0 * s < 0.0 {
      ProdPositive(2.0 * s - r + 1.0, 1.0 - z);
    }
  }

  // From the thirtieth term on the number of terms hardly matters.
  lemma TermsHardlyMatter(sqrt: real -> real, x: real, m: nat, n: nat)
    requires IsSqrt(sqrt) && 1.0 <= x <= MAX_RATIO && MIN_TERMS <= m <= n
    ensures 0.0 <= Value(sqrt, x, n) - Value(sqrt, x, m) <= 1024.0 * Pow(1.0 / 33.0, 61)
  {
    hide IsSqrt, Sq, Prod, AtanhSum, ZOf, Pow;
    ReduceExact(sqrt, x, MAX_ROOTS, 0);
    var (r, k) := Reduce(sqrt, x, MAX_ROOTS);
    var z := ZOf(r);
    SmallZ(r);
    SmallTail(z, m, n);
    Exp2Monotone(k, 8);
    assert Exp2(8) == 256;
    ScaledDifference(Exp2(k) as real, AtanhSum(z, n), AtanhSum(z, m), 2.0 * Pow(1.0 / 33.0, 61));
  }

  lemma SmallZ(r: real)
    requires 1.0 <= r <= REDUCED_RATIO
    ensures 0.0 <= ZOf(r) <= 1.0 / 33.0
  {
    ZIdentity(r);
    var z := ZOf(r);
    hide ZOf;
    assert Prod(33.0 * z - 1.0, r + 1.0) == 33.0 * (Prod(z, r) + z) - (r + 1.0);
    hide Prod;
    if z > 1.0 / 33.0 {
      ProdPositive(33.0 * z - 1.0, r + 1.0);
    }
  }

  lemma SmallTail(z: real, m: nat, n: nat)
    requires 0.0 <= z <= 1.0 / 33.0 && MIN_TERMS <= m <= n
    ensures 0.0 <= AtanhSum(z, n) - AtanhSum(z, m) <= 2.0 * Pow(1.0 / 33.0, 61)
  {
    hide Prod, Pow, AtanhSum;
    TailBound(z, m, n);
    PowNonNegative(z, 2 * n + 1);
    SquareBelowOne(z);
    HigherPower(z, 61, 2 * m + 1);
    PowMonotoneFromZero(z, 1.0 / 33.0, 61);
    HalfAtLeast(AtanhSum(z, n) - AtanhSum(z, m), 1.0 - Sq(z));
  }

  lemma HalfAtLeast(d: real, factor: real)
    requires d >= 0.0 && factor >= 0.5
    ensures d <= 2.0 * Prod(d, factor)
  {
    NonNegative(d, factor - 0.5);
    assert d * (factor - 0.5) == Prod(d, factor) - 0.5 * d;
  }

  lemma ScaledDifference(scale: real, a: real, b: real, bound: real)
    requires 0.0 <= scale <= 256.0 && 0.0 <= a - b <= bound
    ensures 0.0 <= Prod(scale, 2.0 * a) - Prod(scale, 2.0 * b) <= 512.0 * bound
  {
    assert Prod(scale, 2.0 * a) - Prod(scale, 2.0 * b) == 2.0 * Prod(scale, a - b);
    ProductMonotone(scale, a - b, 256.0, bound);
    assert Prod(256.0, bound) == 256.0 * bound;
    hide Prod;
  }

  // One root fewer allowed makes no difference when it was not needed.
  lemma {:induction false} ReduceWithLess(sqrt: real -> real, x: real, left: nat)
    requires Reduce(sqrt, x, left + 1).1 <= left
    ensures Reduce(sqrt, x, left) == Reduce(sqrt, x, left + 1)
    decreases left
  {
    if x > REDUCED_RATIO {
      ReduceWithLess(sqrt, sqrt(x), left - 1);
    }
  }

  lemma RootOfSquare(sqrt: real -> real, x: real)
    requires IsSqrt(sqrt) && 1.0 <= x
    ensures x <= Sq(x) && sqrt(Sq(x)) == x
  {
    NonNegative(x, x - 1.0);
    assert x * (x - 1.0) == Sq(x) - x;
    SqOfRoot(sqrt, Sq(x));
    assert sqrt(Sq(x)) >= 0.0;
    SquareRootUnique(sqrt(Sq(x)), x);
  }

  // ln_ratio(x^2) is exactly twice ln_ratio(x) whenever x^2 is reduced by a
  // root.
  lemma LogOfSquare(sqrt: real -> real, x: real, n: nat)
    requires IsSqrt(sqrt) && 1.0 <= x && REDUCED_RATIO < Sq(x) <= MAX_RATIO
    ensures x <= MAX_RATIO && Value(sqrt, Sq(x), n) == 2.0 * Value(sqrt, x, n)
  {
    hide IsSqrt, Sq, Prod, AtanhSum, ZOf, Pow;
    RootOfSquare(sqrt, x);
    ReduceExact(sqrt, x, MAX_ROOTS, 0);
    ReduceWithLess(sqrt, x, MAX_ROOTS - 1);
    var (r, k) := Reduce(sqrt, x, MAX_ROOTS);
    assert Reduce(sqrt, Sq(x), MAX_ROOTS) == (r, k + 1);
    ScaleStep(2.0 * AtanhSum(ZOf(r), n), k);
  }
}
