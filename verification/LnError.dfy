// How far the rounded ln_ratio is from the exact one: its roots, the ratio it
// hands on, and a root more or less than the exact loop takes.
module LnError {
  import opened RealPowers
  import opened AtanhSeries
  import opened AtanhTerms
  import opened AtanhError
  import opened AtanhDoubling
  import opened LnExact
  import opened Nearness
  import opened NegativeLog

  // ----- roots -----

  function Root(sqrt: real -> real, x: real, k: nat): real {
    if k == 0 then x else sqrt(Root(sqrt, x, k - 1))
  }

  lemma RootShrinks(sqrt: real -> real, x: real)
    requires IsSqrt(sqrt) && x >= 1.0
    ensures 1.0 <= sqrt(x) <= x && Sq(sqrt(x)) == x
  {
    ProductMonotone(1.0, x, x, x);
    ProdAlgebra(x, 1.0, 1.0);
    SqOfRoot(sqrt, x);
    hide IsSqrt, Prod;
    RootBetween(sqrt, x, x);
  }

  lemma {:induction false} RootsShrink(sqrt: real -> real, x: real, j: nat, k: nat)
    requires IsSqrt(sqrt) && x >= 1.0 && j <= k
    ensures 1.0 <= Root(sqrt, x, k) <= Root(sqrt, x, j)
    decreases k
  {
    hide IsSqrt;
    if k > 0 {
      RootsShrink(sqrt, x, 0, k - 1);
      RootShrinks(sqrt, Root(sqrt, x, k - 1));
      if j < k {
        RootsShrink(sqrt, x, j, k - 1);
      }
    }
  }

  // The exact loop takes the first root at or below the limit.
  lemma {:induction false} ReduceIsRoot(sqrt: real -> real, x: real, taken: nat, left: nat)
    ensures var (r, k) := Reduce(sqrt, Root(sqrt, x, taken), left);
            r == Root(sqrt, x, taken + k) && forall j :: taken <= j < taken + k ==> Root(sqrt, x, j) > REDUCED_RATIO
    decreases left
  {
    if Root(sqrt, x, taken) > REDUCED_RATIO && left > 0 {
      ReduceIsRoot(sqrt, x, taken + 1, left - 1);
    }
  }

  lemma SmallFactors()
    ensures Factor(1) == STRETCH && 1.0 <= Factor(2) <= 1.0 + 3.0 * UNIT && Factor(2) == Sq(STRETCH)
    ensures 1.0 <= Factor(3) <= 1.0 + 4.0 * UNIT
  {
    OneFactor();
    assert Factor(2) == Prod(STRETCH, Factor(1)) && Factor(3) == Prod(STRETCH, Factor(2));
    FactorGrows(0, 2);
    FactorGrows(0, 3);
    hide Factor;
    var e := 1.001 * UNIT;
    assert Prod(STRETCH, STRETCH) == 1.0 + 2.0 * e + e * e;
    assert Prod(STRETCH, Factor(2)) <= STRETCH * (1.0 + 2.01 * UNIT);
  }

  // A root halves the distance in roundings.
  lemma NearRoot(a: real, b: real)
    requires a >= 1.0 && b >= 1.0 && Near(Sq(a), Sq(b), 2)
    ensures Near(a, b, 1)
  {
    SmallFactors();
    hide Factor;
    RootUnder(a, b, STRETCH);
    RootUnder(b, a, STRETCH);
  }

  lemma RootUnder(a: real, b: real, s: real)
    requires a >= 1.0 && b >= 1.0 && s >= 1.0 && Sq(a) <= Prod(Sq(s), Sq(b))
    ensures a <= Prod(s, b)
  {
    ProdInterchange(s, b, s, b);
    assert Prod(Sq(s), Sq(b)) == Sq(Prod(s, b));
    ProductMonotone(1.0, b, s, b);
    hide Prod;
    if a > Prod(s, b) {
      ProductMonotoneStrict(Prod(s, b), a);
    }
  }

  lemma ProductMonotoneStrict(x: real, y: real)
    requires 0.0 < x < y
    ensures Prod(x, x) < Prod(y, y)
  {
    MulMonotone(x, y, x, y);
  }

  // The rounded root stays within two roundings of the exact one.
  lemma NextRoot(rnd: real -> real, minNormal: real, sqrt: real -> real, reduced: real, x: real, k: nat)
    requires RoundsToNearest(rnd, minNormal) && IsSqrt(sqrt) && x >= 1.0 && reduced >= 1.0
    requires Near(reduced, Root(sqrt, x, k), 2)
    ensures Near(rnd(sqrt(reduced)), Root(sqrt, x, k + 1), 2)
  {
    assert minNormal <= 0.0001 by { SmallNormal(minNormal); }
    RootsShrink(sqrt, x, 0, k);
    assert Root(sqrt, x, k + 1) == sqrt(Root(sqrt, x, k));
    RootShrinks(sqrt, reduced);
    RootShrinks(sqrt, Root(sqrt, x, k));
    hide IsSqrt, RoundsToNearest, Near, Root, Sq;
    NearRoot(sqrt(reduced), sqrt(Root(sqrt, x, k)));
    NearRounded(rnd, minNormal, sqrt(reduced), Root(sqrt, x, k + 1), 1);
  }

  // ----- the ratio that is handed on -----

  lemma CloseBelowOne(i: real, q: real, f: real)
    requires 0.0 <= i <= 1.0 && 0.0 <= q <= 1.0 && 1.0 <= f <= 1.0 + 4.0 * UNIT
    requires i <= Prod(f, q) && q <= Prod(f, i)
    ensures Abs(i - q) <= 4.0 * UNIT
  {
    ProductMonotone(f - 1.0, q, 4.0 * UNIT, 1.0);
    ProductMonotone(f - 1.0, i, 4.0 * UNIT, 1.0);
    assert Prod(f, q) == q + Prod(f - 1.0, q) && Prod(f, i) == i + Prod(f - 1.0, i);
    assert Prod(4.0 * UNIT, 1.0) == 4.0 * UNIT;
  }

  lemma TinyNormal(minNormal: real)
    requires 0.0 < minNormal <= Pow(HALF_UNIT, 4)
    ensures minNormal <= 0.0000001 * UNIT
  {
    EighthOf(HALF_UNIT);
    HalfUnitTimes(0.0000001);
    assert Prod(HALF_UNIT, 0.0000001) == 0.0000001 * HALF_UNIT;
    hide Pow, Prod;
  }

  lemma RoundedClosely(rnd: real -> real, minNormal: real, v: real)
    requires RoundsToNearest(rnd, minNormal) && 0.0 <= v <= 0.06
    ensures Abs(rnd(v) - v) <= UNIT
  {
    assert 0.0 < minNormal <= Pow(HALF_UNIT, 4);
    TinyNormal(minNormal);
    hide RoundsToNearest, Pow;
    if v >= minNormal {
      RelativeError(rnd, minNormal, v);
      assert Prod(UNIT, v) == UNIT * v;
    } else {
      TinyRounded(rnd, minNormal, v);
    }
  }

  lemma InverseBounds(x: real)
    requires 1.0 <= x <= 1.07
    ensures 0.934 <= 1.0 / x <= 1.0
    ensures x <= REDUCED_RATIO ==> 1.0 / x >= 0.941
  {
    SmallerQuotient(1.0, x, 1.0, 1.0);
    SmallerQuotient(1.0, 1.07, 1.0, x);
    if x <= REDUCED_RATIO {
      SmallerQuotient(1.0, REDUCED_RATIO, 1.0, x);
    }
  }

  lemma InverseIsNear(rnd: real -> real, minNormal: real, reduced: real, r: real)
    requires RoundsToNearest(rnd, minNormal) && 1.0 <= reduced <= REDUCED_RATIO && r >= 1.0 && Near(reduced, r, 2)
    ensures Near(rnd(1.0 / reduced), 1.0 / r, 3) && 0.94 <= rnd(1.0 / reduced) <= 1.0
  {
    assert 0.0 < minNormal <= 0.0001 by { SmallNormal(minNormal); }
    hide RoundsToNearest, Near;
    InverseBounds(reduced);
    NearQuotient(1.0, reduced, r, 2);
    NearRounded(rnd, minNormal, 1.0 / reduced, 1.0 / r, 2);
    Monotone(rnd, minNormal, 1.0 / reduced, 1.0);
    Onto(rnd, minNormal, 1.0);
    RoundingError(rnd, minNormal, 1.0 / reduced);
  }

  lemma RatioIsClose(rnd: real -> real, minNormal: real, reduced: real, r: real)
    requires RoundsToNearest(rnd, minNormal) && 1.0 <= reduced <= REDUCED_RATIO && 1.0 <= r && Near(reduced, r, 2)
    ensures Abs(rnd(1.0 - rnd(1.0 / reduced)) - (1.0 - 1.0 / r)) <= 6.0 * UNIT
  {
    hide RoundsToNearest;
    InverseIsNear(rnd, minNormal, reduced, r);
    var i, q := rnd(1.0 / reduced), 1.0 / r;
    SmallerQuotient(1.0, r, 1.0, 1.0);
    SmallFactors();
    hide Factor;
    CloseBelowOne(i, q, Factor(3));
    hide Near;
    RoundedClosely(rnd, minNormal, 1.0 - i);
  }

  // ----- how the series follows its argument -----

  lemma QuotientsClose(a: real, b: real)
    requires 0.0 <= a <= 0.06 && 0.0 <= b <= 0.06
    ensures Abs(a / (2.0 - a) - b / (2.0 - b)) <= 0.6 * Abs(a - b)
    ensures 0.0 <= a / (2.0 - a) <= 0.031
  {
    var p, q := a / (2.0 - a), b / (2.0 - b);
    SmallerQuotient(a, 2.0 - a, 0.06, 1.94);
    SmallerQuotient(b, 2.0 - b, 0.06, 1.94);
    DivideMultiply(a, 2.0 - a);
    DivideMultiply(b, 2.0 - b);
    QuotientsDiffer(p, q, a, b);
  }

  lemma QuotientsDiffer(p: real, q: real, a: real, b: real)
    requires 0.0 <= a <= 0.06 && 0.0 <= q <= 0.031 && p * (2.0 - a) == a && q * (2.0 - b) == b
    ensures Abs(p - q) <= 0.6 * Abs(a - b)
  {
    assert (p - q) * (2.0 - a) == (a - b) * (1.0 + q);
    AbsProduct(p - q, 2.0 - a);
    AbsProduct(a - b, 1.0 + q);
    var d, e := Abs(p - q), Abs(a - b);
    ProductMonotone(d, 1.94, d, 2.0 - a);
    ProductMonotone(e, 1.0 + q, e, 1.04);
    assert d * 1.94 <= e * 1.04;
  }

  lemma {:induction false} PowerDifference(a: real, b: real, n: nat)
    requires 0.0 <= a <= b
    ensures 0.0 <= Pow(b, n + 1) - Pow(a, n + 1) <= (n + 1) as real * Prod(b - a, Pow(b, n))
  {
    if n == 0 {
      FirstPower(a);
      FirstPower(b);
      ProdAlgebra(b - a, 1.0, 1.0);
    } else {
      PowerDifference(a, b, n - 1);
      PowNonNegative(a, n);
      var p, q, m := Pow(a, n), Pow(b, n), n as real;
      assert Pow(b, n + 1) == Prod(b, q) && Pow(a, n + 1) == Prod(a, p) && Pow(b, n) == Prod(b, Pow(b, n - 1));
      PowerDifferenceStep(a, b, p, q, Pow(b, n - 1), m);
    }
  }

  lemma PowerDifferenceStep(a: real, b: real, p: real, q: real, r: real, m: real)
    requires 0.0 <= a <= b && 0.0 <= p <= q && q == Prod(b, r) && q - p <= m * Prod(b - a, r)
    ensures 0.0 <= Prod(b, q) - Prod(a, p) <= (m + 1.0) * Prod(b - a, q)
  {
    assert Prod(b, q) - Prod(a, p) == Prod(b, q - p) + Prod(b - a, p);
    NonNegative(b, q - p);
    NonNegative(b - a, p);
    ProductMonotone(b - a, p, b - a, q);
    ProductMonotone(b, q - p, b, m * Prod(b - a, r));
    assert Prod(b, m * Prod(b - a, r)) == m * Prod(b - a, Prod(b, r));
    hide Prod;
    assert (m + 1.0) * Prod(b - a, q) == m * Prod(b - a, q) + Prod(b - a, q);
  }

  lemma TermDifference(a: real, b: real, i: nat)
    requires 0.0 <= a <= b
    ensures 0.0 <= AtanhTerm(b, i) - AtanhTerm(a, i) <= Prod(b - a, Pow(b, 2 * i))
  {
    PowerDifference(a, b, 2 * i);
    var m := (2 * i + 1) as real;
    var p, q, r := Pow(a, 2 * i + 1), Pow(b, 2 * i + 1), Prod(b - a, Pow(b, 2 * i));
    hide Pow, Prod;
    ShareOfDifference(q, p, r, m);
  }

  lemma ShareOfDifference(q: real, p: real, r: real, m: real)
    requires m >= 1.0 && 0.0 <= q - p <= m * r
    ensures 0.0 <= q / m - p / m <= r
  {
    DivideMultiply(q, m);
    DivideMultiply(p, m);
    var d := q / m - p / m;
    assert d * m == q - p;
    OrderOfMultiples(d, r, m);
  }

  lemma OrderOfMultiples(d: real, r: real, m: real)
    requires m > 0.0 && 0.0 <= d * m <= r * m
    ensures 0.0 <= d <= r
  {
    if d < 0.0 {
      ProdPositive(-d, m);
    }
    if d > r {
      ProdPositive(d - r, m);
    }
  }

  lemma {:induction false} SumsDiffer(a: real, b: real, n: nat)
    requires 0.0 <= a <= b < 1.0
    ensures 0.0 <= AtanhSum(b, n) - AtanhSum(a, n)
    ensures Prod(AtanhSum(b, n) - AtanhSum(a, n), 1.0 - Sq(b)) <= Prod(b - a, 1.0 - Pow(b, 2 * n))
  {
    if n == 0 {
      ProdZeroLeft(1.0 - Sq(b));
      assert Pow(b, 0) == 1.0;
      assert Prod(b - a, 0.0) == 0.0;
    } else {
      SumsDiffer(a, b, n - 1);
      TermDifference(a, b, n - 1);
      SquareBelowOne(b);
      EvenPowerStep(b, n - 1);
      hide Pow, AtanhTerm, Sq;
      SumsDifferStep(AtanhSum(b, n - 1) - AtanhSum(a, n - 1), AtanhTerm(b, n - 1) - AtanhTerm(a, n - 1), b - a,
                     Pow(b, 2 * n - 2), Sq(b));
    }
  }

  lemma EvenPowerStep(b: real, n: nat)
    ensures Pow(b, 2 * n + 2) == Prod(Pow(b, 2 * n), Sq(b))
  {
    assert Pow(b, 2 * n + 2) == Prod(b, Pow(b, 2 * n + 1)) && Pow(b, 2 * n + 1) == Prod(b, Pow(b, 2 * n));
    hide Pow;
    ProdAlgebra(b, b, Pow(b, 2 * n));
    ProdAlgebra(Sq(b), Pow(b, 2 * n), 1.0);
  }

  lemma SumsDifferStep(sum: real, term: real, d: real, p: real, square: real)
    requires 0.0 <= square <= 1.0 && term <= Prod(d, p) && Prod(sum, 1.0 - square) <= Prod(d, 1.0 - p)
    ensures Prod(sum + term, 1.0 - square) <= Prod(d, 1.0 - Prod(p, square))
  {
    assert Prod(sum + term, 1.0 - square) == Prod(sum, 1.0 - square) + Prod(term, 1.0 - square);
    NonNegative(Prod(d, p) - term, 1.0 - square);
    assert Prod(Prod(d, p) - term, 1.0 - square) == Prod(Prod(d, p), 1.0 - square) - Prod(term, 1.0 - square);
    assert Prod(d, 1.0 - p) + Prod(Prod(d, p), 1.0 - square) == Prod(d, 1.0 - Prod(p, square));
  }

  // On small arguments the series moves hardly more than its argument.
  lemma SumsAreClose(a: real, b: real, n: nat)
    requires 0.0 <= a <= 0.031 && 0.0 <= b <= 0.031
    ensures Abs(AtanhSum(a, n) - AtanhSum(b, n)) <= 1.01 * Abs(a - b)
  {
    hide AtanhSum;
    if a <= b {
      SumsAreCloseUp(a, b, n);
    } else {
      SumsAreCloseUp(b, a, n);
    }
  }

  lemma SumsAreCloseUp(a: real, b: real, n: nat)
    requires 0.0 <= a <= b <= 0.031
    ensures 0.0 <= AtanhSum(b, n) - AtanhSum(a, n) <= 1.01 * (b - a)
  {
    hide AtanhSum, Pow, Sq, Prod;
    SumsDiffer(a, b, n);
    SmallSquare(b, 0.031, 0.001);
    PowNonNegative(b, 2 * n);
    ClosenessOf(AtanhSum(b, n) - AtanhSum(a, n), b - a, Sq(b), Pow(b, 2 * n));
  }

  lemma ClosenessOf(s: real, d: real, square: real, p: real)
    requires s >= 0.0 && d >= 0.0 && 0.0 <= square <= 0.001 && p >= 0.0 && Prod(s, 1.0 - square) <= Prod(d, 1.0 - p)
    ensures s <= 1.01 * d
  {
    ProductMonotone(s, 0.999, s, 1.0 - square);
    NonNegative(d, p);
    assert Prod(d, 1.0 - p) == d - d * p;
    assert Prod(s, 0.999) == 0.999 * s;
  }

  // ----- the value -----

  // The value after k exact roots, whatever the loop would have done.
  function ValueAt(sqrt: real -> real, x: real, k: nat, n: nat): real
    requires IsSqrt(sqrt) && x >= 1.0
  {
    RootsShrink(sqrt, x, 0, k);
    Prod(Exp2(k) as real, 2.0 * AtanhSum(ZOf(Root(sqrt, x, k)), n))
  }

  lemma ValueIsAt(sqrt: real -> real, x: real, n: nat) returns (k: nat)
    requires IsSqrt(sqrt) && 1.0 <= x <= MAX_RATIO
    ensures k <= 8 && Value(sqrt, x, n) == ValueAt(sqrt, x, k, n) && Root(sqrt, x, k) <= REDUCED_RATIO
    ensures forall j :: 0 <= j < k ==> Root(sqrt, x, j) > REDUCED_RATIO
  {
    k := Reduce(sqrt, x, MAX_ROOTS).1;
    hide IsSqrt, AtanhSum, ZOf, Pow, Sq, Prod;
    ReduceExact(sqrt, x, MAX_ROOTS, 0);
    ReduceIsRoot(sqrt, x, 0, MAX_ROOTS);
    assert Root(sqrt, x, 0) == x;
  }

  // A root of something near the limit is well below it.
  lemma RootOfLimit(sqrt: real -> real, x: real)
    requires IsSqrt(sqrt) && 1.0 <= x <= 1.0626
    ensures 1.0 <= sqrt(x) <= 1.0309
  {
    assert Sq(1.0309) >= 1.0626;
    hide IsSqrt, Sq;
    RootBetween(sqrt, x, 1.0309);
  }

  // The rounded loop stops at most one root before or after the exact one.
  lemma RootsAgree(sqrt: real -> real, x: real, k: nat, exact: nat)
    requires IsSqrt(sqrt) && x >= 1.0 && Root(sqrt, x, k) <= 1.0626 && (k > 0 ==> Root(sqrt, x, k - 1) >= 1.0624)
    requires Root(sqrt, x, exact) <= REDUCED_RATIO && forall j :: 0 <= j < exact ==> Root(sqrt, x, j) > REDUCED_RATIO
    ensures exact == k || exact == k + 1 || exact + 1 == k
  {
    hide IsSqrt;
    if exact + 1 < k {
      RootsShrink(sqrt, x, 0, exact);
      RootOfLimit(sqrt, Root(sqrt, x, exact));
      RootsShrink(sqrt, x, exact + 1, k - 1);
      assert false;
    } else if exact > k + 1 {
      RootsShrink(sqrt, x, 0, k);
      RootOfLimit(sqrt, Root(sqrt, x, k));
      NextAbove(sqrt, x, k, exact);
      assert false;
    }
  }

  lemma NextAbove(sqrt: real -> real, x: real, k: nat, exact: nat)
    requires k + 1 < exact && forall j :: 0 <= j < exact ==> Root(sqrt, x, j) > REDUCED_RATIO
    ensures sqrt(Root(sqrt, x, k)) > REDUCED_RATIO
  {
    assert Root(sqrt, x, k + 1) > REDUCED_RATIO;
  }

  // Its argument at a square is what the argument at the root doubles to.
  lemma ZDoubles(s: real)
    requires s >= 1.0
    ensures Sq(s) >= 1.0 && Prod(ZOf(Sq(s)), 1.0 + Sq(ZOf(s))) == 2.0 * ZOf(s)
  {
    ProductMonotone(1.0, 1.0, s, s);
    ProdAlgebra(1.0, 1.0, 1.0);
    ZIdentity(s);
    ZIdentity(Sq(s));
    var z, y := ZOf(s), ZOf(Sq(s));
    hide ZOf;
    var m := Sq(s + 1.0);
    SquarePositive(s + 1.0);
    ZAlgebra(s, z, y, m);
    hide Sq, Prod;
    Cancel(Prod(y, 1.0 + Sq(z)), 2.0 * z, m);
  }

  lemma ZAlgebra(s: real, z: real, y: real, m: real)
    requires Prod(z, s) == s - 1.0 - z && Prod(y, Sq(s)) == Sq(s) - 1.0 - y && m == Sq(s + 1.0)
    ensures Prod(y, 1.0 + Sq(z)) * m == (2.0 * z) * m
  {
    var r := s * s;
    assert z * (s + 1.0) == s - 1.0;
    assert y * (r + 1.0) == r - 1.0;
    var v := z * (s + 1.0);
    assert z * m == v * (s + 1.0) == r - 1.0;
    assert z * z * m == v * v == (s - 1.0) * (s - 1.0);
    assert (1.0 + z * z) * m == m + z * z * m == 2.0 * (r + 1.0);
    assert y * ((1.0 + z * z) * m) == 2.0 * (y * (r + 1.0));
    assert Prod(y, 1.0 + Sq(z)) * m == y * ((1.0 + z * z) * m);
  }

  lemma ZOfNear(r: real)
    requires 1.0 <= r <= 1.07
    ensures 0.0 <= ZOf(r) <= 0.035
    ensures r <= 1.031 ==> ZOf(r) <= 0.0155
    ensures r >= 1.03 ==> ZOf(r) >= 0.0146
  {
    ZIdentity(r);
    var z := ZOf(r);
    hide ZOf;
    assert z * (r + 1.0) == r - 1.0;
    ZAtLeast(z, r);
  }

  lemma ZAtLeast(z: real, r: real)
    requires 0.0 <= z < 1.0 && 1.0 <= r <= 1.07 && z * (r + 1.0) == r - 1.0
    ensures z <= 0.035 && (r <= 1.031 ==> z <= 0.0155) && (r >= 1.03 ==> z >= 0.0146)
  {
    ProductMonotone(z, 2.0, z, r + 1.0);
    ProductMonotone(z, r + 1.0, z, 2.07);
    assert Prod(z, 2.0) == 2.0 * z && Prod(z, 2.07) == 2.07 * z && Prod(z, r + 1.0) == z * (r + 1.0);
    hide Prod;
  }

  // One root more or less makes little difference.
  lemma NeighboursAreNear(sqrt: real -> real, x: real, k: nat, n: nat)
    requires IsSqrt(sqrt) && x >= 1.0 && Root(sqrt, x, k) <= 1.0626 && n >= 5
    ensures Near(ValueAt(sqrt, x, k, n), ValueAt(sqrt, x, k + 1, n), 21)
  {
    RootsShrink(sqrt, x, 0, k);
    var r := Root(sqrt, x, k);
    var s := sqrt(r);
    assert Root(sqrt, x, k + 1) == s;
    RootShrinks(sqrt, r);
    RootOfLimit(sqrt, r);
    ZDoubles(s);
    ZIdentity(r);
    ZOfNear(s);
    hide IsSqrt, AtanhSum, ZOf, Sq, Near;
    DoubleIsNear(ZOf(r), ZOf(s), n);
    NearScaled(AtanhSum(ZOf(r), n), 2.0 * AtanhSum(ZOf(s), n), 2.0 * Exp2(k) as real, 21);
    TwicePower(Exp2(k) as real, AtanhSum(ZOf(r), n), AtanhSum(ZOf(s), n));
    assert Exp2(k + 1) as real == 2.0 * Exp2(k) as real;
  }

  lemma TwicePower(e: real, a: real, b: real)
    ensures Prod(2.0 * e, a) == Prod(e, 2.0 * a) && Prod(2.0 * e, 2.0 * b) == Prod(2.0 * e, 2.0 * b)
  {
  }

  lemma NearBelow(reduced: real, r: real)
    requires Near(reduced, r, 2)
    ensures reduced <= REDUCED_RATIO ==> r <= 1.0626
    ensures reduced >= REDUCED_RATIO ==> r >= 1.0624
  {
    SmallFactors();
    hide Factor;
    if reduced <= REDUCED_RATIO {
      ProductMonotone(Factor(2), reduced, 1.0 + 3.0 * UNIT, REDUCED_RATIO);
      assert Prod(1.0 + 3.0 * UNIT, REDUCED_RATIO) <= 1.0626;
    }
    if r < 1.0624 {
      ProductMonotone(Factor(2), r, 1.0 + 3.0 * UNIT, 1.0624);
      assert Prod(1.0 + 3.0 * UNIT, 1.0624) < REDUCED_RATIO;
    }
  }

  // The inner call's exact value at the rounded ratio, against that at the root.
  lemma ArgumentIsClose(rnd: real -> real, minNormal: real, reduced: real, r: real, ratio: real, n: nat)
    requires RoundsToNearest(rnd, minNormal) && 1.0 <= reduced <= REDUCED_RATIO && r >= 1.0 && Near(reduced, r, 2)
    requires ratio == rnd(1.0 - rnd(1.0 / reduced)) && 0.0 <= ratio <= 0.059
    ensures Abs(ExactLog(ratio, n) - 2.0 * AtanhSum(ZOf(r), n)) <= 7.5 * UNIT && ExactLog(ratio, n) >= 0.0
  {
    hide RoundsToNearest, Near, AtanhSum, ZOf, ExactLog;
    RatioIsClose(rnd, minNormal, reduced, r);
    NearBelow(reduced, r);
    RoughInverse(r);
    ZIsQuotient(r);
    LogIsTwice(ratio, n);
    var b := 1.0 - 1.0 / r;
    QuotientsClose(ratio, b);
    QuotientsClose(b, b);
    SumsAreClose(ratio / (2.0 - ratio), ZOf(r), n);
    SumIsNonNegative(ratio / (2.0 - ratio), n);
  }

  lemma ZIsQuotient(r: real)
    requires r >= 1.0
    ensures ZOf(r) == (1.0 - 1.0 / r) / (2.0 - (1.0 - 1.0 / r))
  {
  }

  lemma LogIsTwice(ratio: real, n: nat)
    requires ratio < 2.0
    ensures ExactLog(ratio, n) == 2.0 * AtanhSum(ratio / (2.0 - ratio), n)
  {
    hide AtanhSum;
  }

  lemma RoughInverse(r: real)
    requires 1.0 <= r <= 1.0626
    ensures 0.0 <= 1.0 - 1.0 / r <= 0.06
  {
    SmallerQuotient(1.0, r, 1.0, 1.0);
    SmallerQuotient(1.0, 1.0626, 1.0, r);
    assert 1.0 / 1.0626 >= 0.94;
  }

  lemma SumIsNonNegative(w: real, n: nat)
    requires 0.0 <= w <= 0.1
    ensures AtanhSum(w, n) >= 0.0
  {
    TailBound(w, 0, n);
    assert AtanhSum(w, 0) == 0.0;
  }

  // What one call of the inner loop is off by, at the exact root.
  lemma InnerIsClose(inner: real, log: real, exact: real, minNormal: real)
    requires 0.0 <= minNormal <= 0.0000001 * UNIT && log >= 0.0 && exact >= 0.0
    requires Abs(log - exact) <= 7.5 * UNIT
    requires Abs(inner - log) <= Prod(ACCURACY, log) || Abs(inner - log) <= 16.0 * minNormal
    ensures Abs(inner - exact) <= ACCURACY * exact + 8.0 * UNIT
  {
    assert Prod(ACCURACY, log) == ACCURACY * log;
  }

  lemma ScaledIsClose(scale: real, inner: real, exact: real)
    requires 1.0 <= scale <= 256.0 && exact >= 0.0 && Abs(inner - exact) <= ACCURACY * exact + 8.0 * UNIT
    requires scale > 1.0 ==> exact >= 0.029
    ensures Abs(Prod(scale, inner) - Prod(scale, exact)) <= 2.0 * ACCURACY * Prod(scale, exact) + 8.0 * UNIT
    ensures Prod(scale, exact) >= 0.0
  {
    assert Prod(scale, inner) - Prod(scale, exact) == Prod(scale, inner - exact);
    AbsProduct(scale, inner - exact);
    ProductMonotone(scale, Abs(inner - exact), scale, ACCURACY * exact + 8.0 * UNIT);
    assert Prod(scale, ACCURACY * exact + 8.0 * UNIT) == ACCURACY * Prod(scale, exact) + 8.0 * UNIT * scale;
    NonNegative(scale, exact);
    if scale > 1.0 {
      ProductMonotone(scale, 0.029, scale, exact);
      assert Prod(scale, 0.029) == 0.029 * scale;
    }
    hide Prod;
  }

  // The rounded result is within 2^-39 of the exact value, in relative terms,
  // and 2^-50.
  const LN_ACCURACY := 4.0 * ACCURACY

  lemma ThroughNeighbour(result: real, near: real, value: real)
    requires Abs(result - near) <= 2.0 * ACCURACY * near + 8.0 * UNIT && near >= 0.0 && value >= 0.0
    requires Abs(near - value) <= Prod(ACCURACY, value)
    ensures Abs(result - value) <= LN_ACCURACY * value + 8.0 * UNIT
  {
    assert Prod(ACCURACY, value) == ACCURACY * value;
  }

  lemma ValueIsNear(sqrt: real -> real, x: real, k: nat, n: nat)
    requires IsSqrt(sqrt) && 1.0 <= x <= MAX_RATIO && Root(sqrt, x, k) <= 1.0626 && n >= 5
    requires k > 0 ==> Root(sqrt, x, k - 1) >= 1.0624
    ensures Near(ValueAt(sqrt, x, k, n), Value(sqrt, x, n), 21)
  {
    hide IsSqrt, AtanhSum, ZOf, Near, ValueAt, Value;
    var exact := ValueIsAt(sqrt, x, n);
    RootsAgree(sqrt, x, k, exact);
    if exact == k {
      ValueNonNegative(sqrt, x, k, n);
      NearSelf(ValueAt(sqrt, x, k, n), 21);
    } else if exact == k + 1 {
      NeighboursAreNear(sqrt, x, k, n);
    } else {
      NeighboursAreNear(sqrt, x, exact, n);
      NearSwap(ValueAt(sqrt, x, exact, n), ValueAt(sqrt, x, k, n), 21);
    }
  }

  lemma ValueNonNegative(sqrt: real -> real, x: real, k: nat, n: nat)
    requires IsSqrt(sqrt) && x >= 1.0 && Root(sqrt, x, k) <= 1.0626
    ensures ValueAt(sqrt, x, k, n) >= 0.0
  {
    RootsShrink(sqrt, x, 0, k);
    var r := Root(sqrt, x, k);
    hide IsSqrt, ZOf, AtanhSum;
    ZOfNear(r);
    SumIsNonNegative(ZOf(r), n);
    NonNegative(Exp2(k) as real, 2.0 * AtanhSum(ZOf(r), n));
  }

  lemma ManyRootsMeanEnough(sqrt: real -> real, x: real, k: nat, n: nat)
    requires IsSqrt(sqrt) && x >= 1.0 && Root(sqrt, x, k) <= 1.0626 && n >= 1
    requires k > 0 ==> Root(sqrt, x, k - 1) >= 1.0624
    ensures Root(sqrt, x, k) >= 1.0 && AtanhSum(ZOf(Root(sqrt, x, k)), n) >= 0.0
    ensures k > 0 ==> 2.0 * AtanhSum(ZOf(Root(sqrt, x, k)), n) >= 0.029
  {
    RootsShrink(sqrt, x, 0, k);
    var r := Root(sqrt, x, k);
    ZOfNear(r);
    hide AtanhSum, ZOf;
    SumAtLeastFirst(ZOf(r), n);
    if k > 0 {
      RootsShrink(sqrt, x, 0, k - 1);
      RootShrinks(sqrt, Root(sqrt, x, k - 1));
      hide IsSqrt;
      assert Sq(r) >= 1.0624;
      AtLeast103(r);
    }
  }

  lemma AtLeast103(r: real)
    requires r >= 1.0 && Sq(r) >= 1.0624
    ensures r >= 1.03
  {
    assert Prod(1.03, 1.03) == 1.0609;
    if r < 1.03 {
      ProductMonotone(r, r, 1.03, 1.03);
    }
  }

  // The rounded value against the exact one after as many roots.
  lemma AtRootIsAccurate(rnd: real -> real, minNormal: real, sqrt: real -> real, x: real, reduced: real, k: nat,
                         ratio: real, inner: real, n: nat)
    requires RoundsToNearest(rnd, minNormal) && IsSqrt(sqrt) && 1.0 <= x && k <= 8 && n >= 1
    requires 1.0 <= reduced <= REDUCED_RATIO && Near(reduced, Root(sqrt, x, k), 2)
    requires k > 0 ==> Root(sqrt, x, k - 1) >= 1.0624
    requires ratio == rnd(1.0 - rnd(1.0 / reduced)) && 0.0 <= ratio <= 0.059
    requires Abs(inner - ExactLog(ratio, n)) <= Prod(ACCURACY, ExactLog(ratio, n))
          || Abs(inner - ExactLog(ratio, n)) <= 16.0 * minNormal
    ensures ValueAt(sqrt, x, k, n) >= 0.0
    ensures Abs(Prod(Exp2(k) as real, inner) - ValueAt(sqrt, x, k, n))
         <= 2.0 * ACCURACY * ValueAt(sqrt, x, k, n) + 8.0 * UNIT
  {
    var r := Root(sqrt, x, k);
    assert 0.0 < minNormal <= Pow(HALF_UNIT, 4);
    hide *;
    TinyNormal(minNormal);
    NearBelow(reduced, r);
    ManyRootsMeanEnough(sqrt, x, k, n);
    ArgumentIsClose(rnd, minNormal, reduced, r, ratio, n);
    ScaleBounds(k);
    var exact := 2.0 * AtanhSum(ZOf(r), n);
    InnerIsClose(inner, ExactLog(ratio, n), exact, minNormal);
    ScaledIsClose(Exp2(k) as real, inner, exact);
  }

  lemma LnIsAccurate(rnd: real -> real, minNormal: real, sqrt: real -> real, x: real, reduced: real, k: nat,
                     ratio: real, inner: real, n: nat)
    requires RoundsToNearest(rnd, minNormal) && IsSqrt(sqrt) && 1.0 <= x <= MAX_RATIO && k <= 8 && n >= 5
    requires 1.0 <= reduced <= REDUCED_RATIO && Near(reduced, Root(sqrt, x, k), 2)
    requires k > 0 ==> Root(sqrt, x, k - 1) >= 1.0624
    requires ratio == rnd(1.0 - rnd(1.0 / reduced)) && 0.0 <= ratio <= 0.059
    requires Abs(inner - ExactLog(ratio, n)) <= Prod(ACCURACY, ExactLog(ratio, n))
          || Abs(inner - ExactLog(ratio, n)) <= 16.0 * minNormal
    ensures Abs(Prod(Exp2(k) as real, inner) - Value(sqrt, x, n)) <= LN_ACCURACY * Value(sqrt, x, n) + 8.0 * UNIT
  {
    hide *;
    AtRootIsAccurate(rnd, minNormal, sqrt, x, reduced, k, ratio, inner, n);
    NearBelow(reduced, Root(sqrt, x, k));
    ValueIsNear(sqrt, x, k, n);
    NearDifference(ValueAt(sqrt, x, k, n), Value(sqrt, x, n), 21);
    NearNonNegative(ValueAt(sqrt, x, k, n), Value(sqrt, x, n), 21);
    ThroughNeighbour(Prod(Exp2(k) as real, inner), ValueAt(sqrt, x, k, n), Value(sqrt, x, n));
  }

  lemma NearNonNegative(x: real, y: real, k: nat)
    requires Near(x, y, k)
    ensures x >= 0.0 && y >= 0.0
  {
  }

  lemma ScaleBounds(k: nat)
    requires k <= 8
    ensures 1.0 <= Exp2(k) as real <= 256.0 && (k == 0 ==> Exp2(k) as real == 1.0)
  {
    Exp2Monotone(k, 8);
    assert Exp2(8) == 256;
  }
}
