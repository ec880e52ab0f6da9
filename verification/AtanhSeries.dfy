// The terms negative_log_one_minus of deterministic_math.rs sums, with every
// operation rounded: they shrink until they no longer change the sum.
module AtanhSeries {
  import opened RealPowers

  // Fewest terms before the fixed-point test may end the loop.
  const MIN_TERMS := 30

  // Terms after which every ratio in the domain has reached its fixed point.
  const ENOUGH_TERMS := 193

  // 2^-53, the relative error of one rounding, and half of it.
  const UNIT := 1.0 / 9007199254740992.0
  const HALF_UNIT := 1.0 / 18014398509481984.0

  // Rounding to nearest as IEEE 754-2019 section 4.3.1 fixes it, as far as
  // this loop relies on it: monotone, onto its own values, of bounded
  // relative error from the smallest normal number up, flushing what is far
  // below that number, and absorbing an addend below half a unit in the last
  // place of a nonnegative representable number.
  //
  // Binary64 with no upper exponent limit meets this at minNormal = 2^-1022:
  // Binary64Rounding.MeetsRoundsToNearest.
  ghost predicate RoundsToNearest(rnd: real -> real, minNormal: real) {
    && 0.0 < minNormal <= Pow(HALF_UNIT, 4)
    && rnd(0.0) == 0.0 && rnd(1.0) == 1.0
    && (forall x: real, y: real {:trigger rnd(x), rnd(y)} :: x <= y ==> rnd(x) <= rnd(y))
    && (forall x: real :: rnd(rnd(x)) == rnd(x))
    && (forall x: real {:trigger rnd(x)} :: minNormal <= x ==> x - Prod(UNIT, x) <= rnd(x) <= x + Prod(UNIT, x))
    && (forall x: real {:trigger rnd(x)} :: 0.0 <= x <= Prod(minNormal, HALF_UNIT) ==> rnd(x) == 0.0)
    && (forall a: real, s: real {:trigger rnd(a), rnd(s)} ::
          rnd(a) == a && 0.0 <= a <= s <= a + Prod(a, HALF_UNIT) ==> rnd(s) == a)
  }

  // The running power before term n.
  function PowerAt(rnd: real -> real, z: real, zSquared: real, n: nat): real {
    if n == 0 then z else rnd(Prod(PowerAt(rnd, z, zSquared, n - 1), zSquared))
  }

  function Share(power: real, n: nat): real {
    power / (2.0 * n as real + 1.0)
  }

  function Contribution(rnd: real -> real, z: real, zSquared: real, n: nat): real {
    rnd(Share(PowerAt(rnd, z, zSquared, n), n))
  }

  // The running sum of the first n terms.
  function SumAt(rnd: real -> real, z: real, zSquared: real, n: nat): real {
    if n == 0 then 0.0 else rnd(SumAt(rnd, z, zSquared, n - 1) + Contribution(rnd, z, zSquared, n - 1))
  }

  function Z(rnd: real -> real, ratio: real): real
    requires rnd(2.0 - ratio) != 0.0
  {
    rnd(ratio / rnd(2.0 - ratio))
  }

  // The running sum for a ratio.
  function Total(rnd: real -> real, ratio: real, n: nat): real
    requires rnd(2.0 - ratio) != 0.0
  {
    SumAt(rnd, Z(rnd, ratio), rnd(Sq(Z(rnd, ratio))), n)
  }

  lemma ProductExplicit(x: real, y: real)
    ensures x * y == Prod(x, y)
    ensures x * x == Sq(x)
  {
  }

  lemma FirstTerm(rnd: real -> real, z: real, zSquared: real)
    ensures PowerAt(rnd, z, zSquared, 0) == z && SumAt(rnd, z, zSquared, 0) == 0.0
  {
  }

  // One iteration of the loop.
  lemma NextTerm(rnd: real -> real, z: real, zSquared: real, n: nat)
    ensures var p := PowerAt(rnd, z, zSquared, n);
            && PowerAt(rnd, z, zSquared, n + 1) == rnd(Prod(p, zSquared))
            && SumAt(rnd, z, zSquared, n + 1) == rnd(SumAt(rnd, z, zSquared, n) + rnd(p / (2.0 * n as real + 1.0)))
  {
  }

  // The properties of the rounding, one by one.
  lemma Monotone(rnd: real -> real, minNormal: real, x: real, y: real)
    requires RoundsToNearest(rnd, minNormal) && 0.0 <= x <= y
    ensures 0.0 <= rnd(x) <= rnd(y)
  {
    assert rnd(0.0) <= rnd(x);
  }

  lemma Onto(rnd: real -> real, minNormal: real, x: real)
    requires RoundsToNearest(rnd, minNormal)
    ensures rnd(rnd(x)) == rnd(x)
    ensures rnd(0.0) == 0.0 && rnd(1.0) == 1.0
  {
  }

  lemma RelativeError(rnd: real -> real, minNormal: real, x: real)
    requires RoundsToNearest(rnd, minNormal) && minNormal <= x
    ensures x - Prod(UNIT, x) <= rnd(x) <= x + Prod(UNIT, x)
  {
    hide Prod, Pow;
  }

  lemma Flush(rnd: real -> real, minNormal: real, x: real)
    requires RoundsToNearest(rnd, minNormal) && 0.0 <= x <= Prod(minNormal, HALF_UNIT)
    ensures rnd(x) == 0.0
  {
    hide Prod, Pow;
  }

  lemma Absorbs(rnd: real -> real, minNormal: real, a: real, s: real)
    requires RoundsToNearest(rnd, minNormal) && rnd(a) == a && 0.0 <= a <= s <= a + Prod(a, HALF_UNIT)
    ensures rnd(s) == a
  {
    hide Prod, Pow;
  }

  // What the loop is entered with.
  ghost predicate Reduced(rnd: real -> real, z: real, zSquared: real) {
    && 0.0 <= z <= 0.9051 && rnd(z) == z
    && zSquared == rnd(Sq(z)) && 0.0 <= zSquared <= 0.8194
  }

  lemma ZBounds(rnd: real -> real, minNormal: real, ratio: real)
    requires RoundsToNearest(rnd, minNormal)
    requires 0.0 <= ratio < 0.95
    ensures rnd(2.0 - ratio) != 0.0
    ensures Reduced(rnd, Z(rnd, ratio), rnd(Sq(Z(rnd, ratio))))
  {
    assert minNormal <= 0.0001 by { SmallNormal(minNormal); }
    hide RoundsToNearest;
    var d := rnd(2.0 - ratio);
    RoundingError(rnd, minNormal, 2.0 - ratio);
    QuotientBound(ratio, d);
    RoundedBelow(rnd, minNormal, ratio / d, 0.905, 0.9051);
    var z := Z(rnd, ratio);
    ProductMonotone(z, z, 0.9051, 0.9051);
    assert Prod(0.9051, 0.9051) <= 0.81925;
    RoundedBelow(rnd, minNormal, Sq(z), 0.81925, 0.8194);
  }

  lemma QuotientBound(ratio: real, d: real)
    requires 0.0 <= ratio < 0.95 && d >= 1.0499
    ensures 0.0 <= ratio / d <= 0.905
  {
    SmallerQuotient(ratio, d, 0.95, 1.0499);
    assert 0.95 / 1.0499 <= 0.905;
  }

  lemma SmallNormal(minNormal: real)
    requires minNormal <= Pow(HALF_UNIT, 4)
    ensures minNormal <= 0.0001
  {
    assert Pow(HALF_UNIT, 4) <= HALF_UNIT by {
      PowMonotone(HALF_UNIT, 1.0, 3);
      assert Pow(1.0, 3) == 1.0;
      ProductMonotone(HALF_UNIT, Pow(HALF_UNIT, 3), HALF_UNIT, 1.0);
      assert Pow(HALF_UNIT, 4) == Prod(HALF_UNIT, Pow(HALF_UNIT, 3));
    }
  }

  lemma RoundingError(rnd: real -> real, minNormal: real, x: real)
    requires RoundsToNearest(rnd, minNormal) && minNormal <= x <= 2.0
    ensures x - 0.00001 <= rnd(x) <= x + 0.00001
  {
    RelativeError(rnd, minNormal, x);
    assert Prod(UNIT, x) <= 0.00001;
  }

  // A value up to a bound is rounded to little more than the bound.
  lemma RoundedBelow(rnd: real -> real, minNormal: real, x: real, bound: real, slack: real)
    requires RoundsToNearest(rnd, minNormal) && minNormal <= 0.0001
    requires 0.0 <= x <= bound <= 2.0 && bound >= 0.0001 && slack >= bound + 0.00001
    ensures 0.0 <= rnd(x) <= slack && rnd(rnd(x)) == rnd(x)
  {
    hide RoundsToNearest;
    Monotone(rnd, minNormal, x, bound);
    RoundingError(rnd, minNormal, bound);
    Onto(rnd, minNormal, x);
  }

  // The powers never grow, and neither do the contributions.
  lemma {:induction false} PowerShrinks(rnd: real -> real, minNormal: real, z: real, zSquared: real, n: nat)
    requires RoundsToNearest(rnd, minNormal) && Reduced(rnd, z, zSquared)
    ensures 0.0 <= PowerAt(rnd, z, zSquared, n + 1) <= PowerAt(rnd, z, zSquared, n)
    ensures rnd(PowerAt(rnd, z, zSquared, n)) == PowerAt(rnd, z, zSquared, n)
  {
    hide RoundsToNearest, Prod;
    var p := PowerAt(rnd, z, zSquared, n);
    if n > 0 {
      PowerShrinks(rnd, minNormal, z, zSquared, n - 1);
      Onto(rnd, minNormal, Prod(PowerAt(rnd, z, zSquared, n - 1), zSquared));
    }
    ProductMonotone(p, zSquared, p, 1.0);
    ProdAlgebra(p, 1.0, 1.0);
    Monotone(rnd, minNormal, Prod(p, zSquared), p);
  }

  lemma ContributionShrinks(rnd: real -> real, minNormal: real, z: real, zSquared: real, n: nat)
    requires RoundsToNearest(rnd, minNormal) && Reduced(rnd, z, zSquared)
    ensures 0.0 <= Contribution(rnd, z, zSquared, n + 1) <= Contribution(rnd, z, zSquared, n)
    ensures Contribution(rnd, z, zSquared, n) <= PowerAt(rnd, z, zSquared, n)
    ensures n == 0 ==> Contribution(rnd, z, zSquared, n) == z
  {
    hide RoundsToNearest, Share;
    var p, q := PowerAt(rnd, z, zSquared, n), PowerAt(rnd, z, zSquared, n + 1);
    PowerShrinks(rnd, minNormal, z, zSquared, n);
    PowerShrinks(rnd, minNormal, z, zSquared, n + 1);
    ShareShrinks(q, p, n);
    hide PowerAt, Reduced;
    Monotone(rnd, minNormal, Share(q, n + 1), Share(p, n));
    Monotone(rnd, minNormal, Share(p, n), p);
  }

  lemma ShareShrinks(q: real, p: real, n: nat)
    requires 0.0 <= q <= p
    ensures 0.0 <= Share(q, n + 1) <= Share(p, n) <= p
    ensures n == 0 ==> Share(p, n) == p
  {
    var m := 2.0 * n as real + 1.0;
    assert 2.0 * (n + 1) as real + 1.0 == m + 2.0;
    SmallerQuotient(q, m + 2.0, p, m);
    SmallerQuotient(p, m, p, 1.0);
  }

  // The sum never falls below the first term, and is always representable.
  lemma {:induction false} SumAtLeastZ(rnd: real -> real, minNormal: real, z: real, zSquared: real, n: nat)
    requires RoundsToNearest(rnd, minNormal) && Reduced(rnd, z, zSquared) && n > 0
    ensures z <= SumAt(rnd, z, zSquared, n)
    ensures rnd(SumAt(rnd, z, zSquared, n)) == SumAt(rnd, z, zSquared, n)
  {
    hide RoundsToNearest;
    ContributionShrinks(rnd, minNormal, z, zSquared, n - 1);
    hide Contribution;
    var sum, c := SumAt(rnd, z, zSquared, n - 1), Contribution(rnd, z, zSquared, n - 1);
    Onto(rnd, minNormal, sum + c);
    if n > 1 {
      SumAtLeastZ(rnd, minNormal, z, zSquared, n - 1);
      Monotone(rnd, minNormal, sum, sum + c);
    }
  }

  // Once one term changes nothing, no later term changes anything.
  lemma {:induction false} FixedFrom(rnd: real -> real, minNormal: real, z: real, zSquared: real, n: nat, m: nat)
    requires RoundsToNearest(rnd, minNormal) && Reduced(rnd, z, zSquared)
    requires 1 < n <= m && SumAt(rnd, z, zSquared, n) == SumAt(rnd, z, zSquared, n - 1)
    ensures SumAt(rnd, z, zSquared, m) == SumAt(rnd, z, zSquared, m - 1) == SumAt(rnd, z, zSquared, n - 1)
  {
    hide *;
    if n < m {
      FixedFrom(rnd, minNormal, z, zSquared, n, m - 1);
      FixedStep(rnd, minNormal, z, zSquared, m - 2);
    }
  }

  lemma FixedStep(rnd: real -> real, minNormal: real, z: real, zSquared: real, n: nat)
    requires RoundsToNearest(rnd, minNormal) && Reduced(rnd, z, zSquared)
    requires SumAt(rnd, z, zSquared, n + 1) == SumAt(rnd, z, zSquared, n)
    ensures SumAt(rnd, z, zSquared, n + 2) == SumAt(rnd, z, zSquared, n + 1)
  {
    hide RoundsToNearest, PowerAt, Contribution, Sq;
    SumAtLeastZ(rnd, minNormal, z, zSquared, n + 1);
    ContributionShrinks(rnd, minNormal, z, zSquared, n);
    var sum := SumAt(rnd, z, zSquared, n + 1);
    assert sum >= 0.0;
    hide Reduced;
    StillFixed(rnd, minNormal, sum, Contribution(rnd, z, zSquared, n), Contribution(rnd, z, zSquared, n + 1));
  }

  lemma StillFixed(rnd: real -> real, minNormal: real, sum: real, before: real, now: real)
    requires RoundsToNearest(rnd, minNormal)
    requires 0.0 <= sum == rnd(sum) && 0.0 <= now <= before && rnd(sum + before) == sum
    ensures rnd(sum + now) == sum
  {
    hide RoundsToNearest;
    Monotone(rnd, minNormal, sum, sum + now);
    Monotone(rnd, minNormal, sum + now, sum + before);
  }

  lemma FixedForGood(rnd: real -> real, minNormal: real, z: real, zSquared: real, n: nat)
    requires RoundsToNearest(rnd, minNormal) && Reduced(rnd, z, zSquared)
    requires 1 < n && SumAt(rnd, z, zSquared, n) == SumAt(rnd, z, zSquared, n - 1)
    ensures forall m: nat :: m >= n ==> SumAt(rnd, z, zSquared, m) == SumAt(rnd, z, zSquared, n - 1)
  {
    forall m: nat | m >= n
      ensures SumAt(rnd, z, zSquared, m) == SumAt(rnd, z, zSquared, n - 1)
    {
      FixedFrom(rnd, minNormal, z, zSquared, n, m);
    }
  }

  // A term of at most half a unit in the last place of the sum is absorbed.
  lemma Absorbed(rnd: real -> real, minNormal: real, z: real, zSquared: real, n: nat)
    requires RoundsToNearest(rnd, minNormal) && Reduced(rnd, z, zSquared) && n > 0
    requires PowerAt(rnd, z, zSquared, n) <= Prod(z, HALF_UNIT)
    ensures SumAt(rnd, z, zSquared, n + 1) == SumAt(rnd, z, zSquared, n)
  {
    hide RoundsToNearest;
    SumAtLeastZ(rnd, minNormal, z, zSquared, n);
    ContributionShrinks(rnd, minNormal, z, zSquared, n);
    ContributionShrinks(rnd, minNormal, z, zSquared, n - 1);
    var sum, c := SumAt(rnd, z, zSquared, n), Contribution(rnd, z, zSquared, n);
    ProductMonotone(z, HALF_UNIT, sum, HALF_UNIT);
    hide Prod, Contribution, PowerAt;
    Absorbs(rnd, minNormal, sum, sum + c);
  }

  // Powers decay geometrically until they are down at the smallest normal
  // number.
  lemma {:induction false} PowerDecays(rnd: real -> real, minNormal: real, z: real, zSquared: real, n: nat)
    requires RoundsToNearest(rnd, minNormal) && Reduced(rnd, z, zSquared)
    ensures PowerAt(rnd, z, zSquared, n) <= Prod(z, Pow(0.82, n)) || PowerAt(rnd, z, zSquared, n) <= 2.0 * minNormal
  {
    hide RoundsToNearest, Prod;
    if n == 0 {
      ProdAlgebra(z, 1.0, 1.0);
    } else {
      PowerDecays(rnd, minNormal, z, zSquared, n - 1);
      PowerShrinks(rnd, minNormal, z, zSquared, n - 1);
      var p := PowerAt(rnd, z, zSquared, n - 1);
      if p > 2.0 * minNormal {
        RoundedProduct(rnd, minNormal, p, zSquared);
        ProductMonotone(p, 0.82, Prod(z, Pow(0.82, n - 1)), 0.82);
        ProdAlgebra(z, Pow(0.82, n - 1), 0.82);
        ProdAlgebra(0.82, Pow(0.82, n - 1), 1.0);
        assert Prod(z, Pow(0.82, n)) == Prod(Prod(z, Pow(0.82, n - 1)), 0.82);
      }
    }
  }

  lemma RoundedProduct(rnd: real -> real, minNormal: real, p: real, zSquared: real)
    requires RoundsToNearest(rnd, minNormal) && p > 2.0 * minNormal && 0.0 <= zSquared <= 0.8194
    ensures rnd(Prod(p, zSquared)) <= Prod(p, 0.82)
  {
    var bound := Prod(p, 0.8194);
    ProductMonotone(p, zSquared, p, 0.8194);
    assert bound == 0.8194 * p;
    assert bound + Prod(UNIT, bound) <= 0.82 * p == Prod(p, 0.82);
    assert 0.0 < minNormal <= bound;
    hide RoundsToNearest, Prod;
    Monotone(rnd, minNormal, Prod(p, zSquared), bound);
    RelativeError(rnd, minNormal, bound);
  }

  lemma DecayNumbers()
    ensures Pow(0.82, 192) <= HALF_UNIT * 0.9
  {
    hide Pow;
    DecayStart();
    DecayDoubles(4, 0.45213, 0.20443);
    DecayDoubles(8, 0.20443, 0.041792);
    DecayDoubles(16, 0.041792, 0.0017466);
    DecayDoubles(32, 0.0017466, 0.0000030507);
    DecayDoubles(64, 0.0000030507, 0.0000000000093068);
    PowAdd(0.82, 128, 64);
    PowPositive(0.82, 128);
    PowPositive(0.82, 64);
    ProductMonotone(Pow(0.82, 128), Pow(0.82, 64), 0.0000000000093068, 0.0000030507);
  }

  lemma DecayStart()
    ensures Pow(0.82, 4) <= 0.45213
  {
    assert Pow(0.82, 1) == 0.82 && Pow(0.82, 2) == 0.6724;
    assert Pow(0.82, 4) == Prod(0.82, Pow(0.82, 3)) && Pow(0.82, 3) == Prod(0.82, Pow(0.82, 2));
  }

  lemma DecayDoubles(n: nat, bound: real, next: real)
    requires Pow(0.82, n) <= bound && bound * bound <= next
    ensures Pow(0.82, 2 * n) <= next
  {
    PowPositive(0.82, n);
    PowAdd(0.82, n, n);
    ProductMonotone(Pow(0.82, n), Pow(0.82, n), bound, bound);
    assert Prod(bound, bound) == bound * bound;
  }

  // By the 193rd term the sum has stopped changing, for every ratio.
  lemma AbsorbedInTime(rnd: real -> real, minNormal: real, z: real, zSquared: real)
    requires RoundsToNearest(rnd, minNormal) && Reduced(rnd, z, zSquared)
    ensures SumAt(rnd, z, zSquared, ENOUGH_TERMS) == SumAt(rnd, z, zSquared, ENOUGH_TERMS - 1)
  {
    var n := ENOUGH_TERMS - 1;
    assert 0.0 < minNormal <= Pow(HALF_UNIT, 4);
    hide RoundsToNearest, Prod, Pow;
    if 2.0 * minNormal <= Prod(z, HALF_UNIT) {
      PowerDecays(rnd, minNormal, z, zSquared, n);
      DecayNumbers();
      PowPositive(0.82, n);
      ProductMonotone(z, Pow(0.82, n), z, HALF_UNIT);
    } else {
      TinySquare(minNormal, z);
      NonNegative(z, z);
      Flush(rnd, minNormal, Sq(z));
      Onto(rnd, minNormal, 0.0);
      ProdWithZero(PowerAt(rnd, z, zSquared, n - 1));
      NonNegative(z, HALF_UNIT);
    }
    Absorbed(rnd, minNormal, z, zSquared, n);
  }

  lemma ProdWithZero(x: real)
    ensures Prod(x, 0.0) == 0.0
  {
  }

  // A first term too small to outlast the flush has a square that is flushed.
  lemma TinySquare(minNormal: real, z: real)
    requires 0.0 < minNormal <= Pow(HALF_UNIT, 4) && z >= 0.0 && Prod(z, HALF_UNIT) < 2.0 * minNormal
    ensures Prod(z, z) <= Prod(minNormal, HALF_UNIT)
  {
    var e := HALF_UNIT;
    var w := Prod(z, e);
    var e3 := Prod(e, Prod(e, e));
    NonNegative(z, e);
    ProductMonotone(w, w, 2.0 * minNormal, 2.0 * minNormal);
    FourthPower(e);
    ProductMonotone(minNormal, 4.0 * minNormal, minNormal, e3);
    Rearrange(z, e, minNormal);
    ProdPositive(minNormal, e);
    ProdPositive(e, e);
    hide Prod, Pow;
    if Prod(z, z) > Prod(minNormal, e) {
      ProdMonotone(Prod(minNormal, e), Prod(z, z), Prod(e, e), Prod(e, e));
    }
  }

  lemma FourthPower(e: real)
    requires 0.0 < e <= 0.25
    ensures 0.0 < 4.0 * Pow(e, 4) <= Prod(e, Prod(e, e))
  {
    hide Prod;
    ProdAlgebra(e, 1.0, 1.0);
    assert Pow(e, 1) == Prod(e, Pow(e, 0)) && Pow(e, 2) == Prod(e, Pow(e, 1));
    assert Pow(e, 3) == Prod(e, Pow(e, 2)) && Pow(e, 4) == Prod(e, Pow(e, 3));
    PowPositive(e, 3);
    PowPositive(e, 4);
    ProductMonotone(e, Pow(e, 3), 0.25, Pow(e, 3));
    QuarterOf(Pow(e, 3));
  }

  lemma QuarterOf(x: real)
    ensures Prod(0.25, x) == 0.25 * x
  {
  }

  lemma Rearrange(z: real, e: real, m: real)
    ensures Prod(Prod(z, e), Prod(z, e)) == Prod(Prod(z, z), Prod(e, e))
    ensures Prod(2.0 * m, 2.0 * m) == Prod(m, 4.0 * m)
    ensures Prod(m, Prod(e, Prod(e, e))) == Prod(Prod(m, e), Prod(e, e))
  {
  }
}
