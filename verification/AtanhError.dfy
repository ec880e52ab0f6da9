// How far the rounded loop is from the exact series: every power, share and
// partial sum is within a few roundings a term of its exact counterpart, until
// the terms are too small to matter to either.
module AtanhError {
  import opened RealPowers
  import opened AtanhSeries
  import opened AtanhTerms
  import opened Nearness

  // The exact argument of the series.
  function Exact(ratio: real): real
    requires ratio < 2.0
  {
    ratio / (2.0 - ratio)
  }

  lemma ExactBounds(ratio: real)
    requires 0.0 <= ratio < 0.95
    ensures 0.0 <= Exact(ratio) <= 0.905 && Exact(ratio) <= ratio
    ensures 2.0 * Exact(ratio) >= ratio
  {
    SmallerQuotient(ratio, 2.0 - ratio, 0.95, 1.05);
    SmallerQuotient(ratio, 2.0 - ratio, ratio, 1.0);
    SmallerQuotient(ratio, 2.0, ratio, 2.0 - ratio);
    assert 0.95 / 1.05 <= 0.905;
  }

  // From the smallest normal ratios on, z is the exact argument but for two
  // roundings.
  lemma ZIsNear(rnd: real -> real, minNormal: real, ratio: real)
    requires RoundsToNearest(rnd, minNormal) && 4.0 * minNormal <= ratio < 0.95
    ensures rnd(2.0 - ratio) != 0.0 && Near(Z(rnd, ratio), Exact(ratio), 2)
  {
    assert 0.0 < minNormal <= 0.0001 by { SmallNormal(minNormal); }
    var d := rnd(2.0 - ratio);
    hide RoundsToNearest, Near;
    RoundingError(rnd, minNormal, 2.0 - ratio);
    NearRound(rnd, minNormal, 2.0 - ratio);
    NearQuotient(ratio, d, 2.0 - ratio, 1);
    LargeQuotient(ratio, d, minNormal);
    NearRounded(rnd, minNormal, ratio / d, Exact(ratio), 1);
  }

  lemma LargeQuotient(x: real, d: real, least: real)
    requires 0.0 < least && 4.0 * least <= x && 0.0 < d <= 3.0
    ensures x / d >= least
  {
    SmallerQuotient(x, 3.0, x, d);
  }

  // ----- one term -----

  // The power before term n is near, or both are next to nothing.
  ghost predicate Tracks(p: real, exact: real, minNormal: real, k: nat) {
    Near(p, exact, k) || Negligible(p, exact, minNormal)
  }

  ghost predicate Negligible(p: real, exact: real, minNormal: real) {
    0.0 <= p <= 4.0 * minNormal && 0.0 <= exact <= 4.0 * minNormal
  }

  lemma TinyRounded(rnd: real -> real, minNormal: real, x: real)
    requires RoundsToNearest(rnd, minNormal) && 0.0 <= x <= 2.0 * minNormal
    ensures 0.0 <= rnd(x) <= 4.0 * minNormal
    ensures x <= minNormal ==> rnd(x) <= 2.0 * minNormal
  {
    assert minNormal > 0.0;
    Monotone(rnd, minNormal, x, 2.0 * minNormal);
    RelativeError(rnd, minNormal, 2.0 * minNormal);
    RelativeError(rnd, minNormal, minNormal);
    hide RoundsToNearest;
    assert Prod(UNIT, minNormal) == UNIT * minNormal && Prod(UNIT, 2.0 * minNormal) == UNIT * (2.0 * minNormal);
    hide Prod;
    if x <= minNormal {
      Monotone(rnd, minNormal, x, minNormal);
    }
  }

  // A product of a tracked number with a near factor, rounded.
  lemma TrackedProduct(rnd: real -> real, minNormal: real, p: real, exact: real, q: real, factor: real, k: nat)
    requires RoundsToNearest(rnd, minNormal) && Near(p, exact, k) && Near(q, factor, 5) && k + 6 <= 1400
    ensures Tracks(rnd(Prod(p, q)), Prod(exact, factor), minNormal, k + 6)
  {
    var x, y := Prod(p, q), Prod(exact, factor);
    NearProd(p, exact, q, factor, k, 5);
    hide Near, Prod;
    if x >= minNormal {
      NearRounded(rnd, minNormal, x, y, k + 5);
    } else {
      assert minNormal > 0.0;
      NearBounds(x, y, k + 5);
      TinyRounded(rnd, minNormal, x);
    }
  }

  lemma NearBounds(x: real, y: real, k: nat)
    requires Near(x, y, k) && k <= 1400
    ensures 0.0 <= x <= 2.0 * y && 0.0 <= y <= 2.0 * x
  {
    NearDifference(x, y, k);
  }

  // A near number, rounded.
  lemma RoundedTracks(rnd: real -> real, minNormal: real, p: real, exact: real, k: nat)
    requires RoundsToNearest(rnd, minNormal) && Near(p, exact, k) && k + 1 <= 1400
    ensures Tracks(rnd(p), exact, minNormal, k + 1)
  {
    assert minNormal > 0.0;
    hide Near;
    NearBounds(p, exact, k);
    if p >= minNormal {
      NearRounded(rnd, minNormal, p, exact, k);
    } else {
      TinyRounded(rnd, minNormal, p);
    }
  }

  // ----- the powers -----

  // A z whose terms matter, with its exact argument.
  ghost predicate Tracked(rnd: real -> real, minNormal: real, z: real, zSquared: real, w: real) {
    && RoundsToNearest(rnd, minNormal) && Reduced(rnd, z, zSquared)
    && 0.0 <= w <= 0.905 && Near(z, w, 2)
    && 8.0 * minNormal <= Prod(z, HALF_UNIT)
  }

  lemma SquareTracks(rnd: real -> real, minNormal: real, z: real, zSquared: real, w: real)
    requires Tracked(rnd, minNormal, z, zSquared, w)
    ensures Near(zSquared, Sq(w), 5)
         || (0.0 <= zSquared <= 2.0 * minNormal && 0.0 <= Sq(w) <= 2.0 * minNormal)
  {
    NearProd(z, w, z, w, 2, 2);
    NonNegative(w, w);
    hide Near, Prod;
    if Sq(z) >= minNormal {
      NearRounded(rnd, minNormal, Sq(z), Sq(w), 4);
    } else {
      assert minNormal > 0.0;
      NearBounds(Sq(z), Sq(w), 4);
      TinyRounded(rnd, minNormal, Sq(z));
    }
  }

  lemma PowerStays(p: real, q: real, limit: real)
    requires 0.0 <= p <= 1.0 && 0.0 <= q <= limit
    ensures 0.0 <= Prod(p, q) <= limit
  {
    ProductMonotone(p, q, 1.0, q);
    ProdAlgebra(q, 1.0, 1.0);
  }

  lemma PowerAtMostOne(rnd: real -> real, minNormal: real, z: real, zSquared: real, n: nat)
    requires RoundsToNearest(rnd, minNormal) && Reduced(rnd, z, zSquared)
    ensures 0.0 <= PowerAt(rnd, z, zSquared, n) <= 1.0
    decreases n
  {
    hide RoundsToNearest;
    if n > 0 {
      PowerAtMostOne(rnd, minNormal, z, zSquared, n - 1);
      hide PowerAt, Reduced;
      PowerShrinks(rnd, minNormal, z, zSquared, n - 1);
    }
  }

  lemma ExactPowerStep(w: real, n: nat)
    requires 0.0 <= w <= 0.905
    ensures Pow(w, 2 * n + 3) == Prod(Pow(w, 2 * n + 1), Sq(w))
    ensures 0.0 <= Pow(w, 2 * n + 3) <= Pow(w, 2 * n + 1) <= 1.0
  {
    OddPowerStep(w, n);
    HigherPower(w, 2 * n + 1, 2 * n + 3);
    HigherPower(w, 0, 2 * n + 1);
    hide Pow;
    ProdAlgebra(Sq(w), Pow(w, 2 * n + 1), 1.0);
  }

  lemma PowerStep(rnd: real -> real, z: real, zSquared: real, n: nat)
    ensures PowerAt(rnd, z, zSquared, n + 1) == rnd(Prod(PowerAt(rnd, z, zSquared, n), zSquared))
  {
  }

  lemma NextTracks(rnd: real -> real, minNormal: real, p: real, exact: real, q: real, factor: real, k: nat)
    requires RoundsToNearest(rnd, minNormal) && Tracks(p, exact, minNormal, k) && k + 6 <= 1400
    requires Near(q, factor, 5) || (0.0 <= q <= 2.0 * minNormal && 0.0 <= factor <= 2.0 * minNormal)
    requires 0.0 <= p <= 1.0 && 0.0 <= exact <= 1.0
    requires 0.0 <= rnd(Prod(p, q)) <= p && 0.0 <= Prod(exact, factor) <= exact
    ensures Tracks(rnd(Prod(p, q)), Prod(exact, factor), minNormal, k + 6)
  {
    hide Near, RoundsToNearest, Prod;
    if Near(p, exact, k) {
      if Near(q, factor, 5) {
        TrackedProduct(rnd, minNormal, p, exact, q, factor, k);
      } else {
        PowerStays(p, q, 2.0 * minNormal);
        PowerStays(exact, factor, 2.0 * minNormal);
        TinyRounded(rnd, minNormal, Prod(p, q));
      }
    }
  }

  lemma {:induction false} PowersTrack(rnd: real -> real, minNormal: real, z: real, zSquared: real, w: real, n: nat)
    requires Tracked(rnd, minNormal, z, zSquared, w) && n <= ENOUGH_TERMS
    ensures Tracks(PowerAt(rnd, z, zSquared, n), Pow(w, 2 * n + 1), minNormal, 6 * n + 2)
  {
    hide Near, PowerAt, Pow, Prod, RoundsToNearest, Tracks, Reduced;
    if n == 0 {
      StartTracks(rnd, minNormal, z, zSquared, w);
    } else {
      PowersTrack(rnd, minNormal, z, zSquared, w, n - 1);
      SquareTracks(rnd, minNormal, z, zSquared, w);
      ExactPowerStep(w, n - 1);
      PowerStep(rnd, z, zSquared, n - 1);
      PowerShrinks(rnd, minNormal, z, zSquared, n - 1);
      PowerAtMostOne(rnd, minNormal, z, zSquared, n - 1);
      NextTracks(rnd, minNormal, PowerAt(rnd, z, zSquared, n - 1), Pow(w, 2 * (n - 1) + 1), zSquared, Sq(w),
                 6 * (n - 1) + 2);
    }
  }

  lemma StartTracks(rnd: real -> real, minNormal: real, z: real, zSquared: real, w: real)
    requires Near(z, w, 2)
    ensures Tracks(PowerAt(rnd, z, zSquared, 0), Pow(w, 1), minNormal, 2)
  {
    FirstPower(w);
    hide Near, Pow;
  }

  lemma FirstPower(w: real)
    ensures Pow(w, 1) == w
  {
    ProdAlgebra(w, 1.0, 1.0);
    assert Pow(w, 1) == Prod(w, Pow(w, 0));
  }

  // ----- the sums -----

  lemma TermsTrack(rnd: real -> real, minNormal: real, z: real, zSquared: real, w: real, n: nat)
    requires Tracked(rnd, minNormal, z, zSquared, w) && n <= ENOUGH_TERMS
    ensures Tracks(Contribution(rnd, z, zSquared, n), AtanhTerm(w, n), minNormal, 6 * n + 3)
  {
    hide Near, PowerAt, Pow, Prod, Sq, RoundsToNearest, Reduced, Contribution, AtanhTerm;
    PowersTrack(rnd, minNormal, z, zSquared, w, n);
    ContributionShrinks(rnd, minNormal, z, zSquared, n);
    TermsShrink(w, n);
    SharesAre(rnd, z, zSquared, w, n);
    var p, exact, m := PowerAt(rnd, z, zSquared, n), Pow(w, 2 * n + 1), 2.0 * n as real + 1.0;
    if Near(p, exact, 6 * n + 2) {
      NearShare(p, exact, m, 6 * n + 2);
      RoundedTracks(rnd, minNormal, p / m, exact / m, 6 * n + 2);
    }
  }

  lemma SharesAre(rnd: real -> real, z: real, zSquared: real, w: real, n: nat)
    ensures Contribution(rnd, z, zSquared, n) == rnd(PowerAt(rnd, z, zSquared, n) / (2.0 * n as real + 1.0))
    ensures AtanhTerm(w, n) == Pow(w, 2 * n + 1) / (2.0 * n as real + 1.0)
  {
    assert (2 * n + 1) as real == 2.0 * n as real + 1.0;
    hide Pow, PowerAt;
  }

  lemma HalfUnitTimes(x: real)
    ensures Prod(x, HALF_UNIT) == HALF_UNIT * x && Prod(UNIT, x) == UNIT * x
  {
  }

  // A term too small to matter is absorbed, and is less than a rounding of the
  // exact sum.
  lemma NegligibleTerm(rnd: real -> real, minNormal: real, z: real, w: real, sum: real, exact: real, c: real, t: real,
                       k: nat)
    requires RoundsToNearest(rnd, minNormal) && Near(z, w, 2) && 8.0 * minNormal <= Prod(z, HALF_UNIT)
    requires z <= sum && rnd(sum) == sum && w <= exact && Near(sum, exact, k) && Negligible(c, t, minNormal)
    ensures Near(rnd(sum + c), exact + t, k + 1)
  {
    NearBounds(z, w, 2);
    HalfUnitTimes(z);
    HalfUnitTimes(sum);
    HalfUnitTimes(exact);
    hide Near, Prod, RoundsToNearest;
    Absorbs(rnd, minNormal, sum, sum + c);
    NearAddend(exact, t);
    NearTrans(sum, exact, exact + t, k, 1);
  }

  lemma NextSum(rnd: real -> real, minNormal: real, z: real, w: real, sum: real, exact: real, c: real, t: real,
                j: nat, k: nat)
    requires RoundsToNearest(rnd, minNormal) && Near(z, w, 2) && 8.0 * minNormal <= Prod(z, HALF_UNIT)
    requires z <= sum && rnd(sum) == sum && w <= exact && Near(sum, exact, k)
    requires Tracks(c, t, minNormal, j) && j <= k && c >= 0.0
    ensures Near(rnd(sum + c), exact + t, k + 1)
  {
    HalfUnitTimes(z);
    assert minNormal > 0.0;
    hide Near, Prod, RoundsToNearest;
    if Near(c, t, j) {
      NearMore(c, t, j, k);
      NearSum(sum, exact, c, t, k);
      NearRounded(rnd, minNormal, sum + c, exact + t, k);
    } else {
      NegligibleTerm(rnd, minNormal, z, w, sum, exact, c, t, k);
    }
  }

  lemma FirstSum(rnd: real -> real, minNormal: real, z: real, zSquared: real, w: real)
    requires Tracked(rnd, minNormal, z, zSquared, w)
    ensures SumAt(rnd, z, zSquared, 1) == z && AtanhSum(w, 1) == w
  {
    hide Contribution, RoundsToNearest, Prod, Pow, Near, PowerAt;
    ContributionShrinks(rnd, minNormal, z, zSquared, 0);
    FirstTerms(w);
    assert SumAt(rnd, z, zSquared, 1) == rnd(SumAt(rnd, z, zSquared, 0) + Contribution(rnd, z, zSquared, 0));
  }

  lemma SumStep(rnd: real -> real, z: real, zSquared: real, w: real, n: nat)
    ensures SumAt(rnd, z, zSquared, n + 1) == rnd(SumAt(rnd, z, zSquared, n) + Contribution(rnd, z, zSquared, n))
    ensures AtanhSum(w, n + 1) == AtanhSum(w, n) + AtanhTerm(w, n)
  {
  }

  lemma SumAtLeastFirst(w: real, n: nat)
    requires 0.0 <= w <= 0.905 && n >= 1
    ensures AtanhSum(w, n) >= w
  {
    TailBound(w, 1, n);
    FirstTerms(w);
  }

  // Every partial sum is within seven roundings a term of the exact one.
  lemma {:induction false} SumsTrack(rnd: real -> real, minNormal: real, z: real, zSquared: real, w: real, n: nat)
    requires Tracked(rnd, minNormal, z, zSquared, w) && 1 <= n <= ENOUGH_TERMS
    ensures Near(SumAt(rnd, z, zSquared, n), AtanhSum(w, n), 7 * n + 3)
  {
    hide Near, Prod, RoundsToNearest, Reduced, SumAt, AtanhSum, AtanhTerm, Contribution, Tracks;
    if n == 1 {
      FirstSum(rnd, minNormal, z, zSquared, w);
      NearMore(z, w, 2, 10);
    } else {
      SumsTrack(rnd, minNormal, z, zSquared, w, n - 1);
      SumAtLeastZ(rnd, minNormal, z, zSquared, n - 1);
      SumAtLeastFirst(w, n - 1);
      TermsTrack(rnd, minNormal, z, zSquared, w, n - 1);
      ContributionShrinks(rnd, minNormal, z, zSquared, n - 1);
      SumStep(rnd, z, zSquared, w, n - 1);
      var k := 7 * (n - 1) + 3;
      NextSum(rnd, minNormal, z, w, SumAt(rnd, z, zSquared, n - 1), AtanhSum(w, n - 1),
              Contribution(rnd, z, zSquared, n - 1), AtanhTerm(w, n - 1), 6 * (n - 1) + 3, k);
      NearMore(SumAt(rnd, z, zSquared, n), AtanhSum(w, n), k + 1, 7 * n + 3);
    }
  }

  // ----- the tail -----

  lemma SquareDecays(w: real)
    requires 0.0 <= w <= 0.905
    ensures 0.0 <= Sq(w) <= 0.82
  {
    ProductMonotone(w, w, 0.905, 0.905);
    assert Prod(0.905, 0.905) == 0.905 * 0.905;
  }

  lemma {:induction false} OddPower(w: real, n: nat)
    requires 0.0 <= w <= 0.905
    ensures 0.0 <= Pow(w, 2 * n + 1) <= Prod(w, Pow(0.82, n))
  {
    if n == 0 {
      FirstPower(w);
      ProdAlgebra(w, 1.0, 1.0);
    } else {
      OddPower(w, n - 1);
      ExactPowerStep(w, n - 1);
      SquareDecays(w);
      var p, q := Pow(w, 2 * n - 1), Pow(0.82, n - 1);
      assert Pow(0.82, n) == Prod(0.82, q);
      hide Pow, Sq;
      ProductMonotone(p, Sq(w), Prod(w, q), 0.82);
      ProdAlgebra(w, q, 0.82);
      ProdAlgebra(0.82, q, 1.0);
    }
  }

  lemma ThreeAddends(a: real, t: real)
    requires 0.0 <= a && 0.0 <= t <= 3.0 * Prod(UNIT, a)
    ensures Near(a, a + t, 3)
  {
    var third := t / 3.0;
    assert Prod(UNIT, a + third) == Prod(UNIT, a) + Prod(UNIT, third) && Prod(UNIT, third) >= 0.0;
    assert Prod(UNIT, a + 2.0 * third) == Prod(UNIT, a) + 2.0 * Prod(UNIT, third);
    hide Prod, Near;
    NearAddend(a, third);
    NearAddend(a + third, third);
    NearAddend(a + 2.0 * third, third);
    NearTrans(a, a + third, a + third + third, 1, 1);
    NearTrans(a, a + 2.0 * third, a + 2.0 * third + third, 2, 1);
  }

  lemma TailSmall(d: real, w: real, square: real, p: real)
    requires d >= 0.0 && 0.0 <= square <= 0.82 && w >= 0.0
    requires Prod(d, 1.0 - square) <= p <= Prod(w, 0.74 * HALF_UNIT)
    ensures d <= 3.0 * Prod(UNIT, w)
  {
    ProductMonotone(d, 0.18, d, 1.0 - square);
    assert Prod(d, 0.18) == 0.18 * d && Prod(w, 0.74 * HALF_UNIT) == 0.74 * HALF_UNIT * w && Prod(UNIT, w) == UNIT * w;
  }

  lemma LastDecay()
    ensures 0.0 <= Pow(0.82, ENOUGH_TERMS) <= 0.74 * HALF_UNIT
  {
    DecayNumbers();
    PowPositive(0.82, ENOUGH_TERMS);
    var p := Pow(0.82, ENOUGH_TERMS - 1);
    assert Pow(0.82, ENOUGH_TERMS) == Prod(0.82, p);
    hide Pow;
    assert Prod(0.82, p) == 0.82 * p;
  }

  // The terms beyond the 193rd are less than three roundings together.
  lemma TailIsNear(w: real, n: nat)
    requires 0.0 <= w <= 0.905 && n >= ENOUGH_TERMS
    ensures Near(AtanhSum(w, ENOUGH_TERMS), AtanhSum(w, n), 3)
  {
    hide Pow, AtanhSum, Sq, Near, Prod;
    var a, b, p := AtanhSum(w, ENOUGH_TERMS), AtanhSum(w, n), Pow(w, 2 * ENOUGH_TERMS + 1);
    TailBound(w, ENOUGH_TERMS, n);
    PowNonNegative(w, 2 * n + 1);
    OddPower(w, ENOUGH_TERMS);
    LastDecay();
    SquareDecays(w);
    SumAtLeastFirst(w, ENOUGH_TERMS);
    ProductMonotone(w, Pow(0.82, ENOUGH_TERMS), w, 0.74 * HALF_UNIT);
    TailSmall(b - a, w, Sq(w), p);
    ProductMonotone(UNIT, w, UNIT, a);
    ThreeAddends(a, b - a);
    assert a + (b - a) == b;
  }

  // ----- the value -----

  // A z too small for its square to outlast the flush: nothing is ever added.
  lemma {:induction false} NothingAdded(rnd: real -> real, minNormal: real, z: real, n: nat)
    requires RoundsToNearest(rnd, minNormal) && Reduced(rnd, z, 0.0) && n >= 1
    ensures SumAt(rnd, z, 0.0, n) == z && PowerAt(rnd, z, 0.0, n) == 0.0
  {
    hide RoundsToNearest, Sq;
    Onto(rnd, minNormal, 0.0);
    ProdWithZero(PowerAt(rnd, z, 0.0, n - 1));
    ContributionShrinks(rnd, minNormal, z, 0.0, n - 1);
    if n == 1 {
      assert SumAt(rnd, z, 0.0, 0) == 0.0;
    } else {
      NothingAdded(rnd, minNormal, z, n - 1);
      assert Contribution(rnd, z, 0.0, n - 1) == 0.0;
    }
  }

  // A first term too small to outlast the flush has a square that is flushed.
  lemma FlushedSquare(minNormal: real, z: real)
    requires 0.0 < minNormal <= Pow(HALF_UNIT, 4) && z >= 0.0 && Prod(z, HALF_UNIT) < 8.0 * minNormal
    ensures Sq(z) <= Prod(minNormal, HALF_UNIT) && z <= 0.0000001
  {
    var e, m := HALF_UNIT, minNormal;
    var v := Prod(z, e);
    var e3 := Prod(e, Prod(e, e));
    NonNegative(z, e);
    ProductMonotone(v, v, 8.0 * m, 8.0 * m);
    EighthOf(e);
    ProductMonotone(m, 64.0 * m, m, e3);
    SquareParts(z, e, m);
    ProdPositive(m, e);
    ProdPositive(e, e);
    assert v == HALF_UNIT * z;
    hide Prod, Pow;
    if Prod(z, z) > Prod(m, e) {
      ProdMonotone(Prod(m, e), Prod(z, z), Prod(e, e), Prod(e, e));
    }
  }

  lemma FourthIs(e: real)
    ensures Pow(e, 4) == Prod(e, Prod(e, Prod(e, e)))
  {
    hide Prod;
    ProdAlgebra(e, 1.0, 1.0);
    assert Pow(e, 1) == Prod(e, Pow(e, 0)) && Pow(e, 2) == Prod(e, Pow(e, 1));
    assert Pow(e, 3) == Prod(e, Pow(e, 2)) && Pow(e, 4) == Prod(e, Pow(e, 3));
  }

  lemma EighthOf(e: real)
    requires 0.0 < e <= 0.00000001
    ensures 0.0 < 64.0 * Pow(e, 4) <= Prod(e, Prod(e, e)) && 8.0 * Pow(e, 4) <= Prod(e, 0.0000001)
  {
    FourthIs(e);
    var e2 := Prod(e, e);
    var e3 := Prod(e, e2);
    ProdPositive(e, e);
    ProdPositive(e, e2);
    ProdPositive(e, e3);
    ProductMonotone(e, e, e, 1.0);
    ProductMonotone(e, e2, 0.00000001, e);
    ProductMonotone(e, e3, 0.00000001, e3);
    ProductMonotone(e, e3, e, 0.00000001);
    SmallMultiples(e);
    SmallMultiples(e3);
    hide Prod, Pow;
  }

  lemma SmallMultiples(e: real)
    ensures Prod(e, 1.0) == e && Prod(0.00000001, e) == 0.00000001 * e
    ensures Prod(e, 0.00000001) == 0.00000001 * e && Prod(e, 0.0000001) == 0.0000001 * e
  {
  }

  lemma SquareParts(z: real, e: real, m: real)
    ensures Prod(Prod(z, e), Prod(z, e)) == Prod(Prod(z, z), Prod(e, e))
    ensures Prod(8.0 * m, 8.0 * m) == Prod(m, 64.0 * m)
    ensures Prod(m, Prod(e, Prod(e, e))) == Prod(Prod(m, e), Prod(e, e))
  {
  }

  // The exact sum is its first term when the square is next to nothing.
  lemma TinyIsFirst(w: real, n: nat)
    requires 0.0 <= w <= 0.905 && Sq(w) <= 0.5 * HALF_UNIT && n >= 1
    ensures Near(w, AtanhSum(w, n), 3)
  {
    hide Pow, AtanhSum, Near, Prod;
    TailBound(w, 1, n);
    FirstTerms(w);
    PowNonNegative(w, 2 * n + 1);
    ExactPowerStep(w, 0);
    NonNegative(w, w);
    ProductMonotone(w, Sq(w), w, 0.74 * HALF_UNIT);
    hide Sq;
    var a := AtanhSum(w, n);
    TailSmall(a - w, w, Sq(w), Pow(w, 3));
    ThreeAddends(w, a - w);
    assert w + (a - w) == a;
  }

  lemma TwiceAsLarge(w: real, z: real)
    requires 0.0 <= w <= 2.0 * z
    ensures 0.0 <= Sq(w) <= 4.0 * Sq(z)
  {
    ProductMonotone(w, w, 2.0 * z, 2.0 * z);
    assert Prod(2.0 * z, 2.0 * z) == 4.0 * Prod(z, z);
  }

  lemma FlushedSum(rnd: real -> real, minNormal: real, ratio: real, n: nat)
    requires RoundsToNearest(rnd, minNormal) && rnd(2.0 - ratio) != 0.0 && n >= 1
    requires Reduced(rnd, Z(rnd, ratio), rnd(Sq(Z(rnd, ratio)))) && Prod(Z(rnd, ratio), HALF_UNIT) < 8.0 * minNormal
    ensures Total(rnd, ratio, n) == Z(rnd, ratio) && Sq(Z(rnd, ratio)) <= Prod(minNormal, HALF_UNIT)
  {
    var z := Z(rnd, ratio);
    assert 0.0 < minNormal <= Pow(HALF_UNIT, 4);
    NonNegative(z, z);
    hide RoundsToNearest, Prod, Pow, Z;
    FlushedSquare(minNormal, z);
    Flush(rnd, minNormal, Sq(z));
    NothingAdded(rnd, minNormal, z, n);
  }

  lemma SumIsNear(rnd: real -> real, minNormal: real, ratio: real, n: nat)
    requires RoundsToNearest(rnd, minNormal) && 4.0 * minNormal <= ratio < 0.95 && 1 <= n <= ENOUGH_TERMS
    ensures rnd(2.0 - ratio) != 0.0 && Near(Total(rnd, ratio, n), AtanhSum(Exact(ratio), n), 1354)
  {
    assert 0.0 < minNormal <= 0.0001 by { SmallNormal(minNormal); }
    ZBounds(rnd, minNormal, ratio);
    ZIsNear(rnd, minNormal, ratio);
    ExactBounds(ratio);
    var z, w := Z(rnd, ratio), Exact(ratio);
    hide RoundsToNearest, Prod, Reduced, Sq, Near, Z, AtanhSum, Exact;
    if 8.0 * minNormal <= Prod(z, HALF_UNIT) {
      SumsTrack(rnd, minNormal, z, rnd(Sq(z)), w, n);
      NearMore(Total(rnd, ratio, n), AtanhSum(w, n), 7 * n + 3, 1354);
    } else {
      FlushedSum(rnd, minNormal, ratio, n);
      HalfUnitTimes(minNormal);
      NearBounds(z, w, 2);
      TwiceAsLarge(w, z);
      TinyIsFirst(w, n);
      NearTrans(z, w, AtanhSum(w, n), 2, 3);
      NearMore(z, AtanhSum(w, n), 5, 1354);
    }
  }

  // The settled sum is within 2^-41 of the exact series, however many terms
  // that is given, for every ratio that is not next to the smallest normal
  // number.
  lemma SettledIsAccurate(rnd: real -> real, minNormal: real, ratio: real, terms: nat, n: nat)
    requires RoundsToNearest(rnd, minNormal) && 4.0 * minNormal <= ratio < 0.95
    requires rnd(2.0 - ratio) != 0.0 && 1 <= terms <= ENOUGH_TERMS && terms <= n
    requires forall m: nat :: m >= terms ==> Total(rnd, ratio, m) == Total(rnd, ratio, terms - 1)
    ensures Near(Total(rnd, ratio, terms - 1), AtanhSum(Exact(ratio), n), 1357)
  {
    ExactBounds(ratio);
    var w := Exact(ratio);
    hide RoundsToNearest, Near, Total, AtanhSum, Exact;
    if n <= ENOUGH_TERMS {
      SumIsNear(rnd, minNormal, ratio, n);
      NearMore(Total(rnd, ratio, n), AtanhSum(w, n), 1354, 1357);
    } else {
      SumIsNear(rnd, minNormal, ratio, ENOUGH_TERMS);
      TailIsNear(w, n);
      NearTrans(Total(rnd, ratio, ENOUGH_TERMS), AtanhSum(w, ENOUGH_TERMS), AtanhSum(w, n), 1354, 3);
    }
  }

  lemma TwiceNear(x: real, y: real)
    requires Near(x, y, 1357)
    ensures Abs(2.0 * x - 2.0 * y) <= Prod(ACCURACY, 2.0 * y)
  {
    NearDifference(x, y, 1357);
    assert Prod(ACCURACY, 2.0 * y) == 2.0 * Prod(ACCURACY, y);
    hide Near, Prod;
  }

  // Below that, it is off by a few of the smallest normal number.
  lemma TinyRatio(rnd: real -> real, minNormal: real, ratio: real, n: nat, m: nat)
    requires RoundsToNearest(rnd, minNormal) && 0.0 <= ratio < 4.0 * minNormal && n >= 1 && m >= 1
    ensures rnd(2.0 - ratio) != 0.0
    ensures Abs(2.0 * Total(rnd, ratio, m) - 2.0 * AtanhSum(Exact(ratio), n)) <= 16.0 * minNormal
  {
    assert 0.0 < minNormal <= 0.0001 && minNormal <= Pow(HALF_UNIT, 4) by { SmallNormal(minNormal); }
    hide *;
    ZBounds(rnd, minNormal, ratio);
    ExactBounds(ratio);
    TinyZ(rnd, minNormal, ratio);
    var z, w := Z(rnd, ratio), Exact(ratio);
    BelowFlush(z, minNormal);
    FlushedSum(rnd, minNormal, ratio, m);
    SquareOfTiny(w, minNormal);
    TinyIsFirst(w, n);
    NearBounds(w, AtanhSum(w, n), 3);
    BothTiny(z, AtanhSum(w, n), w, minNormal);
  }

  lemma BelowFlush(z: real, minNormal: real)
    requires 0.0 <= z <= 8.0 * minNormal && minNormal > 0.0
    ensures Prod(z, HALF_UNIT) < 8.0 * minNormal
  {
    HalfUnitTimes(z);
    hide Prod;
  }

  lemma BothTiny(z: real, sum: real, w: real, minNormal: real)
    requires 0.0 <= z <= 8.0 * minNormal && 0.0 <= sum <= 2.0 * w && w <= 4.0 * minNormal
    ensures Abs(2.0 * z - 2.0 * sum) <= 16.0 * minNormal
  {
  }

  lemma SquareOfTiny(w: real, minNormal: real)
    requires 0.0 <= w <= 4.0 * minNormal && minNormal <= Pow(HALF_UNIT, 4)
    ensures Sq(w) <= 0.5 * HALF_UNIT
  {
    EighthOf(HALF_UNIT);
    HalfUnitTimes(0.0000001);
    hide Pow;
    ProductMonotone(w, w, HALF_UNIT, 0.5);
    assert Prod(HALF_UNIT, 0.5) == 0.5 * HALF_UNIT;
  }

  lemma TinyZ(rnd: real -> real, minNormal: real, ratio: real)
    requires RoundsToNearest(rnd, minNormal) && 0.0 <= ratio < 4.0 * minNormal && rnd(2.0 - ratio) != 0.0
    ensures 0.0 <= Z(rnd, ratio) <= 8.0 * minNormal
  {
    assert 0.0 < minNormal <= 0.0001 by { SmallNormal(minNormal); }
    hide RoundsToNearest;
    var d := rnd(2.0 - ratio);
    RoundingError(rnd, minNormal, 2.0 - ratio);
    SmallerQuotient(ratio, d, ratio, 1.0);
    Monotone(rnd, minNormal, ratio / d, 4.0 * minNormal);
    RelativeError(rnd, minNormal, 4.0 * minNormal);
    assert Prod(UNIT, 4.0 * minNormal) == UNIT * (4.0 * minNormal);
  }
}
