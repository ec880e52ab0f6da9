// Numbers within k roundings of each other, as factors: the shape in which the
// error of a long chain of rounded operations adds up.
module Nearness {
  import opened RealPowers
  import opened AtanhSeries

  // Slightly more than one rounding can stretch or shrink a number by.
  const STRETCH := 1.0 + 1.001 * UNIT

  function Factor(k: nat): real {
    Pow(STRETCH, k)
  }

  // x and y are within k roundings of each other.
  ghost predicate Near(x: real, y: real, k: nat) {
    0.0 <= x && 0.0 <= y && x <= Prod(Factor(k), y) && y <= Prod(Factor(k), x)
  }

  lemma {:induction false} FactorGrows(j: nat, k: nat)
    requires j <= k
    ensures 1.0 <= Factor(j) <= Factor(k)
  {
    if k > 0 {
      FactorGrows(0, k - 1);
      assert Factor(k) == Prod(STRETCH, Factor(k - 1));
      var f := Factor(k - 1);
      ProductMonotone(1.0, f, STRETCH, f);
      hide Pow;
      if j < k {
        FactorGrows(j, k - 1);
      }
    }
  }

  lemma Shrunk(x: real, f: real, g: real)
    requires 1.0 <= f <= g && x >= 0.0
    ensures x <= Prod(f, x) <= Prod(g, x)
  {
    ProductMonotone(1.0, x, f, x);
    ProductMonotone(f, x, g, x);
  }

  lemma NearSelf(x: real, k: nat)
    requires x >= 0.0
    ensures Near(x, x, k)
  {
    FactorGrows(0, k);
    Shrunk(x, 1.0, Factor(k));
  }

  lemma NearMore(x: real, y: real, j: nat, k: nat)
    requires Near(x, y, j) && j <= k
    ensures Near(x, y, k)
  {
    FactorGrows(j, k);
    hide Factor, Prod;
    Shrunk(x, Factor(j), Factor(k));
    Shrunk(y, Factor(j), Factor(k));
  }

  lemma NearSwap(x: real, y: real, k: nat)
    requires Near(x, y, k)
    ensures Near(y, x, k)
  {
  }

  lemma Chained(x: real, y: real, z: real, f: real, g: real)
    requires x <= Prod(f, y) && y <= Prod(g, z) && f >= 0.0
    ensures x <= Prod(Prod(f, g), z)
  {
    NonNegative(f, Prod(g, z) - y);
    assert f * (Prod(g, z) - y) == Prod(f, Prod(g, z)) - Prod(f, y);
    ProdAlgebra(f, g, z);
  }

  lemma NearTrans(x: real, y: real, z: real, j: nat, k: nat)
    requires Near(x, y, j) && Near(y, z, k)
    ensures Near(x, z, j + k)
  {
    FactorGrows(0, j);
    FactorGrows(0, k);
    PowAdd(STRETCH, j, k);
    PowAdd(STRETCH, k, j);
    hide Pow;
    Chained(x, y, z, Factor(j), Factor(k));
    Chained(z, y, x, Factor(k), Factor(j));
  }

  lemma NearProd(a: real, b: real, c: real, d: real, j: nat, k: nat)
    requires Near(a, b, j) && Near(c, d, k)
    ensures Near(Prod(a, c), Prod(b, d), j + k)
  {
    PowAdd(STRETCH, j, k);
    NonNegative(a, c);
    NonNegative(b, d);
    hide Pow, Prod;
    ProductMonotone(a, c, Prod(Factor(j), b), Prod(Factor(k), d));
    ProductMonotone(b, d, Prod(Factor(j), a), Prod(Factor(k), c));
    ProdInterchange(Factor(j), b, Factor(k), d);
    ProdInterchange(Factor(j), a, Factor(k), c);
  }

  lemma NearSum(a: real, b: real, c: real, d: real, k: nat)
    requires Near(a, b, k) && Near(c, d, k)
    ensures Near(a + c, b + d, k)
  {
    var f := Factor(k);
    hide Factor;
    SumUnder(f, a, c);
    SumUnder(f, b, d);
  }

  lemma SumUnder(f: real, a: real, b: real)
    ensures Prod(f, a + b) == Prod(f, a) + Prod(f, b)
  {
  }

  lemma NearScaled(x: real, y: real, s: real, k: nat)
    requires Near(x, y, k) && s >= 0.0
    ensures Near(Prod(s, x), Prod(s, y), k)
  {
    NearSelf(s, 0);
    NearProd(s, s, x, y, 0, k);
  }

  lemma NearShare(x: real, y: real, m: real, k: nat)
    requires Near(x, y, k) && m > 0.0
    ensures Near(x / m, y / m, k)
  {
    NonNegativeQuotient(1.0, m);
    hide Near;
    NearScaled(x, y, 1.0 / m, k);
    Inverse(x, m);
    Inverse(y, m);
  }

  lemma Inverse(x: real, m: real)
    requires m > 0.0
    ensures Prod(1.0 / m, x) == x / m
  {
    var i := 1.0 / m;
    DivideMultiply(1.0, m);
    QuotientOf(x, Prod(i, x), m);
  }

  // Dividing by something near.
  lemma NearQuotient(x: real, c: real, d: real, k: nat)
    requires x >= 0.0 && c > 0.0 && d > 0.0 && Near(c, d, k)
    ensures Near(x / c, x / d, k)
  {
    var q, r, f := x / c, x / d, Factor(k);
    NonNegativeQuotient(x, c);
    NonNegativeQuotient(x, d);
    DivideMultiply(x, c);
    DivideMultiply(x, d);
    FactorGrows(0, k);
    hide Factor;
    QuotientUnder(q, r, c, d, f);
    QuotientUnder(r, q, d, c, f);
  }

  lemma QuotientUnder(q: real, r: real, c: real, d: real, f: real)
    requires q >= 0.0 && r >= 0.0 && c > 0.0 && q * c == r * d && d <= Prod(f, c)
    ensures q <= Prod(f, r)
  {
    NonNegative(r, Prod(f, c) - d);
    assert r * (Prod(f, c) - d) == Prod(Prod(f, r), c) - r * d;
    assert Prod(Prod(f, r), c) >= Prod(q, c);
    var p := Prod(f, r);
    assert Prod(q - p, c) == Prod(q, c) - Prod(p, c);
    hide Prod;
    if q > p {
      ProdPositive(q - p, c);
    }
  }

  // One rounding.
  lemma NearRound(rnd: real -> real, minNormal: real, x: real)
    requires RoundsToNearest(rnd, minNormal) && x >= minNormal
    ensures Near(rnd(x), x, 1)
  {
    RelativeError(rnd, minNormal, x);
    assert minNormal > 0.0;
    hide RoundsToNearest;
    assert Factor(1) == STRETCH by { OneFactor(); }
    OneRounding(x, rnd(x));
  }

  lemma OneFactor()
    ensures Factor(1) == STRETCH
  {
    assert Pow(STRETCH, 1) == Prod(STRETCH, Pow(STRETCH, 0));
  }

  lemma OneRounding(x: real, r: real)
    requires x > 0.0 && x - Prod(UNIT, x) <= r <= x + Prod(UNIT, x)
    ensures 0.0 <= r && r <= Prod(STRETCH, x) && x <= Prod(STRETCH, r)
  {
    assert Prod(UNIT, x) == UNIT * x;
    assert Prod(STRETCH, r) == STRETCH * r && Prod(STRETCH, x) == STRETCH * x;
    hide Prod;
  }

  lemma NearRounded(rnd: real -> real, minNormal: real, x: real, y: real, k: nat)
    requires RoundsToNearest(rnd, minNormal) && x >= minNormal && Near(x, y, k)
    ensures Near(rnd(x), y, k + 1)
  {
    NearRound(rnd, minNormal, x);
    hide RoundsToNearest, Near;
    NearTrans(rnd(x), x, y, 1, k);
  }

  // 2^-41: what up to 1400 roundings can amount to.
  const ACCURACY := 1.0 / 2199023255552.0

  lemma FactorBound(k: nat)
    requires k <= 1400
    ensures 1.0 <= Factor(k) <= 1.0 + ACCURACY
  {
    FactorGrows(0, k);
    FactorGrows(k, 1400);
    var d := 1.001 * UNIT;
    assert Prod(1400.0, d) == 1400.0 * d;
    assert 2.0 * (1400.0 * d) <= ACCURACY;
    hide Prod, Factor;
    PowNearOne(STRETCH, d, 1400);
    assert Factor(1400) == Pow(STRETCH, 1400) by { FactorIs(1400); }
  }

  lemma FactorIs(k: nat)
    ensures Factor(k) == Pow(STRETCH, k)
  {
  }

  // Near numbers differ by little.
  lemma NearDifference(x: real, y: real, k: nat)
    requires Near(x, y, k) && k <= 1400
    ensures Abs(x - y) <= Prod(ACCURACY, y) && x <= 2.0 * y && y <= 2.0 * x
  {
    FactorBound(k);
    var f := Factor(k);
    hide Factor;
    FactorDifference(x, y, f, ACCURACY);
  }

  lemma FactorDifference(x: real, y: real, f: real, e: real)
    requires 0.0 <= x <= Prod(f, y) && 0.0 <= y <= Prod(f, x) && 1.0 <= f <= 1.0 + e && e <= 1.0
    ensures Abs(x - y) <= Prod(e, y) && x <= 2.0 * y && y <= 2.0 * x
  {
    ProductMonotone(f, y, 1.0 + e, y);
    ProductMonotone(f, x, 1.0 + e, x);
    SumOfParts(e, y);
    SumOfParts(e, x);
    ProductMonotone(e, y, 1.0, y);
    ProductMonotone(e, x, 1.0, x);
    ProdAlgebra(y, 1.0, 1.0);
    ProdAlgebra(x, 1.0, 1.0);
    hide Prod;
    if x < y {
      ProductMonotone(e, x, e, y);
    }
  }

  lemma SumOfParts(e: real, y: real)
    ensures Prod(1.0 + e, y) == y + Prod(e, y)
  {
  }

  // A small addend is less than one rounding.
  lemma NearAddend(a: real, t: real)
    requires 0.0 <= t <= Prod(UNIT, a) && 0.0 <= a
    ensures Near(a, a + t, 1) && Near(a + t, a, 1)
  {
    OneFactor();
    hide Factor;
    assert Prod(STRETCH, a) == a + 1.001 * Prod(UNIT, a);
    assert Prod(STRETCH, a + t) == Prod(STRETCH, a) + Prod(STRETCH, t);
    NonNegative(STRETCH, t);
    hide Prod;
  }
}
