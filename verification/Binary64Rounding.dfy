// Rounding to the nearest number of 53 significant bits, ties to even, with a
// smallest normal number and no largest: what the atanh loop asks of its
// rounding is met by it.
module Binary64Rounding {
  import opened RealPowers
  import opened AtanhSeries

  // 2^53: from here on not every whole number has 53 bits.
  const PRECISION := 9007199254740992

  // The nearest whole number, ties to even.
  function Nearest(y: real): int {
    var below := y.Floor;
    var part := y - below as real;
    if part < 0.5 || (part == 0.5 && below % 2 == 0) then below else below + 1
  }

  // A magnitude counted in units of the least positive number: below 2^53 units
  // whole numbers are representable, and one doubling further up each second one.
  function Units(y: real): int
    requires y >= 0.0
    decreases y.Floor
  {
    if y < PRECISION as real then Nearest(y) else 2 * Units(y / 2.0)
  }

  // 2^-n.
  function SmallestNormal(n: nat): real {
    1.0 / Exp2(n) as real
  }

  // How many of the least positive number, 2^-(n + 52), make one.
  function PerOne(n: nat): real {
    Exp2(n + 52) as real
  }

  function InUnits(x: real, n: nat): (y: real)
    ensures x >= 0.0 ==> y >= 0.0
  {
    NonNegative(if x >= 0.0 then x else 0.0, PerOne(n));
    Prod(x, PerOne(n))
  }

  function FromUnits(m: int, n: nat): real {
    m as real / PerOne(n)
  }

  function Round(x: real, n: nat): real {
    if x >= 0.0 then FromUnits(Units(InUnits(x, n)), n) else -FromUnits(Units(InUnits(-x, n)), n)
  }

  function Rounding(n: nat): real -> real {
    (x: real) => Round(x, n)
  }

  // ----- counted in units -----

  lemma NearestBounds(y: real, m: int)
    ensures -0.5 <= Nearest(y) as real - y <= 0.5
    ensures m as real <= y ==> m <= Nearest(y)
    ensures y <= m as real ==> Nearest(y) <= m
    ensures y < m as real + 0.5 && m as real <= y ==> Nearest(y) == m
  {
  }

  lemma NearestMonotone(y: real, z: real)
    requires y <= z
    ensures Nearest(y) <= Nearest(z)
  {
  }

  lemma NearestOfWhole(m: int)
    ensures Nearest(m as real) == m
  {
    NearestBounds(m as real, m);
  }

  // What a bound of whole units, up to 2^53 of them, does to the rounded number.
  lemma {:induction false} UnitsBounds(y: real, m: nat)
    requires y >= 0.0 && m <= PRECISION
    ensures y <= m as real ==> Units(y) <= m
    ensures y >= m as real ==> Units(y) >= m
    ensures Units(y) >= 0
    decreases y.Floor
  {
    if y < PRECISION as real {
      NearestBounds(y, m);
      NearestBounds(y, 0);
    } else {
      UnitsBounds(y / 2.0, PRECISION / 2);
      hide Nearest;
    }
  }

  lemma {:induction false} UnitsMonotone(y: real, z: real)
    requires 0.0 <= y <= z
    ensures Units(y) <= Units(z)
    decreases y.Floor
  {
    if z < PRECISION as real {
      NearestMonotone(y, z);
    } else if y < PRECISION as real {
      UnitsBounds(y, PRECISION);
      UnitsBounds(z, PRECISION);
    } else {
      hide Nearest;
      UnitsMonotone(y / 2.0, z / 2.0);
    }
  }

  lemma UnitsOfTop()
    ensures Units(PRECISION as real) == PRECISION
  {
    NearestOfWhole(PRECISION / 2);
  }

  // A rounded number is its own rounding.
  lemma {:induction false} UnitsTwice(y: real)
    requires y >= 0.0
    ensures Units(y) >= 0 && Units(Units(y) as real) == Units(y)
    decreases y.Floor
  {
    UnitsBounds(y, 0);
    if y < PRECISION as real {
      UnitsBounds(y, PRECISION);
      UnitsOfTop();
      NearestOfWhole(Nearest(y));
    } else {
      UnitsTwice(y / 2.0);
      UnitsBounds(y / 2.0, PRECISION / 2);
      hide Nearest;
      assert Units(y) as real / 2.0 == Units(y / 2.0) as real;
    }
  }

  // From 2^52 units on the error is at most 2^-53 of the number.
  lemma {:induction false} UnitsError(y: real)
    requires y >= PRECISION as real / 2.0
    ensures Abs(Units(y) as real - y) <= y / PRECISION as real
    decreases y.Floor
  {
    if y < PRECISION as real {
      NearestBounds(y, 0);
    } else {
      hide Nearest;
      UnitsError(y / 2.0);
    }
  }

  lemma AbsorbBelow(m: int, s: real)
    requires 0 <= m < PRECISION && m as real <= s < m as real + 0.5
    ensures s < PRECISION as real && Nearest(s) == m
  {
    NearestBounds(s, m);
  }

  // An addend of at most 2^-54 of a representable number is rounded away.
  lemma {:induction false} UnitsAbsorb(a: real, s: real)
    requires 0.0 <= a <= s <= a + a / (2.0 * PRECISION as real) && Units(a) as real == a
    ensures Units(s) as real == a
    decreases a.Floor
  {
    if a < PRECISION as real {
      assert Units(a) == Nearest(a);
      assert Nearest(a) <= PRECISION - 1;
      hide Nearest;
      AbsorbBelow(Nearest(a), s);
    } else {
      hide Nearest;
      assert Units(a) == 2 * Units(a / 2.0) && Units(s) == 2 * Units(s / 2.0);
      hide Units;
      UnitsAbsorb(a / 2.0, s / 2.0);
    }
  }

  lemma {:induction false} UnitsOfPower(k: nat)
    ensures Units(Exp2(k) as real) == Exp2(k)
  {
    if Exp2(k) < PRECISION {
      NearestOfWhole(Exp2(k));
    } else {
      hide Nearest;
      assert k > 0;
      UnitsOfPower(k - 1);
    }
  }

  // ----- scaled back -----

  lemma Ordered(x: real, y: real, n: nat)
    ensures x <= y <==> InUnits(x, n) <= InUnits(y, n)
    ensures x == y <==> InUnits(x, n) == InUnits(y, n)
  {
    var u := PerOne(n);
    assert u > 0.0;
    assert InUnits(x, n) == Prod(x, u) && InUnits(y, n) == Prod(y, u);
    hide PerOne, InUnits, Prod;
    if x < y {
      LessTimes(x, y, u);
    } else if y < x {
      LessTimes(y, x, u);
    }
  }

  lemma LessTimes(x: real, y: real, u: real)
    requires u > 0.0 && x < y
    ensures Prod(x, u) < Prod(y, u)
  {
    ProdPositive(y - x, u);
    Distribute(y, x, u);
  }

  lemma Back(m: int, n: nat)
    ensures InUnits(FromUnits(m, n), n) == m as real
    ensures m >= 0 ==> FromUnits(m, n) >= 0.0
  {
    DivideMultiply(m as real, PerOne(n));
    var u := PerOne(n);
    hide PerOne;
    if m >= 0 {
      QuotientNotNegative(m as real, u);
    }
  }

  lemma QuotientNotNegative(x: real, u: real)
    requires x >= 0.0 && u > 0.0
    ensures x / u >= 0.0
  {
  }

  lemma Sums(x: real, y: real, d: real, n: nat)
    ensures InUnits(x + y, n) == InUnits(x, n) + InUnits(y, n)
    ensures InUnits(x - y, n) == InUnits(x, n) - InUnits(y, n)
    ensures InUnits(Prod(d, x), n) == Prod(d, InUnits(x, n))
  {
    Distribute(x, y, PerOne(n));
    ProdAlgebra(d, x, PerOne(n));
  }

  lemma RoundUnits(x: real, n: nat)
    requires x >= 0.0
    ensures Units(InUnits(x, n)) >= 0 && Round(x, n) >= 0.0
    ensures InUnits(Round(x, n), n) == Units(InUnits(x, n)) as real
  {
    hide Units, InUnits, FromUnits;
    UnitsBounds(InUnits(x, n), 0);
    Back(Units(InUnits(x, n)), n);
  }

  lemma ZeroUnits(n: nat)
    ensures InUnits(0.0, n) == 0.0
  {
  }

  lemma RoundZero(n: nat)
    ensures Round(0.0, n) == 0.0
  {
    ZeroUnits(n);
    assert Units(0.0) == 0;
    hide InUnits, Units;
    RoundUnits(0.0, n);
    Ordered(Round(0.0, n), 0.0, n);
  }

  lemma RoundOne(n: nat)
    ensures Round(1.0, n) == 1.0
  {
    UnitsOfPower(n + 52);
    assert InUnits(1.0, n) == PerOne(n);
    RoundUnits(1.0, n);
    Ordered(Round(1.0, n), 1.0, n);
  }

  // Negative numbers are rounded as their magnitudes are.
  lemma RoundNegative(x: real, n: nat)
    requires x < 0.0
    ensures Round(x, n) == -Round(-x, n) <= 0.0
  {
    hide Units, InUnits, FromUnits;
    RoundUnits(-x, n);
  }

  lemma RoundMonotoneUp(x: real, y: real, n: nat)
    requires 0.0 <= x <= y
    ensures Round(x, n) <= Round(y, n)
  {
    hide Round, Units, InUnits;
    RoundUnits(x, n);
    RoundUnits(y, n);
    Ordered(x, y, n);
    UnitsMonotone(InUnits(x, n), InUnits(y, n));
    Ordered(Round(x, n), Round(y, n), n);
  }

  lemma RoundMonotone(x: real, y: real, n: nat)
    requires x <= y
    ensures Round(x, n) <= Round(y, n)
  {
    hide Round;
    if x >= 0.0 {
      RoundMonotoneUp(x, y, n);
    } else if y < 0.0 {
      RoundNegative(x, n);
      RoundNegative(y, n);
      RoundMonotoneUp(-y, -x, n);
    } else {
      RoundNegative(x, n);
      RoundUnits(y, n);
    }
  }

  lemma RoundTwiceUp(x: real, n: nat)
    requires x >= 0.0
    ensures Round(Round(x, n), n) == Round(x, n) >= 0.0
  {
    hide Round, Units, InUnits;
    RoundUnits(x, n);
    RoundUnits(Round(x, n), n);
    UnitsTwice(InUnits(x, n));
    Ordered(Round(Round(x, n), n), Round(x, n), n);
  }

  lemma RoundTwice(x: real, n: nat)
    ensures Round(Round(x, n), n) == Round(x, n)
  {
    hide Round;
    if x >= 0.0 {
      RoundTwiceUp(x, n);
    } else {
      RoundNegative(x, n);
      RoundTwiceUp(-x, n);
      RoundZero(n);
      if Round(-x, n) > 0.0 {
        RoundNegative(Round(x, n), n);
      }
    }
  }

  lemma OneBit()
    ensures Exp2(1) == 2 && Exp2(4) == 16
  {
    assert Exp2(2) == 4;
  }

  lemma ManyBits()
    ensures Exp2(52) == 4503599627370496 && Exp2(54) == 18014398509481984
  {
    OneBit();
    hide Exp2;
    Exp2Add(4, 4);
    Exp2Add(8, 8);
    Exp2Add(16, 16);
    Exp2Add(16, 4);
    Exp2Add(32, 20);
    Exp2Add(52, 1);
    Exp2Add(53, 1);
  }

  lemma Product(a: nat, b: nat)
    ensures (a * b) as real == a as real * b as real
  {
  }

  // The smallest normal number is 2^52 units.
  lemma NormalUnits(n: nat)
    ensures SmallestNormal(n) > 0.0 && InUnits(SmallestNormal(n), n) == PRECISION as real / 2.0
  {
    ManyBits();
    Exp2Add(n, 52);
    Product(Exp2(n), Exp2(52));
    var e, m := Exp2(n) as real, Exp2(52) as real;
    assert m == PRECISION as real / 2.0;
    hide Exp2;
    assert PerOne(n) == e * m;
    DivideMultiply(1.0, e);
    hide PerOne;
    NormalTimes(1.0 / e, e, m);
  }

  lemma NormalTimes(q: real, e: real, m: real)
    requires q * e == 1.0 && e >= 1.0
    ensures q * (e * m) == m && q > 0.0
  {
    assert q * (e * m) == (q * e) * m;
  }

  lemma RoundError(x: real, n: nat)
    requires x >= SmallestNormal(n)
    ensures x - Prod(UNIT, x) <= Round(x, n) <= x + Prod(UNIT, x)
  {
    NormalUnits(n);
    hide Round, Units, InUnits, SmallestNormal;
    RoundUnits(x, n);
    var y, e := InUnits(x, n), Prod(UNIT, x);
    Ordered(SmallestNormal(n), x, n);
    UnitsError(y);
    Sums(x, e, UNIT, n);
    assert y / PRECISION as real == Prod(UNIT, y);
    hide Prod;
    Sums(x, x, UNIT, n);
    Ordered(x - e, Round(x, n), n);
    Ordered(Round(x, n), x + e, n);
  }

  lemma RoundFlush(x: real, n: nat)
    requires 0.0 <= x <= Prod(SmallestNormal(n), HALF_UNIT)
    ensures Round(x, n) == 0.0
  {
    NormalUnits(n);
    assert Units(0.25) == 0 && Units(0.0) == 0;
    assert Prod(HALF_UNIT, PRECISION as real / 2.0) == 0.25;
    hide Round, Units, InUnits, SmallestNormal, Prod;
    ZeroUnits(n);
    RoundUnits(x, n);
    ProdAlgebra(SmallestNormal(n), HALF_UNIT, 1.0);
    Sums(SmallestNormal(n), 0.0, HALF_UNIT, n);
    Ordered(x, Prod(SmallestNormal(n), HALF_UNIT), n);
    UnitsMonotone(InUnits(x, n), 0.25);
    Ordered(Round(x, n), 0.0, n);
  }

  lemma RoundAbsorbs(a: real, s: real, n: nat)
    requires Round(a, n) == a && 0.0 <= a <= s <= a + Prod(a, HALF_UNIT)
    ensures Round(s, n) == a
  {
    hide Round, Units, InUnits, Prod;
    RoundUnits(a, n);
    RoundUnits(s, n);
    var y, e := InUnits(a, n), Prod(a, HALF_UNIT);
    Ordered(a, s, n);
    Ordered(s, a + e, n);
    ProdAlgebra(a, HALF_UNIT, 1.0);
    Sums(a, e, HALF_UNIT, n);
    HalfUnitOf(y);
    UnitsAbsorb(y, InUnits(s, n));
    Ordered(Round(s, n), a, n);
  }

  lemma HalfUnitOf(y: real)
    ensures Prod(HALF_UNIT, y) == y / (2.0 * PRECISION as real)
  {
  }

  lemma SmallEnough(n: nat)
    requires n >= 216
    ensures SmallestNormal(n) <= Pow(HALF_UNIT, 4)
  {
    hide Exp2, Pow;
    ManyBits();
    assert HALF_UNIT * Exp2(54) as real == 1.0;
    Exp2Monotone(216, n);
    Exp2Add(54, 54);
    Exp2Add(108, 108);
    FourthPower(Exp2(54), Exp2(108), Exp2(216), HALF_UNIT);
    SmallerQuotient(1.0, Exp2(n) as real, 1.0, Exp2(216) as real);
  }

  lemma FourthPower(e: nat, f: nat, g: nat, h: real)
    requires e > 0 && f == e * e && g == f * f && h * e as real == 1.0
    ensures Pow(h, 4) == 1.0 / g as real
  {
    assert Pow(h, 2) == Prod(h, h) by {
      assert Pow(h, 1) == Prod(h, 1.0);
    }
    assert Pow(h, 4) == Prod(Pow(h, 2), Pow(h, 2)) by {
      hide Pow, Prod;
      PowAdd(h, 2, 2);
    }
    hide Pow;
    Product(e, e);
    Product(f, f);
    InverseSquare(e as real, h);
    InverseSquare(f as real, Prod(h, h));
    hide Prod;
    QuotientOf(1.0, Pow(h, 4), g as real);
  }

  lemma InverseSquare(e: real, h: real)
    requires h * e == 1.0
    ensures Prod(h, h) * (e * e) == 1.0
  {
    assert (h * h) * (e * e) == (h * e) * (h * e);
  }

  lemma MonotoneEverywhere(n: nat)
    ensures forall x: real, y: real {:trigger Rounding(n)(x), Rounding(n)(y)} ::
              x <= y ==> Rounding(n)(x) <= Rounding(n)(y)
    ensures forall x: real :: Rounding(n)(Rounding(n)(x)) == Rounding(n)(x)
  {
    hide Round;
    forall x: real, y: real | x <= y ensures Rounding(n)(x) <= Rounding(n)(y) {
      RoundMonotone(x, y, n);
    }
    forall x: real ensures Rounding(n)(Rounding(n)(x)) == Rounding(n)(x) {
      RoundTwice(x, n);
    }
  }

  lemma ErrorEverywhere(n: nat)
    ensures forall x: real {:trigger Rounding(n)(x)} ::
              SmallestNormal(n) <= x ==> x - Prod(UNIT, x) <= Rounding(n)(x) <= x + Prod(UNIT, x)
    ensures forall x: real {:trigger Rounding(n)(x)} ::
              0.0 <= x <= Prod(SmallestNormal(n), HALF_UNIT) ==> Rounding(n)(x) == 0.0
  {
    hide Round, SmallestNormal, Prod;
    forall x: real | SmallestNormal(n) <= x ensures x - Prod(UNIT, x) <= Rounding(n)(x) <= x + Prod(UNIT, x) {
      RoundError(x, n);
    }
    forall x: real | 0.0 <= x <= Prod(SmallestNormal(n), HALF_UNIT) ensures Rounding(n)(x) == 0.0 {
      RoundFlush(x, n);
    }
  }

  lemma AbsorbsEverywhere(n: nat)
    ensures forall a: real, s: real {:trigger Rounding(n)(a), Rounding(n)(s)} ::
              Rounding(n)(a) == a && 0.0 <= a <= s <= a + Prod(a, HALF_UNIT) ==> Rounding(n)(s) == a
  {
    hide Round, Prod;
    forall a: real, s: real | Rounding(n)(a) == a && 0.0 <= a <= s <= a + Prod(a, HALF_UNIT)
      ensures Rounding(n)(s) == a
    {
      RoundAbsorbs(a, s, n);
    }
  }

  // For any smallest normal number up to 2^-216, binary64's 2^-1022 among them,
  // this rounding has all the properties the atanh loop relies on.
  lemma MeetsRoundsToNearest(n: nat)
    requires n >= 216
    ensures RoundsToNearest(Rounding(n), SmallestNormal(n))
  {
    SmallEnough(n);
    NormalUnits(n);
    RoundZero(n);
    RoundOne(n);
    assert Rounding(n)(0.0) == 0.0 && Rounding(n)(1.0) == 1.0;
    hide Rounding, SmallestNormal, Pow, Prod;
    MonotoneEverywhere(n);
    ErrorEverywhere(n);
    AbsorbsEverywhere(n);
  }
}
