// cos_sin of deterministic_math.rs over the reals: halve the angle, evaluate
// two truncated series, double back up, renormalise.
module CosSin {
  import opened RealPowers
  import opened Series

  const MAX_HALVINGS := 10
  const MAX_ANGLE := 64.0

  datatype Point = Point(c: real, s: real)

  function NormSquared(p: Point): real {
    Sq(p.c) + Sq(p.s)
  }

  // The complex product: the rotation by the sum of two angles.
  function Times(p: Point, q: Point): Point {
    Point(p.c * q.c - p.s * q.s, p.c * q.s + p.s * q.c)
  }

  function CPow(p: Point, n: nat): Point {
    if n == 0 then Point(1.0, 0.0) else Times(p, CPow(p, n - 1))
  }

  function TwiceProduct(c: real, s: real): real {
    2.0 * Prod(c, s)
  }

  // The double-angle identities.
  function Doubled(p: Point): Point {
    Point(Sq(p.c) - Sq(p.s), TwiceProduct(p.c, p.s))
  }

  lemma TimesAssociative(p: Point, q: Point, r: Point)
    ensures Times(Times(p, q), r) == Times(p, Times(q, r))
  {
  }

  lemma TimesNorm(p: Point, q: Point)
    ensures NormSquared(Times(p, q)) == NormSquared(p) * NormSquared(q)
  {
  }

  lemma TimesSelf(p: Point)
    ensures Times(p, p) == Doubled(p)
  {
  }

  lemma {:induction false} CPowAdd(p: Point, m: nat, n: nat)
    ensures CPow(p, m + n) == Times(CPow(p, m), CPow(p, n))
  {
    hide Times;
    if m == 0 {
      TimesOne(CPow(p, n));
    } else {
      CPowAdd(p, m - 1, n);
      TimesAssociative(p, CPow(p, m - 1), CPow(p, n));
    }
  }

  lemma TimesOne(p: Point)
    ensures Times(Point(1.0, 0.0), p) == p == Times(p, Point(1.0, 0.0))
  {
  }

  // Doubling j times raises the series pair to the power 2^j.
  lemma CPowDouble(p: Point, j: nat)
    ensures CPow(p, Exp2(j + 1)) == Doubled(CPow(p, Exp2(j)))
  {
    CPowAdd(p, Exp2(j), Exp2(j));
    TimesSelf(CPow(p, Exp2(j)));
  }

  // The distance from the unit circle is powered along with the point.
  lemma {:induction false} CPowNorm(p: Point, n: nat)
    ensures NormSquared(CPow(p, n)) == Pow(NormSquared(p), n)
  {
    if n > 0 {
      CPowNorm(p, n - 1);
      CPowNormStep(p, n);
    }
  }

  lemma CPowNormStep(p: Point, n: nat)
    requires n > 0 && NormSquared(CPow(p, n - 1)) == Pow(NormSquared(p), n - 1)
    ensures NormSquared(CPow(p, n)) == Pow(NormSquared(p), n)
  {
    hide Times, NormSquared;
    TimesNorm(p, CPow(p, n - 1));
  }

  // The truncated series at a reduced angle.
  function Seed(x: real): Point {
    Point(CosPoly(-Sq(x)), Prod(x, SinPoly(-Sq(x))))
  }

  lemma SeedNorm(x: real)
    ensures NormSquared(Seed(x)) == Gauge(-Sq(x))
  {
    hide CosPoly, SinPoly, Sq;
    SquareOfProd(x, SinPoly(-Sq(x)));
    ProdOfNegated(Sq(x), Sq(SinPoly(-Sq(x))));
  }

  lemma SquareOfProd(x: real, s: real)
    ensures Sq(Prod(x, s)) == Prod(Sq(x), Sq(s))
  {
    assert (x * s) * (x * s) == (x * x) * (s * s);
  }

  lemma ProdOfNegated(x: real, y: real)
    ensures Prod(-x, y) == -Prod(x, y)
  {
  }

  // The pair before renormalisation, for a nonnegative angle.
  function Unnormalized(angle: real): Point
    requires angle >= 0.0
  {
    var k := Halvings(angle);
    CPow(Seed(Scaled(angle, k)), Exp2(k))
  }

  function Shrink(p: Point, m: real): Point
    requires m != 0.0
  {
    Point(p.c / m, p.s / m)
  }

  function Unit(sqrt: real -> real, p: Point): Point {
    var magnitude := sqrt(NormSquared(p));
    if magnitude > 0.0 then Shrink(p, magnitude) else p
  }

  function Rotation(sqrt: real -> real, angle: real): Point {
    var u := Unit(sqrt, Unnormalized(Abs(angle)));
    Point(u.c, u.s * (if angle < 0.0 then -1.0 else 1.0))
  }

  // The sine and the cosine of a small angle, up to its fifth and fourth power.
  function SmallSine(x: real): real {
    x - x * x * x / 6.0
  }

  function SmallCosine(x: real): real {
    1.0 - x * x / 2.0
  }

  // On the unit circle, and for a reduced angle the cosine and the sine up to the
  // terms of fourth and fifth order; `FromSmallAngle` carries that to every angle.
  method CosSin(sqrt: real -> real, angle: real) returns (c: real, s: real)
    requires IsSqrt(sqrt)
    requires Abs(angle) <= MAX_ANGLE
    ensures Point(c, s) == Rotation(sqrt, angle)
    ensures c * c + s * s == 1.0
    ensures Abs(angle) <= 0.0625 ==> Abs(s - SmallSine(angle)) <= 0.00000001
    ensures Abs(angle) <= 0.0625 ==> Abs(c - SmallCosine(angle)) <= 0.000001
  {
    hide SmallSine, SmallCosine;
    hide CosPoly, SinPoly, Seed, CPow, Exp2, Halvings, Scaled, NormSquared, Unit, Shrink;
    var sign := if angle < 0.0 then -1.0 else 1.0;
    assert Exp2(MAX_HALVINGS) == 1024 by { MaxHalvings(); }
    var reduced, halvings := Halve(Abs(angle), MAX_HALVINGS);

    var x2 := reduced * reduced;
    s := reduced * (1.0 - (x2 / 6.0) * (1.0 - (x2 / 20.0) * (1.0 - (x2 / 42.0) * (1.0 - x2 / 72.0))));
    c := 1.0 - (x2 / 2.0) * (1.0 - (x2 / 12.0) * (1.0 - (x2 / 30.0) * (1.0 - x2 / 56.0)));
    SeedExplicit(reduced, x2);

    c, s := DoubleBack(Seed(reduced), halvings, c, s);

    // Put the pair back on the unit circle.
    c, s := Renormalize(sqrt, Abs(angle), c, s);
    NormMirrored(c, s);
    NormExplicit(c, s * sign);
    s := s * sign;
    assert Point(c, s) == Rotation(sqrt, angle);
    hide Rotation, Unnormalized, IsSqrt;
    if Abs(angle) <= 0.0625 {
      NearZero(sqrt, angle);
    }
  }

  lemma MaxHalvings()
    ensures Exp2(MAX_HALVINGS) as real * REDUCED_LIMIT == MAX_ANGLE
    ensures Exp2(MAX_HALVINGS) == 1024
  {
  }

  // The doubling loop.
  method DoubleBack(ghost seed: Point, halvings: nat, c0: real, s0: real) returns (c: real, s: real)
    requires Point(c0, s0) == seed
    ensures Point(c, s) == CPow(seed, Exp2(halvings))
  {
    c, s := c0, s0;
    TimesOne(seed);
    assert CPow(seed, 1) == Times(seed, CPow(seed, 0));
    hide Times;
    for i := 0 to halvings
      invariant Point(c, s) == CPow(seed, Exp2(i))
    {
      var doubledC := c * c - s * s;
      var doubledS := 2.0 * c * s;
      DoubledExplicit(c, s);
      CPowDouble(seed, i);
      c := doubledC;
      s := doubledS;
    }
  }

  lemma DoubledExplicit(c: real, s: real)
    ensures Doubled(Point(c, s)) == Point(c * c - s * s, 2.0 * c * s)
  {
  }

  method Renormalize(sqrt: real -> real, ghost angle: real, c0: real, s0: real) returns (c: real, s: real)
    requires IsSqrt(sqrt) && 0.0 <= angle <= MAX_ANGLE
    requires Point(c0, s0) == Unnormalized(angle)
    ensures Point(c, s) == Unit(sqrt, Unnormalized(angle)) && NormSquared(Point(c, s)) == 1.0
  {
    hide Unnormalized, NormSquared, IsSqrt;
    c, s := c0, s0;
    NormExplicit(c, s);
    UnitIsOnCircle(sqrt, angle);
    var magnitude := sqrt(c * c + s * s);
    if magnitude > 0.0 {
      c := c / magnitude;
      s := s / magnitude;
    }
  }

  lemma NormExplicit(c: real, s: real)
    ensures c * c + s * s == NormSquared(Point(c, s))
  {
  }

  lemma NormMirrored(c: real, s: real)
    ensures NormSquared(Point(c, s * -1.0)) == NormSquared(Point(c, s)) == NormSquared(Point(c, s * 1.0))
  {
    assert s * -1.0 == -s;
    assert Prod(-s, -s) == Prod(s, s);
  }

  lemma SeedExplicit(x: real, x2: real)
    requires x2 == x * x
    ensures x * (1.0 - (x2 / 6.0) * (1.0 - (x2 / 20.0) * (1.0 - (x2 / 42.0) * (1.0 - x2 / 72.0)))) == Seed(x).s
    ensures 1.0 - (x2 / 2.0) * (1.0 - (x2 / 12.0) * (1.0 - (x2 / 30.0) * (1.0 - x2 / 56.0))) == Seed(x).c
  {
    assert Sq(x) == x2;
    CosPolyNegated(x2);
    SinPolyNegated(x2);
  }

  lemma CosPolyNegated(t: real)
    ensures 1.0 - (t / 2.0) * (1.0 - (t / 12.0) * (1.0 - (t / 30.0) * (1.0 - t / 56.0))) == CosPoly(-t)
  {
  }

  lemma SinPolyNegated(t: real)
    ensures 1.0 - (t / 6.0) * (1.0 - (t / 20.0) * (1.0 - (t / 42.0) * (1.0 - t / 72.0))) == SinPoly(-t)
  {
  }

  // Before renormalisation the pair is off the unit circle by at most a
  // multiple of the tenth power of the reduced angle, and by 1.04e-15 for
  // every accepted angle.
  lemma Drift(angle: real)
    requires 0.0 <= angle <= MAX_ANGLE
    ensures var k := Halvings(angle);
            var t := Sq(Scaled(angle, k));
            Abs(NormSquared(Unnormalized(angle)) - 1.0) <= Amplified(Fifth(t) / 1800000.0, k)
    ensures Abs(NormSquared(Unnormalized(angle)) - 1.0) <= 1.04 / 1000000000000000.0
  {
    hide *;
    var k := ReducedAngle(angle);
    var t := Sq(Scaled(angle, k));
    UnnormalizedNorm(angle);
    AbsNegated(t);
    GaugeNearOne(-t);
    FifthBound(t);
    AmplifiedDrift(Gauge(-t), Fifth(t) / 1800000.0, k);
  }

  lemma AbsNegated(t: real)
    requires t >= 0.0
    ensures Abs(-t) == Abs(t) == t
  {
  }

  lemma ReducedAngle(angle: real) returns (k: nat)
    requires 0.0 <= angle <= MAX_ANGLE
    ensures k == Halvings(angle) <= MAX_HALVINGS
    ensures 0.0 <= Scaled(angle, k) <= REDUCED_LIMIT
    ensures 0.0 <= Sq(Scaled(angle, k)) <= 1.0 / 256.0
  {
    HalvingsExact(angle, MAX_HALVINGS);
    k := Halvings(angle);
    var x := Scaled(angle, k);
    ProductMonotone(x, x, 0.0625, 0.0625);
  }

  lemma UnnormalizedNorm(angle: real)
    requires 0.0 <= angle
    ensures var k := Halvings(angle);
            NormSquared(Unnormalized(angle)) == Pow(Gauge(-Sq(Scaled(angle, k))), Exp2(k))
  {
    hide NormSquared, Seed, Gauge, Pow, CPow;
    var k := Halvings(angle);
    SeedNorm(Scaled(angle, k));
    CPowNorm(Seed(Scaled(angle, k)), Exp2(k));
  }

  // How far an error d of the reduced pair's squared norm can grow in k
  // doublings.
  function Amplified(d: real, k: nat): real {
    2.0 * Prod(Exp2(k) as real, d)
  }

  lemma AmplifiedDrift(norm: real, d: real, k: nat)
    requires k <= MAX_HALVINGS && Abs(norm - 1.0) <= d <= 1.0 / 1099511627776.0 / 1800000.0
    ensures Abs(Pow(norm, Exp2(k)) - 1.0) <= Amplified(d, k) <= 1.04 / 1000000000000000.0
  {
    Exp2Monotone(k, MAX_HALVINGS);
    assert Exp2(MAX_HALVINGS) == 1024;
    var n := Exp2(k) as real;
    ProductMonotone(n, d, 1024.0, d);
    assert Prod(1024.0, d) == 1024.0 * d;
    hide Pow, Exp2, Prod;
    PowNearOne(norm, d, Exp2(k));
  }

  lemma UnitIsOnCircle(sqrt: real -> real, angle: real)
    requires IsSqrt(sqrt) && 0.0 <= angle <= MAX_ANGLE
    ensures var p := Unnormalized(angle);
            sqrt(NormSquared(p)) > 0.0 && NormSquared(Unit(sqrt, p)) == 1.0
  {
    Drift(angle);
    NormalizeIsOnCircle(sqrt, Unnormalized(angle));
  }

  lemma NormalizeIsOnCircle(sqrt: real -> real, p: Point)
    requires IsSqrt(sqrt) && NormSquared(p) > 0.0
    ensures sqrt(NormSquared(p)) > 0.0 && NormSquared(Unit(sqrt, p)) == 1.0
  {
    var m := sqrt(NormSquared(p));
    assert m != 0.0;
    ShrinkNorm(p, m);
  }

  lemma ShrinkNorm(p: Point, m: real)
    requires m > 0.0 && NormSquared(p) == Sq(m)
    ensures NormSquared(Shrink(p, m)) == 1.0
  {
    hide Sq;
    SquareOfQuotient(p.c, m);
    SquareOfQuotient(p.s, m);
    SquarePositive(m);
    var u := Shrink(p, m);
    CancelSum(Sq(u.c), Sq(u.s), Sq(p.c), Sq(p.s), Sq(m));
  }

  lemma CancelSum(a2: real, b2: real, c2: real, s2: real, m2: real)
    requires m2 > 0.0 && c2 == a2 * m2 && s2 == b2 * m2 && c2 + s2 == m2
    ensures a2 + b2 == 1.0
  {
    Distribute(a2, b2, m2);
    Cancel(a2 + b2, 1.0, m2);
  }

  lemma ShrinkDoubled(p: Point, m: real, n: real)
    requires m > 0.0 && n > 0.0 && n == Sq(m)
    ensures Doubled(Shrink(p, m)) == Shrink(Doubled(p), n)
  {
    hide Sq, TwiceProduct;
    SquareOfQuotient(p.c, m);
    SquareOfQuotient(p.s, m);
    var u := Shrink(p, m);
    Distribute(Sq(u.c), Sq(u.s), n);
    QuotientOf(Doubled(p).c, Sq(u.c) - Sq(u.s), n);
    TwiceProductOfQuotients(p.c, p.s, m);
    QuotientOf(Doubled(p).s, TwiceProduct(u.c, u.s), n);
  }

  lemma TwiceProductOfQuotients(c: real, s: real, m: real)
    requires m > 0.0
    ensures TwiceProduct(c, s) == TwiceProduct(c / m, s / m) * Sq(m)
  {
    var a, b := c / m, s / m;
    DivideMultiply(c, m);
    DivideMultiply(s, m);
    assert 2.0 * (a * m) * (b * m) == (2.0 * a * b) * (m * m);
  }

  // ----- which rotation it is -----

  lemma CosTerms(t: real)
    requires 0.0 <= t <= 1.0 / 256.0
    ensures Abs(CosPoly(-t) - (1.0 - t / 2.0)) <= 0.0000007
  {
    var r := 1.0 - t / 30.0 * (1.0 - t / 56.0);
    assert CosPoly(-t) == 1.0 - t / 2.0 + t * t * (r / 24.0);
    hide CosPoly;
    assert 0.0 <= r <= 1.0 by { SeriesRest(t, 30.0, 56.0); }
    ProductMonotone(t, t, 1.0 / 256.0, 1.0 / 256.0);
    ProductMonotone(t * t, r / 24.0, 1.0 / 65536.0, 1.0 / 24.0);
  }

  lemma SeriesRest(t: real, a: real, b: real)
    requires 0.0 <= t <= 1.0 / 256.0 && a >= 1.0 && b >= 1.0
    ensures 0.0 <= 1.0 - t / a * (1.0 - t / b) <= 1.0
  {
    QuotientBelow(t, a);
    QuotientBelow(t, b);
    ProductMonotone(t / a, 1.0 - t / b, 1.0, 1.0);
  }

  lemma QuotientBelow(t: real, a: real)
    requires 0.0 <= t <= 1.0 / 256.0 && a >= 1.0
    ensures 0.0 <= t / a <= 1.0
  {
    var q := t / a;
    assert q * a == t;
  }

  lemma SinTerms(x: real, t: real)
    requires 0.0 <= x <= 0.0625 && t == x * x
    ensures Abs(Prod(x, SinPoly(-t)) - (x - x * t / 6.0)) <= 0.000000008
  {
    var r := 1.0 - t / 42.0 * (1.0 - t / 72.0);
    var u := t * t * (r / 120.0);
    ProductMonotone(x, x, 0.0625, 0.0625);
    SeriesRest(t, 42.0, 72.0);
    ProductMonotone(t, t, 1.0 / 256.0, 1.0 / 256.0);
    ProductMonotone(t * t, r / 120.0, 1.0 / 65536.0, 1.0 / 120.0);
    SinShape(t, u);
    SinRest(x, t, u);
  }

  lemma SinShape(t: real, u: real)
    requires u == t * t * ((1.0 - t / 42.0 * (1.0 - t / 72.0)) / 120.0)
    ensures SinPoly(-t) == 1.0 - t / 6.0 + u
  {
  }

  lemma SinRest(x: real, t: real, u: real)
    requires 0.0 <= x <= 0.0625 && 0.0 <= u <= 1.0 / 7864320.0
    ensures Abs(Prod(x, 1.0 - t / 6.0 + u) - (x - x * t / 6.0)) <= 0.000000008
  {
    ThreeTerms(x, t, u);
    ProductMonotone(x, u, 0.0625, 1.0 / 7864320.0);
    hide Prod;
    assert Prod(0.0625, 1.0 / 7864320.0) <= 0.000000008 by { SmallProduct(); }
  }

  lemma SmallProduct()
    ensures Prod(0.0625, 1.0 / 7864320.0) <= 0.000000008
  {
  }

  lemma ThreeTerms(x: real, t: real, u: real)
    ensures Prod(x, 1.0 - t / 6.0 + u) == x - x * t / 6.0 + Prod(x, u)
  {
  }

  lemma RootNearOne(m: real, d: real)
    requires m > 0.0 && Abs(Sq(m) - 1.0) <= d
    ensures Abs(m - 1.0) <= d
  {
    assert Sq(m) - 1.0 == (m - 1.0) * (m + 1.0);
    var e := m - 1.0;
    if e >= 0.0 {
      NonNegative(e, m);
      assert e * (m + 1.0) == e * m + e;
    } else {
      NonNegative(-e, m);
      assert e * (m + 1.0) == -(-e * m) + e;
    }
  }

  lemma DividedNearby(x: real, u: real, m: real, d: real)
    requires x == u * m && Abs(u) <= 1.0 && Abs(m - 1.0) <= d
    ensures Abs(u - x) <= d
  {
    Distribute(1.0, m, u);
    ProductBound(1.0 - m, u, d, 1.0);
  }

  lemma UnitTimes(sqrt: real -> real, p: Point)
    requires IsSqrt(sqrt) && NormSquared(p) > 0.0
    ensures var m, u := sqrt(NormSquared(p)), Unit(sqrt, p);
            m > 0.0 && Sq(m) == NormSquared(p) && NormSquared(u) == 1.0 && p.c == u.c * m && p.s == u.s * m
  {
    NormalizeIsOnCircle(sqrt, p);
    var m := sqrt(NormSquared(p));
    assert Sq(m) == NormSquared(p);
    hide NormSquared, Sq;
    DivideMultiply(p.c, m);
    DivideMultiply(p.s, m);
  }

  // Going back on the unit circle hardly moves a point that is almost on it.
  lemma UnitNearby(sqrt: real -> real, p: Point, d: real)
    requires IsSqrt(sqrt) && Abs(NormSquared(p) - 1.0) <= d < 1.0
    ensures Abs(Unit(sqrt, p).c - p.c) <= d && Abs(Unit(sqrt, p).s - p.s) <= d
  {
    hide NormSquared, Unit, Sq, IsSqrt;
    UnitTimes(sqrt, p);
    var m, u := sqrt(NormSquared(p)), Unit(sqrt, p);
    RootNearOne(m, d);
    CoordinateBelowOne(u.c, u.s);
    DividedNearby(p.c, u.c, m, d);
    DividedNearby(p.s, u.s, m, d);
  }

  lemma CoordinateBelowOne(c: real, s: real)
    requires NormSquared(Point(c, s)) == 1.0
    ensures Abs(c) <= 1.0 && Abs(s) <= 1.0
  {
    SquareNonNegative(c);
    SquareNonNegative(s);
    hide Sq;
    BelowOne(c);
    BelowOne(s);
  }

  lemma SquareNonNegative(x: real)
    ensures Sq(x) >= 0.0 && Sq(x) == Sq(-x)
  {
  }

  lemma BelowOne(x: real)
    requires Sq(x) <= 1.0
    ensures Abs(x) <= 1.0
  {
    var a := Abs(x);
    SquareNonNegative(x);
    if a > 1.0 {
      MulMonotone(1.0, a, 1.0, a);
    }
  }

  lemma UnreducedAngle(angle: real)
    requires 0.0 <= angle <= 0.0625
    ensures Unnormalized(angle) == Seed(angle)
  {
    hide Times, Seed;
    ScaledZero(angle);
    TimesOne(Seed(angle));
    assert CPow(Seed(angle), 1) == Times(Seed(angle), CPow(Seed(angle), 0));
  }

  // For a reduced angle: the cosine and the sine, and so which way round.
  lemma NearZeroUp(sqrt: real -> real, angle: real)
    requires IsSqrt(sqrt) && 0.0 <= angle <= 0.0625
    ensures var p := Unit(sqrt, Unnormalized(angle));
            Abs(p.s - SmallSine(angle)) <= 0.00000001 && Abs(p.c - SmallCosine(angle)) <= 0.000001
  {
    var t := angle * angle;
    ProductMonotone(angle, angle, 0.0625, 0.0625);
    assert Seed(angle) == Point(CosPoly(-t), Prod(angle, SinPoly(-t)));
    hide CosPoly, SinPoly, Unit, Unnormalized, Seed, NormSquared, Prod, IsSqrt;
    CosTerms(t);
    SinTerms(angle, t);
    SmallTerms(angle, t);
    hide SmallSine, SmallCosine;
    Drift(angle);
    UnreducedAngle(angle);
    UnitNearby(sqrt, Seed(angle), 1.04 / 1000000000000000.0);
  }

  lemma SmallTerms(x: real, t: real)
    requires t == x * x
    ensures SmallSine(x) == x - x * t / 6.0 && SmallCosine(x) == 1.0 - t / 2.0
  {
  }

  lemma SmallMirrored(x: real)
    ensures SmallSine(-x) == -SmallSine(x) && SmallCosine(-x) == SmallCosine(x)
  {
  }

  lemma NearZero(sqrt: real -> real, angle: real)
    requires IsSqrt(sqrt) && Abs(angle) <= 0.0625
    ensures Abs(Rotation(sqrt, angle).s - SmallSine(angle)) <= 0.00000001
    ensures Abs(Rotation(sqrt, angle).c - SmallCosine(angle)) <= 0.000001
  {
    hide Unit, Unnormalized, SmallSine, SmallCosine, IsSqrt;
    NearZeroUp(sqrt, Abs(angle));
    SmallMirrored(angle);
    var u := Unit(sqrt, Unnormalized(Abs(angle)));
    assert u.s * -1.0 == -u.s && u.s * 1.0 == u.s;
  }

  // A rotation and the rotation by the opposite angle are mirror images.
  lemma OppositeAngle(sqrt: real -> real, angle: real)
    requires IsSqrt(sqrt) && Abs(angle) <= MAX_ANGLE
    ensures Rotation(sqrt, -angle) == Point(Rotation(sqrt, angle).c, -Rotation(sqrt, angle).s)
  {
    hide Unnormalized, Unit;
    if angle == 0.0 {
      NoAngle(angle);
      UnitOnAxis(sqrt, Unnormalized(angle));
    }
  }

  lemma NoAngle(angle: real)
    requires angle == 0.0
    ensures Unnormalized(angle).s == 0.0
  {
    hide CosPoly, SinPoly, NormSquared, Times;
    ScaledZero(angle);
    TimesOne(Seed(angle));
    assert Unnormalized(angle) == CPow(Seed(angle), 1) == Seed(angle);
  }

  lemma UnitOnAxis(sqrt: real -> real, p: Point)
    requires p.s == 0.0
    ensures Unit(sqrt, p).s == 0.0
  {
    hide NormSquared;
  }

  // Rotating by twice an angle is exactly rotating by the angle twice, for
  // every angle whose double is still reduced by halving.
  lemma TwiceTheAngle(sqrt: real -> real, angle: real)
    requires IsSqrt(sqrt) && REDUCED_LIMIT < 2.0 * Abs(angle) <= MAX_ANGLE
    ensures Rotation(sqrt, 2.0 * angle) == Doubled(Rotation(sqrt, angle))
  {
    hide CosPoly, SinPoly, Unit, NormSquared, CPow, Seed, Scaled;
    var a := Abs(angle);
    var k := Halvings(a);
    assert Abs(2.0 * angle) == 2.0 * a && (2.0 * a) * 0.5 == a;
    assert Halvings(2.0 * a) == k + 1;
    ScaledStep(2.0 * a, k);
    CPowDouble(Seed(Scaled(a, k)), k);
    assert Unnormalized(2.0 * a) == Doubled(Unnormalized(a));
    Drift(a);
    UnitOfDoubled(sqrt, Unnormalized(a));
    var u := Unit(sqrt, Unnormalized(a));
    assert 2.0 * u.c * (u.s * -1.0) == (2.0 * u.c * u.s) * -1.0;
  }

  lemma UnitOfDoubled(sqrt: real -> real, p: Point)
    requires IsSqrt(sqrt) && NormSquared(p) > 0.0
    ensures Unit(sqrt, Doubled(p)) == Doubled(Unit(sqrt, p))
  {
    var n := NormSquared(p);
    var m := sqrt(n);
    assert m != 0.0;
    DoubledNorm(p);
    SquarePositive(n);
    SquareRootUnique(sqrt(Sq(n)), n);
    hide NormSquared, Doubled, Shrink, Sq;
    ShrinkDoubled(p, m, n);
  }

  lemma DoubledNorm(p: Point)
    ensures NormSquared(Doubled(p)) == Sq(NormSquared(p))
  {
    TimesSelf(p);
    TimesNorm(p, p);
  }

  // Every accepted angle is a reduced one doubled up to ten times, and its
  // rotation is the reduced one's rotation taken that many times over.
  lemma {:induction false} FromSmallAngle(sqrt: real -> real, angle: real) returns (k: nat)
    requires IsSqrt(sqrt) && Abs(angle) <= MAX_ANGLE
    ensures k <= 10 && Abs(Scaled(angle, k)) <= 0.0625
    ensures Rotation(sqrt, angle) == CPow(Rotation(sqrt, Scaled(angle, k)), Exp2(k))
  {
    k := SmallAngle(sqrt, angle, 10);
  }

  lemma {:induction false} SmallAngle(sqrt: real -> real, angle: real, j: nat) returns (k: nat)
    requires IsSqrt(sqrt) && Abs(angle) <= MAX_ANGLE && Abs(angle) <= Exp2(j) as real * 0.0625
    ensures k <= j && Abs(Scaled(angle, k)) <= 0.0625
    ensures Rotation(sqrt, angle) == CPow(Rotation(sqrt, Scaled(angle, k)), Exp2(k))
    decreases j
  {
    hide Rotation, Times, CPow, Exp2, IsSqrt, Doubled, Scaled;
    if Abs(angle) <= 0.0625 {
      k := 0;
      OnceOnly(Rotation(sqrt, angle), angle);
    } else {
      var half := angle * 0.5;
      TwiceAsMany(j);
      var i := SmallAngle(sqrt, half, j - 1);
      k := i + 1;
      TwiceTheAngle(sqrt, half);
      TwiceAsMany(k);
      ScaledStep(angle, i);
      CPowDouble(Rotation(sqrt, Scaled(half, i)), i);
    }
  }

  lemma OnceOnly(p: Point, angle: real)
    ensures Exp2(0) == 1 && CPow(p, Exp2(0)) == p && Scaled(angle, 0) == angle
  {
    assert CPow(p, 1) == Times(p, CPow(p, 0));
    TimesOne(p);
  }

  lemma TwiceAsMany(j: nat)
    ensures j > 0 ==> Exp2(j) == 2 * Exp2(j - 1) && Exp2(j) as real == 2.0 * Exp2(j - 1) as real
    ensures j == 0 ==> Exp2(j) == 1
  {
  }
}
