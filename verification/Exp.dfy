// exp of deterministic_math.rs over the reals: halve the argument, evaluate the
// ninth-order series, square back up.
module Exp {
  import opened RealPowers
  import opened Series

  const MAX_HALVINGS := 18
  const MAX_ARGUMENT := 64.0
  const MIN_ARGUMENT := -16384.0

  ghost predicate InDomain(x: real) {
    MIN_ARGUMENT <= x <= MAX_ARGUMENT
  }

  // The value with the argument halved k times and squared back k times.
  function At(x: real, k: nat): real {
    Pow(T9(Scaled(x, k)), Exp2(k))
  }

  function Value(x: real): real {
    At(x, Halvings(Abs(x)))
  }

  // The exponential of a small argument, up to its fourth power.
  function SmallExp(x: real): real {
    1.0 + x + x * x / 2.0 + x * x * x / 6.0
  }

  // Positive, and for a reduced argument the exponential up to the terms of
  // fourth order; `TwiceTheArgument` carries that to every argument.
  method Exp(x: real) returns (result: real)
    requires InDomain(x)
    ensures result == Value(x) > 0.0
    ensures Abs(x) <= 0.0625 ==> Abs(result - SmallExp(x)) <= 0.0000007
  {
    hide Pow, Horner, Halvings, Scaled, T9, SmallExp;
    if Abs(x) <= 0.0625 {
      NearZero(x);
    }
    MaxHalvings();
    var y, halvings := Halve(x, MAX_HALVINGS);
    result := 1.0 + y * (1.0 + y / 2.0 * (1.0 + y / 3.0 * (1.0 + y / 4.0 * (1.0 + y / 5.0 *
              (1.0 + y / 6.0 * (1.0 + y / 7.0 * (1.0 + y / 8.0 * (1.0 + y / 9.0))))))));
    T9Explicit(y);
    PowOne(T9(y));
    for i := 0 to halvings
      invariant result == Pow(T9(y), Exp2(i))
    {
      PowDouble(T9(y), i);
      SqExplicit(result);
      result := result * result;
    }
    T9Positive(y);
    PowPositive(T9(y), Exp2(halvings));
  }

  // The first four levels around what is inside, and what that adds.
  function FourLevels(y: real, inner: real): real {
    1.0 + y * (1.0 + y / 2.0 * (1.0 + y / 3.0 * (1.0 + y / 4.0 * inner)))
  }

  function FourthOrder(y: real, inner: real): real {
    y * y * y * y * inner / 24.0
  }

  lemma FourLevelsSplit(y: real, inner: real)
    ensures FourLevels(y, inner) == SmallExp(y) + FourthOrder(y, inner)
  {
  }

  lemma FourthOrderSmall(y: real, r: real)
    requires Abs(y) <= 0.0625 && Abs(r) <= 1.1
    ensures Abs(FourthOrder(y, r)) <= 0.0000007
  {
    ProductBound(y, y, 0.0625, 0.0625);
    ProductBound(y * y, y * y, 0.00390625, 0.00390625);
    assert (y * y) * (y * y) == y * y * y * y;
    ProductBound(y * y * y * y, r, 0.0000152587890625, 1.1);
  }

  lemma T9FromFifth(y: real)
    ensures T9(y) == FourLevels(y, Horner(y, 5))
  {
    LevelAt(y, 4, 4.0, Horner(y, 5));
    LevelAt(y, 3, 3.0, Horner(y, 4));
    LevelAt(y, 2, 2.0, Horner(y, 3));
    LevelAt(y, 1, 1.0, Horner(y, 2));
    hide Level;
  }

  lemma Unreduced(x: real)
    requires Abs(x) <= 0.0625
    ensures Value(x) == T9(x)
  {
    ScaledZero(x);
    hide T9, Scaled;
    PowOne(T9(x));
    assert Halvings(Abs(x)) == 0;
  }

  lemma NearZero(x: real)
    requires Abs(x) <= 0.0625
    ensures Abs(Value(x) - SmallExp(x)) <= 0.0000007
  {
    hide *;
    Unreduced(x);
    T9FromFifth(x);
    InnerBound(x);
    FourLevelsSplit(x, Horner(x, 5));
    FourthOrderSmall(x, Horner(x, 5));
    NearBy(Value(x), SmallExp(x), FourthOrder(x, Horner(x, 5)), 0.0000007);
  }

  lemma InnerBound(x: real)
    requires Abs(x) <= 0.0625
    ensures Abs(Horner(x, 5)) <= 1.1
  {
    HornerSlope(x, x, 5);
    hide Horner;
  }

  lemma NearBy(a: real, b: real, d: real, bound: real)
    requires a == b + d && Abs(d) <= bound
    ensures Abs(a - b) <= bound
  {
  }

  lemma MaxHalvings()
    ensures Exp2(MAX_HALVINGS) as real * REDUCED_LIMIT == -MIN_ARGUMENT
  {
    assert Exp2(9) == 512;
    assert Exp2(MAX_HALVINGS) == 512 * Exp2(9) by {
      assert Exp2(18) == 2 * Exp2(17) == 4 * Exp2(16) == 8 * Exp2(15) == 16 * Exp2(14);
      assert Exp2(14) == 2 * Exp2(13) == 4 * Exp2(12) == 8 * Exp2(11) == 16 * Exp2(10) == 32 * Exp2(9);
    }
  }

  lemma SqExplicit(x: real)
    ensures x * x == Sq(x)
  {
  }

  lemma PowOne(x: real)
    ensures Pow(x, Exp2(0)) == x
  {
    ProdAlgebra(x, 1.0, 1.0);
    assert Pow(x, 1) == Prod(x, Pow(x, 0));
  }

  lemma T9Explicit(y: real)
    ensures T9(y) == 1.0 + y * (1.0 + y / 2.0 * (1.0 + y / 3.0 * (1.0 + y / 4.0 * (1.0 + y / 5.0 *
                     (1.0 + y / 6.0 * (1.0 + y / 7.0 * (1.0 + y / 8.0 * (1.0 + y / 9.0))))))))
  {
    LevelAt(y, 9, 9.0, Horner(y, 10));
    LevelAt(y, 8, 8.0, Horner(y, 9));
    LevelAt(y, 7, 7.0, Horner(y, 8));
    LevelAt(y, 6, 6.0, Horner(y, 7));
    LevelAt(y, 5, 5.0, Horner(y, 6));
    T9FromFifth(y);
    hide Level, T9;
  }

  lemma LevelAt(y: real, k: nat, divisor: real, inner: real)
    requires k > 0 && divisor == k as real
    ensures Level(y, k, inner) == 1.0 + y / divisor * inner
  {
  }

  // The slope of a Horner level on the reduced interval.
  lemma {:induction false} HornerSlope(a: real, b: real, k: nat)
    requires Abs(a) <= REDUCED_LIMIT && Abs(b) <= REDUCED_LIMIT && a <= b && 1 <= k <= 10
    ensures 0.9 <= Horner(a, k) <= 1.1 && 0.9 <= Horner(b, k) <= 1.1
    ensures 0.0 <= Horner(b, k) - Horner(a, k) <= 1.2 * (b - a)
    ensures k == 1 ==> Horner(b, k) - Horner(a, k) >= 0.8 * (b - a)
    decreases 10 - k
  {
    if k < 10 {
      HornerSlope(a, b, k + 1);
      LevelSlope(a, b, k, Horner(a, k + 1), Horner(b, k + 1));
    }
  }

  lemma LevelSlope(a: real, b: real, k: nat, ha: real, hb: real)
    requires Abs(a) <= REDUCED_LIMIT && Abs(b) <= REDUCED_LIMIT && a <= b && k > 0
    requires 0.9 <= ha <= 1.1 && 0.9 <= hb <= 1.1 && 0.0 <= hb - ha <= 1.2 * (b - a)
    ensures 0.9 <= Level(a, k, ha) <= 1.1 && 0.9 <= Level(b, k, hb) <= 1.1
    ensures 0.0 <= Level(b, k, hb) - Level(a, k, ha) <= 1.2 * (b - a)
    ensures k == 1 ==> Level(b, k, hb) - Level(a, k, ha) >= 0.8 * (b - a)
  {
    LevelScaled(a, k, ha);
    LevelScaled(b, k, hb);
    ProductBound(a, ha, REDUCED_LIMIT, 1.1);
    ProductBound(b, hb, REDUCED_LIMIT, 1.1);
    GapBound(a, b, ha, hb);
    hide Prod, Level, Over;
    OverBounds(Prod(a, ha), k);
    OverBounds(Prod(b, hb), k);
    OverBounds(Prod(b, hb) - Prod(a, ha), k);
    OverDifference(Prod(b, hb), Prod(a, ha), k);
  }

  function Over(x: real, k: nat): real
    requires k > 0
  {
    x / k as real
  }

  lemma LevelScaled(a: real, k: nat, h: real)
    requires k > 0
    ensures Level(a, k, h) == 1.0 + Over(Prod(a, h), k)
  {
    var n := k as real;
    var u := a / n;
    DivideMultiply(a, n);
    assert (u * n) * h == (u * h) * n;
    QuotientOf(Prod(a, h), u * h, n);
  }

  lemma GapBound(a: real, b: real, ha: real, hb: real)
    requires Abs(a) <= REDUCED_LIMIT && a <= b
    requires 0.9 <= hb <= 1.1 && 0.0 <= hb - ha <= 1.2 * (b - a)
    ensures 0.8 * (b - a) <= Prod(b, hb) - Prod(a, ha) <= 1.2 * (b - a)
  {
    var d := b - a;
    assert Prod(b, hb) - Prod(a, ha) == Prod(d, hb) + Prod(a, hb - ha);
    assert 0.9 * d <= Prod(d, hb) <= 1.1 * d by {
      NonNegative(d, hb - 0.9);
      NonNegative(d, 1.1 - hb);
    }
    ProductBound(a, hb - ha, REDUCED_LIMIT, 1.2 * d);
    assert REDUCED_LIMIT * (1.2 * d) <= 0.1 * d;
    assert Prod(a, hb - ha) == a * (hb - ha);
    hide Prod;
  }

  // Division by a positive whole number shrinks a value and keeps its sign.
  lemma OverBounds(x: real, k: nat)
    requires k > 0
    ensures x >= 0.0 ==> 0.0 <= Over(x, k) <= x
    ensures x <= 0.0 ==> x <= Over(x, k) <= 0.0
    ensures k == 1 ==> Over(x, k) == x
  {
    var q, n := x / k as real, k as real;
    DivideMultiply(x, n);
    if x >= 0.0 {
      QuotientNonNegative(x, n);
      NonNegative(q, n - 1.0);
      assert q * (n - 1.0) == q * n - q;
    } else {
      QuotientNonNegative(-x, n);
      assert (-x) / n == -q;
      NonNegative(-q, n - 1.0);
      assert -q * (n - 1.0) == q - q * n;
    }
  }

  lemma QuotientNonNegative(x: real, n: real)
    requires n > 0.0 && x >= 0.0
    ensures x / n >= 0.0
  {
  }

  lemma OverDifference(x: real, y: real, k: nat)
    requires k > 0
    ensures Over(x, k) - Over(y, k) == Over(x - y, k)
  {
  }

  lemma T9Positive(y: real)
    requires Abs(y) <= REDUCED_LIMIT
    ensures 0.9 <= T9(y) <= 1.1
  {
    HornerSlope(y, y, 1);
  }

  lemma {:induction false} HornerIncreasing(a: real, b: real, k: nat)
    requires 0.0 <= a < b && 1 <= k <= 10
    ensures 1.0 <= Horner(a, k) <= Horner(b, k)
    ensures k < 10 ==> Horner(a, k) < Horner(b, k)
    decreases 10 - k
  {
    if k < 10 {
      HornerIncreasing(a, b, k + 1);
      LevelIncreasing(a, b, k, Horner(a, k + 1), Horner(b, k + 1));
    }
  }

  lemma LevelIncreasing(a: real, b: real, k: nat, ha: real, hb: real)
    requires 0.0 <= a < b && 1.0 <= ha <= hb && k > 0
    ensures 1.0 <= Level(a, k, ha) < Level(b, k, hb)
  {
    LevelScaled(a, k, ha);
    LevelScaled(b, k, hb);
    assert Prod(b, hb) == Prod(b - a, hb) + Prod(a, hb - ha) + Prod(a, ha);
    hide Prod, Level, Over;
    ProdPositive(b - a, hb);
    NonNegative(a, hb - ha);
    NonNegative(a, ha);
    OverBounds(Prod(a, ha), k);
    OverDifference(Prod(b, hb), Prod(a, ha), k);
    OverPositive(Prod(b, hb) - Prod(a, ha), k);
  }

  lemma OverPositive(x: real, k: nat)
    requires k > 0 && x > 0.0
    ensures Over(x, k) > 0.0
  {
    DivideMultiply(x, k as real);
    OverBounds(x, k);
  }

  // Halving once more than necessary never lowers the value of a
  // nonnegative argument.
  lemma AnotherHalving(x: real, k: nat)
    requires x >= 0.0
    ensures 0.0 < At(x, k) <= At(x, k + 1)
  {
    var h := Scaled(x, k + 1);
    ScaledStep(x, k);
    ScaledNonNegative(x, k + 1);
    SquareAhead(h);
    HornerIncreasing(2.0 * h, 2.0 * h + 1.0, 1);
    PowMonotone(T9(2.0 * h), Sq(T9(h)), Exp2(k));
    PowOfSquare(T9(h), k);
  }

  lemma {:induction false} ScaledNonNegative(x: real, k: nat)
    requires x >= 0.0
    ensures Scaled(x, k) >= 0.0
  {
    if k > 0 {
      ScaledNonNegative(x, k - 1);
    }
  }

  lemma {:induction false} MoreHalvings(x: real, j: nat, k: nat)
    requires x >= 0.0 && j <= k
    ensures 0.0 < At(x, j) <= At(x, k)
  {
    hide At;
    if j < k {
      MoreHalvings(x, j, k - 1);
      AnotherHalving(x, k - 1);
    } else {
      AnotherHalving(x, j);
    }
  }

  lemma {:induction false} ScaledIncreasing(x: real, y: real, k: nat)
    requires x < y
    ensures Scaled(x, k) < Scaled(y, k)
  {
    if k > 0 {
      ScaledIncreasing(x, y, k - 1);
    }
  }

  // exp is strictly increasing on the nonnegative arguments, also where the
  // number of halvings changes.
  lemma IncreasingOnNonNegative(x: real, y: real)
    requires 0.0 <= x < y
    ensures Value(x) < Value(y)
  {
    var k := Halvings(y);
    HalvingsMonotone(x, y);
    MoreHalvings(x, Halvings(x), k);
    ScaledIncreasing(x, y, k);
    ScaledNonNegative(x, k);
    HornerIncreasing(Scaled(x, k), Scaled(y, k), 1);
    PowMonotone(T9(Scaled(x, k)), T9(Scaled(y, k)), Exp2(k));
  }

  // exp is strictly increasing, whatever the signs, between arguments halved
  // equally often.
  lemma IncreasingWithinOctave(x: real, y: real)
    requires x < y && Halvings(Abs(x)) == Halvings(Abs(y))
    ensures Value(x) < Value(y)
  {
    var k := Halvings(Abs(x));
    ReducedArgument(x);
    ReducedArgument(y);
    ScaledIncreasing(x, y, k);
    HornerSlope(Scaled(x, k), Scaled(y, k), 1);
    PowMonotone(T9(Scaled(x, k)), T9(Scaled(y, k)), Exp2(k));
  }

  lemma ReducedArgument(x: real)
    ensures Abs(Scaled(x, Halvings(Abs(x)))) <= REDUCED_LIMIT
  {
    var j := EnoughHalvings(Abs(x));
    HalvingsExact(Abs(x), j);
    AbsScaled(x, Halvings(Abs(x)));
  }

  lemma {:induction false} AbsScaled(x: real, k: nat)
    ensures Abs(Scaled(x, k)) == Scaled(Abs(x), k)
  {
    if k > 0 {
      AbsScaled(x, k - 1);
    }
  }

  lemma {:induction false} EnoughHalvings(x: real) returns (j: nat)
    requires x >= 0.0
    ensures x <= Exp2(j) as real * REDUCED_LIMIT
    decreases (16.0 * x).Floor
  {
    j := 0;
    if x > REDUCED_LIMIT {
      var i := EnoughHalvings(x * 0.5);
      j := i + 1;
    }
  }

  // exp crosses one exactly at zero.
  lemma SignOfExponent(x: real)
    ensures x < 0.0 ==> 0.0 < Value(x) < 1.0
    ensures x == 0.0 ==> Value(x) == 1.0
    ensures x > 0.0 ==> Value(x) > 1.0
  {
    var k := Halvings(Abs(x));
    ReducedArgument(x);
    var y := Scaled(x, k);
    HornerAtZero(1);
    PowOnes(Exp2(k));
    ScaledAtZero(k);
    if x < 0.0 {
      ScaledIncreasing(x, 0.0, k);
      HornerSlope(y, 0.0, 1);
      PowMonotone(T9(y), 1.0, Exp2(k));
    } else if x > 0.0 {
      ScaledIncreasing(0.0, x, k);
      HornerSlope(0.0, y, 1);
      PowMonotone(1.0, T9(y), Exp2(k));
    }
  }

  lemma ScaledAtZero(k: nat)
    ensures Scaled(0.0, k) == 0.0
  {
  }

  lemma {:induction false} HornerAtZero(k: nat)
    requires 1 <= k <= 10
    ensures Horner(0.0, k) == 1.0
    decreases 10 - k
  {
    if k < 10 {
      HornerAtZero(k + 1);
      LevelScaled(0.0, k, 1.0);
      OverBounds(0.0, k);
    }
  }

  lemma {:induction false} PowOnes(n: nat)
    ensures Pow(1.0, n) == 1.0
  {
    if n > 0 {
      PowOnes(n - 1);
    }
  }

  // exp(2x) is exactly the square of exp(x) whenever 2x is reduced by halving.
  lemma TwiceTheArgument(x: real)
    requires REDUCED_LIMIT < 2.0 * Abs(x)
    ensures Value(2.0 * x) == Sq(Value(x))
  {
    hide Pow, T9, Scaled;
    var k := Halvings(Abs(x));
    assert Abs(2.0 * x) * 0.5 == Abs(x);
    assert Halvings(Abs(2.0 * x)) == k + 1;
    ScaledStep(2.0 * x, k);
    assert (2.0 * x) * 0.5 == x;
    PowDouble(T9(Scaled(x, k)), k);
  }

  // How far the product of opposite arguments halved k times can be from one:
  // what k squarings make of the truncation of one series pair.
  function Drift(k: nat): real {
    2.0 * Prod(Exp2(k) as real, 1.0 / 1099511627776.0 / 1800000.0)
  }

  // The drift on the whole domain, and where both arguments are accepted.
  lemma DriftBounds(k: nat)
    ensures Drift(k) > 0.0
    ensures k <= 18 ==> Drift(k) <= 2.65 / 10000000000000.0
    ensures k <= 10 ==> Drift(k) <= 1.04 / 1000000000000000.0
  {
    MaxHalvings();
    assert Exp2(10) == 1024;
    if k <= 18 {
      Exp2Monotone(k, 18);
    }
    if k <= 10 {
      Exp2Monotone(k, 10);
    }
  }

  // exp of opposite arguments multiplies to one, up to the amplified
  // truncation error.
  lemma OppositeArguments(x: real)
    requires Abs(x) <= -MIN_ARGUMENT
    ensures Abs(Prod(Value(x), Value(-x)) - 1.0) <= Drift(Halvings(Abs(x))) <= 2.65 / 10000000000000.0
    ensures Abs(x) <= MAX_ARGUMENT ==> Drift(Halvings(Abs(x))) <= 1.04 / 1000000000000000.0
  {
    hide Prod, T9, Gauge, Fifth, Pow, Scaled, Drift;
    var k := Halvings(Abs(x));
    MaxHalvings();
    HalvingsExact(Abs(x), 18);
    if Abs(x) <= MAX_ARGUMENT {
      assert Exp2(10) == 1024;
      HalvingsExact(Abs(x), 10);
    }
    DriftBounds(k);
    ReducedArgument(x);
    var y := Scaled(x, k);
    ScaledNegated(x, k);
    SquareOfReduced(y);
    T9Opposite(y, y * y);
    GaugeNearOne(y * y);
    FifthBound(y * y);
    PowProduct(T9(y), T9(-y), Exp2(k));
    AmplifiedError(Gauge(y * y), Fifth(y * y) / 1800000.0, k);
  }

  lemma {:induction false} ScaledNegated(x: real, k: nat)
    ensures Scaled(-x, k) == -Scaled(x, k)
  {
    if k > 0 {
      ScaledNegated(x, k - 1);
    }
  }

  lemma SquareOfReduced(y: real)
    requires Abs(y) <= REDUCED_LIMIT
    ensures 0.0 <= y * y == Abs(y * y) <= 1.0 / 256.0
  {
    ProductBound(y, y, REDUCED_LIMIT, REDUCED_LIMIT);
    NonNegative(Abs(y), Abs(y));
  }

  lemma T9Opposite(y: real, t: real)
    requires t == y * y
    ensures Prod(T9(y), T9(-y)) == Gauge(t)
  {
    hide T9, CosPoly, SinPoly;
    T9Split(y, t);
    assert t == (-y) * (-y);
    T9Split(-y, t);
    DifferenceOfSquares(y, t, CosPoly(t), SinPoly(t));
  }

  lemma DifferenceOfSquares(y: real, t: real, c: real, s: real)
    requires t == y * y
    ensures Prod(c + y * s, c + -y * s) == Sq(c) - Prod(t, Sq(s))
  {
    assert (c + y * s) * (c + -y * s) == c * c - (y * y) * (s * s);
  }

  lemma AmplifiedError(gauge: real, d: real, k: nat)
    requires k <= 18 && Abs(gauge - 1.0) <= d <= 1.0 / 1099511627776.0 / 1800000.0
    ensures Abs(Pow(gauge, Exp2(k)) - 1.0) <= Drift(k)
  {
    var unit := 1.0 / 1099511627776.0 / 1800000.0;
    DriftBounds(k);
    assert Drift(k) == 2.0 * Prod(Exp2(k) as real, unit);
    hide Pow, Exp2, Prod, Drift;
    PowNearOne(gauge, unit, Exp2(k));
  }
}
