// Where exp is increasing. Over the reals it is on the nonnegative arguments and
// within an octave, it steps down just beyond every octave boundary of the
// negative ones, and it is again between any arguments as far apart as two
// binary64 numbers always are.
module ExpOrder {
  import opened RealPowers
  import opened Series
  import opened Exp

  // ----- how far it can step down -----

  // On the negative arguments exp can step down where the number of halvings
  // changes, but never by more than twice the drift in relative terms.
  lemma AlmostIncreasing(x: real, y: real)
    requires MIN_ARGUMENT <= x < y <= 0.0
    ensures var d := Drift(Halvings(-x)); Prod(Value(x), 1.0 - d) < Prod(Value(y), 1.0 + d)
    ensures Drift(Halvings(-x)) <= 2.65 / 10000000000000.0
    ensures -MAX_ARGUMENT <= x ==> Drift(Halvings(-x)) <= 1.04 / 1000000000000000.0
  {
    hide Value, Prod, Drift;
    OppositeArguments(x);
    OppositeArguments(y);
    HalvingsMonotone(-y, -x);
    DriftMonotone(Halvings(-y), Halvings(-x));
    IncreasingOnNonNegative(-y, -x);
    SignOfExponent(x);
    SignOfExponent(y);
    SignOfExponent(-y);
    CrossMultiply(Value(x), Value(-x), Value(y), Value(-y), Drift(Halvings(-x)));
  }

  lemma DriftMonotone(j: nat, k: nat)
    requires j <= k
    ensures Drift(j) <= Drift(k)
  {
    Exp2Monotone(j, k);
  }

  lemma CrossMultiply(x: real, ox: real, y: real, oy: real, d: real)
    requires 0.0 < x && 0.0 < y && 0.0 < oy < ox && 0.0 <= d < 1.0
    requires Abs(Prod(x, ox) - 1.0) <= d && Abs(Prod(y, oy) - 1.0) <= d
    ensures Prod(x, 1.0 - d) < Prod(y, 1.0 + d)
  {
    ProdMonotone(oy, ox, x, x);
    ProdAlgebra(x, ox, 1.0);
    ProdAlgebra(x, oy, 1.0);
    var lo, hi := Prod(y, oy), Prod(x, oy);
    assert hi < 1.0 + d && 1.0 - d <= lo;
    assert Prod(x, lo) == Prod(y, hi) by {
      assert x * (y * oy) == y * (x * oy);
    }
    ProdPositive(x, oy);
    ProdMonotone(1.0 - d, lo, x, x);
    ProdMonotone(hi, 1.0 + d, y, y);
    hide Prod;
    ProdAlgebra(x, lo, 1.0);
    ProdAlgebra(x, 1.0 - d, 1.0);
    ProdAlgebra(y, hi, 1.0);
    ProdAlgebra(y, 1.0 + d, 1.0);
  }

  // ----- octaves -----

  // The largest magnitude that j halvings reduce.
  function Boundary(j: nat): real {
    Exp2(j) as real * REDUCED_LIMIT
  }

  lemma BoundaryStep(j: nat)
    ensures Boundary(0) == REDUCED_LIMIT && Boundary(j + 1) == 2.0 * Boundary(j) && Boundary(j) >= REDUCED_LIMIT
  {
  }

  lemma {:induction false} OctaveExactly(x: real, j: nat)
    requires x >= 0.0
    ensures Halvings(x) <= j <==> x <= Boundary(j)
    decreases j
  {
    BoundaryStep(0);
    if j > 0 && x > REDUCED_LIMIT {
      OctaveExactly(x * 0.5, j - 1);
      BoundaryStep(j - 1);
    } else if j > 0 {
      BoundaryStep(j);
    }
  }

  lemma ValueReduced(x: real)
    requires Abs(x) <= REDUCED_LIMIT
    ensures Value(x) == T9(x)
  {
    ScaledZero(x);
    PowOne(T9(x));
  }

  lemma ValueOnceHalved(x: real)
    requires REDUCED_LIMIT < Abs(x) <= 2.0 * REDUCED_LIMIT
    ensures Value(x) == Sq(T9(x * 0.5))
  {
    TwiceTheArgument(x * 0.5);
    ValueReduced(x * 0.5);
  }

  // ----- the step down at every boundary -----

  // How far beyond the first boundary the step down is certain to reach.
  const DIP := 1.0 / 10000000000000000000.0

  lemma FirstStepDown(x: real)
    requires -REDUCED_LIMIT - DIP <= x < -REDUCED_LIMIT
    ensures Value(-REDUCED_LIMIT) < Value(x)
  {
    var h, g := -REDUCED_LIMIT * 0.5, x * 0.5;
    ValueReduced(-REDUCED_LIMIT);
    ValueOnceHalved(x);
    hide Value, T9;
    SquareIdentity(h, h * h);
    BoundaryGain(h, h * h);
    T9Positive(g);
    HornerSlopeAt(g, h);
    SquareSlope(T9(g), T9(h), 1.2 * (h - g));
  }

  lemma HornerSlopeAt(g: real, h: real)
    requires Abs(g) <= REDUCED_LIMIT && Abs(h) <= REDUCED_LIMIT && g <= h
    ensures 0.8 * (h - g) <= T9(h) - T9(g) <= 1.2 * (h - g)
    ensures 0.9 <= T9(g) <= 1.1 && 0.9 <= T9(h) <= 1.1
    ensures h <= 0.0 ==> T9(h) <= 1.0
  {
    HornerSlope(g, h, 1);
    if h <= 0.0 {
      HornerAtZero(1);
      HornerSlope(h, 0.0, 1);
    }
  }

  lemma BoundaryGain(h: real, t: real)
    requires h == -0.03125 && t == h * h
    ensures Prod(Fifth(t), EvenExcess(t) + Prod(h, OddExcess(t))) > 2.4 / 10000000000000000000.0
  {
    assert t == 0.0009765625;
    assert Fifth(t) >= 0.00000000000000088;
    assert EvenExcess(t) >= 73.0 / 259200.0;
    assert OddExcess(t) <= 0.00006;
  }

  lemma SquareSlope(a: real, b: real, d: real)
    requires 0.0 < a <= b <= 1.0 && b - a <= d
    ensures Sq(b) - Sq(a) <= 2.0 * d
  {
    assert Sq(b) - Sq(a) == (b - a) * (b + a);
    ProductMonotone(b - a, b + a, d, 2.0);
  }

  // Just beyond every octave boundary the value is larger than at it.
  lemma {:induction false} StepsDownAtEveryBoundary(j: nat, x: real)
    requires -Boundary(j) - DIP <= x < -Boundary(j)
    ensures Value(-Boundary(j)) < Value(x)
  {
    hide Value, Boundary;
    BoundaryStep(0);
    if j == 0 {
      FirstStepDown(x);
    } else {
      BoundaryStep(j - 1);
      StepsDownAtEveryBoundary(j - 1, x * 0.5);
      SquaresOrdered(-Boundary(j - 1), x * 0.5);
    }
  }

  // Doubling two arguments that are halved keeps their order.
  lemma SquaresOrdered(x: real, y: real)
    requires REDUCED_LIMIT < 2.0 * Abs(x) && REDUCED_LIMIT < 2.0 * Abs(y) && Value(x) < Value(y)
    ensures Value(2.0 * x) < Value(2.0 * y)
  {
    hide Value;
    TwiceTheArgument(x);
    TwiceTheArgument(y);
    SignOfExponent(x);
    SignOfExponent(y);
    ProdMonotone(Value(x), Value(y), Value(x), Value(y));
  }

  // ----- on which intervals it is increasing -----

  ghost predicate IncreasingOn(a: real, b: real) {
    forall x, y :: a <= x < y <= b ==> Value(x) < Value(y)
  }

  lemma FromFirstBoundaryOn(x: real, y: real)
    requires -REDUCED_LIMIT <= x < y
    ensures Value(x) < Value(y)
  {
    hide Value;
    if 0.0 <= x {
      IncreasingOnNonNegative(x, y);
    } else if y <= 0.0 {
      IncreasingWithinOctave(x, y);
    } else {
      SignOfExponent(x);
      SignOfExponent(y);
    }
  }

  // exp is strictly increasing on an interval of reals exactly when the interval
  // starts at or after the first boundary, or lies within one negative octave.
  lemma IncreasingExactly(a: real, b: real)
    requires a < b
    ensures IncreasingOn(a, b) <==> a >= -REDUCED_LIMIT || (b < 0.0 && Halvings(-a) == Halvings(-b))
  {
    hide Value;
    if a >= -REDUCED_LIMIT {
      forall x, y | a <= x < y <= b ensures Value(x) < Value(y) {
        FromFirstBoundaryOn(x, y);
      }
    } else if b < 0.0 && Halvings(-a) == Halvings(-b) {
      forall x, y | a <= x < y <= b ensures Value(x) < Value(y) {
        HalvingsMonotone(-b, -y);
        HalvingsMonotone(-y, -x);
        HalvingsMonotone(-x, -a);
        IncreasingWithinOctave(x, y);
      }
    } else {
      var j := if b < 0.0 then Halvings(-b) else 0;
      if b < 0.0 {
        HalvingsMonotone(-b, -a);
        OctaveExactly(-b, j);
      }
      BoundaryStep(0);
      OctaveExactly(-a, j);
      BoundaryStep(j);
      var y := -Boundary(j);
      var x := if a >= y - DIP then a else y - DIP;
      StepsDownAtEveryBoundary(j, x);
      assert a <= x < y <= b && !(Value(x) < Value(y));
    }
  }

  // ----- arguments that are apart -----

  // A relative distance of 2^-57. Two binary64 numbers of one sign are at least
  // 2^-53 apart.
  const APART := 1.0 / 144115188075855872.0

  lemma FirstOctaveApart(x: real, y: real)
    requires -2.0 * REDUCED_LIMIT <= x < -REDUCED_LIMIT <= y <= 0.0 && y - x >= APART * -x
    ensures Value(x) < Value(y)
  {
    var g, h := x * 0.5, y * 0.5;
    ValueOnceHalved(x);
    ValueReduced(y);
    hide Value, T9;
    HornerSlopeAt(g, h);
    assert h - g >= 2.16 / 10000000000000000000.0;
    SquareGap(T9(g), T9(h));
    SquareIdentity(h, h * h);
    RemainderBelow(h, h * h);
  }

  lemma SquareGap(a: real, b: real)
    requires 0.9 <= a <= b
    ensures Sq(b) - Sq(a) >= 1.8 * (b - a)
  {
    NonNegative(b - a, b + a - 1.8);
    assert (b - a) * (b + a) == Sq(b) - Sq(a);
    assert (b - a) * (b + a - 1.8) == (b - a) * (b + a) - 1.8 * (b - a);
  }

  lemma RemainderBelow(h: real, t: real)
    requires -REDUCED_LIMIT * 0.5 <= h <= 0.0 && t == h * h
    ensures Prod(Fifth(t), EvenExcess(t) + Prod(h, OddExcess(t))) <= 2.6 / 10000000000000000000.0
  {
    ProductMonotone(-h, -h, 0.03125, 0.03125);
    FifthBelow(t);
    EvenExcessBelow(t);
    hide Fifth, EvenExcess, OddExcess, Prod;
    NegativeProduct(h, OddExcess(t));
    SmallProduct(Fifth(t), EvenExcess(t) + Prod(h, OddExcess(t)));
  }

  lemma FifthBelow(t: real)
    requires 0.0 <= t <= 0.0009765625
    ensures 0.0 <= Fifth(t) <= 0.00000000000000089
  {
    var a := t * t;
    ProductMonotone(t, t, 0.0009765625, 0.0009765625);
    ProductMonotone(a, a, 0.00000095367431640625, 0.00000095367431640625);
    ProductMonotone(a * a, t, 0.00000000000091, 0.0009765625);
    assert Fifth(t) == a * a * t;
  }

  lemma NegativeProduct(h: real, odd: real)
    requires h <= 0.0 && odd >= 0.0
    ensures Prod(h, odd) <= 0.0
  {
    NonNegative(-h, odd);
    assert h * odd == -(-h * odd);
  }

  lemma SmallProduct(f: real, e: real)
    requires 0.0 <= f <= 0.00000000000000089 && e <= 0.000282
    ensures Prod(f, e) <= 2.6 / 10000000000000000000.0
  {
    NonNegative(f, 0.000282 - e);
    assert f * e == 0.000282 * f - f * (0.000282 - e);
  }

  lemma EvenExcessBelow(t: real)
    requires 0.0 <= t <= 0.001
    ensures EvenExcess(t) <= 0.000282
  {
    var r3 := 1.0 / 585252864.0 + t * (1.0 / 131681894400.0);
    var r2 := 47.0 / 304819200.0 + t * r3;
    ProductMonotone(t, r3, 0.001, 0.001);
    var r1 := 179.0 / 21772800.0 + t * r2;
    ProductMonotone(t, r2, 0.001, 0.001);
    ProductMonotone(t, r1, 0.001, 0.001 * 0.01);
  }

  lemma {:induction false} NextOctaveApart(x: real, y: real, j: nat)
    requires x < y <= 0.0 && y - x >= APART * -x && Halvings(-y) == j && Halvings(-x) == j + 1
    ensures Value(x) < Value(y)
    decreases j
  {
    hide Value;
    BoundaryStep(0);
    if j == 0 {
      OctaveExactly(-y, 0);
      OctaveExactly(-x, 0);
      OctaveExactly(-x, 1);
      FirstOctaveApart(x, y);
    } else {
      assert -(x * 0.5) == -x * 0.5 && -(y * 0.5) == -y * 0.5;
      NextOctaveApart(x * 0.5, y * 0.5, j - 1);
      SquaresOrdered(x * 0.5, y * 0.5);
    }
  }

  lemma {:induction false} NegativesApart(x: real, y: real)
    requires x < y <= 0.0 && y - x >= APART * -x
    ensures Value(x) < Value(y)
    decreases Halvings(-x)
  {
    hide Value;
    var j, k := Halvings(-y), Halvings(-x);
    HalvingsMonotone(-y, -x);
    if j == k {
      IncreasingWithinOctave(x, y);
    } else if k == j + 1 {
      NextOctaveApart(x, y, j);
    } else {
      var z := -1.5 * Boundary(j);
      BoundaryStep(j);
      OctaveExactly(-z, j);
      OctaveExactly(-z, j + 1);
      OctaveExactly(-y, j);
      OctaveExactly(-x, j + 1);
      NextOctaveApart(z, y, j);
      FarOctaves(x, z, j + 1, k);
    }
  }

  // The rest of the way, from the middle of octave i out to octave k.
  lemma {:induction false} FarOctaves(x: real, z: real, i: nat, k: nat)
    requires x < z <= 0.0 && z == -0.75 * Boundary(i)
    requires Halvings(-x) == k > i == Halvings(-z) > 0
    ensures Value(x) < Value(z)
    decreases k - i
  {
    hide Value;
    BoundaryStep(i);
    OctaveExactly(-x, i);
    if k == i + 1 {
      NextOctaveApart(x, z, i);
    } else {
      var further := -0.75 * Boundary(i + 1);
      OctaveExactly(-further, i);
      OctaveExactly(-further, i + 1);
      OctaveExactly(-x, i + 1);
      FarOctaves(x, further, i + 1, k);
      NextOctaveApart(further, z, i);
    }
  }

  // exp is strictly increasing between any two arguments that are apart, over
  // all octaves and both signs.
  lemma IncreasingWhenApart(x: real, y: real)
    requires x < y && (x < 0.0 ==> y - x >= APART * -x)
    ensures Value(x) < Value(y)
  {
    hide Value;
    if y <= 0.0 {
      NegativesApart(x, y);
    } else if x < 0.0 {
      SignOfExponent(x);
      SignOfExponent(y);
    } else {
      IncreasingOnNonNegative(x, y);
    }
  }

  // ----- binary64 -----

  function TwoTo(e: int): real {
    if e >= 0 then Exp2(e) as real else 1.0 / Exp2(-e) as real
  }

  lemma TwoToStep(e: int)
    ensures TwoTo(e) > 0.0 && TwoTo(e + 1) == 2.0 * TwoTo(e)
  {
    if e < 0 {
      var n := Exp2(-e - 1) as real;
      assert Exp2(-e) as real == 2.0 * n;
      HalfReciprocal(n);
    }
  }

  lemma HalfReciprocal(n: real)
    requires n > 0.0
    ensures 1.0 / n == 2.0 * (1.0 / (2.0 * n)) && 1.0 / (2.0 * n) > 0.0
  {
    DivideMultiply(1.0, 2.0 * n);
  }

  lemma {:induction false} TwoToMonotone(e: int, f: int)
    requires e <= f
    ensures 0.0 < TwoTo(e) <= TwoTo(f)
    decreases f - e
  {
    TwoToStep(e);
    if e < f {
      TwoToMonotone(e + 1, f);
    }
  }

  // The numbers with a quantum are its multiples; larger powers of two have it.
  lemma {:induction false} SmallerQuantum(n: int, f: int, e: int) returns (m: int)
    requires e <= f
    ensures m as real * TwoTo(e) == n as real * TwoTo(f)
    decreases f - e
  {
    hide TwoTo;
    if e == f {
      m := n;
    } else {
      m := SmallerQuantum(2 * n, f - 1, e);
      TwoToStep(f - 1);
      assert (2 * n) as real == 2.0 * n as real;
      assert (2.0 * n as real) * TwoTo(f - 1) == n as real * (2.0 * TwoTo(f - 1));
    }
  }

  const SIGNIFICANDS: int := 0x20_0000_0000_0000

  // A positive number of 53 significant bits, whatever its exponent.
  ghost predicate HasBits(x: real, m: int, e: int) {
    SIGNIFICANDS <= 2 * m < 2 * SIGNIFICANDS && x == m as real * TwoTo(e)
  }

  // Every finite binary64 number is one of these, the subnormal ones included.
  ghost predicate Binary64(x: real) {
    x == 0.0 || exists m: int, e: int :: HasBits(Abs(x), m, e)
  }

  lemma MultiplesApart(m: int, n: int, q: real, x: real, y: real)
    requires q > 0.0 && x == m as real * q && y == n as real * q && x > y && m < SIGNIFICANDS
    ensures (x - y) * SIGNIFICANDS as real >= x
  {
    assert (n - m) as real * q == y - x;
    if m <= n {
      NonNegative((n - m) as real, q);
      assert false;
    }
    NonNegative((m - n - 1) as real, q);
    assert (m - n - 1) as real * q == x - y - q;
    NonNegative((SIGNIFICANDS - m) as real, q);
    assert (SIGNIFICANDS - m) as real * q == SIGNIFICANDS as real * q - x;
  }

  // Two positive numbers of 53 bits differ by at least 2^-53 of the larger.
  lemma BitsApart(x: real, m: int, e: int, y: real, n: int, f: int)
    requires HasBits(x, m, e) && HasBits(y, n, f) && y < x
    ensures (x - y) * SIGNIFICANDS as real >= x
  {
    hide TwoTo;
    TwoToStep(e);
    if e <= f {
      var k := SmallerQuantum(n, f, e);
      MultiplesApart(m, k, TwoTo(e), x, y);
    } else {
      TwoToMonotone(f, e - 1);
      TwoToStep(e - 1);
      SmallerExponent(x, m, TwoTo(e - 1), y, n, TwoTo(f));
    }
  }

  lemma SmallerExponent(x: real, m: int, half: real, y: real, n: int, q: real)
    requires 0.0 < q <= half && 0 < n < SIGNIFICANDS <= 2 * m
    requires x == m as real * (2.0 * half) && y == n as real * q
    ensures (x - y) * SIGNIFICANDS as real >= x
  {
    var s := SIGNIFICANDS as real;
    NonNegative(n as real, half - q);
    assert n as real * (half - q) == n as real * half - y;
    NonNegative(s - 1.0 - n as real, half);
    assert (s - 1.0 - n as real) * half == s * half - half - n as real * half;
    NonNegative(2.0 * m as real - s, half);
    assert (2.0 * m as real - s) * half == x - s * half;
    assert y <= s * half - half && x >= s * half;
  }

  // So exp as computed, over exact reals, is strictly increasing on the binary64
  // numbers: no two of them are close enough to see a step down.
  lemma IncreasingOnBinary64(x: real, y: real)
    requires Binary64(x) && Binary64(y) && x < y
    ensures Value(x) < Value(y)
  {
    hide Value, TwoTo;
    if x < 0.0 && y < 0.0 {
      var m: int, e: int :| HasBits(Abs(x), m, e);
      var n: int, f: int :| HasBits(Abs(y), n, f);
      BitsApart(-x, m, e, -y, n, f);
    }
    IncreasingWhenApart(x, y);
  }
}
