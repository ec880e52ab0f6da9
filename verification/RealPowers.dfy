// Powers of reals, and how far a power of a number close to one can drift.
// Shared by the kernels of deterministic_math.rs.
module RealPowers {

  function Abs(x: real): real {
    if x < 0.0 then -x else x
  }

  // Products under a name: the solver treats a square it sees through as a
  // sign condition and loses its value.
  function Prod(x: real, y: real): real {
    x * y
  }

  function Sq(x: real): real {
    Prod(x, x)
  }

  function Pow(x: real, n: nat): real {
    if n == 0 then 1.0 else Prod(x, Pow(x, n - 1))
  }

  // 2^k as a natural number.
  function Exp2(k: nat): (n: nat)
    ensures n >= 1
  {
    if k == 0 then 1 else 2 * Exp2(k - 1)
  }

  lemma {:induction false} Exp2Monotone(j: nat, k: nat)
    requires j <= k
    ensures Exp2(j) <= Exp2(k)
  {
    if j < k {
      Exp2Monotone(j, k - 1);
    }
  }

  lemma {:induction false} Exp2Add(m: nat, n: nat)
    ensures Exp2(m + n) == Exp2(m) * Exp2(n)
  {
    if m > 0 {
      Exp2Add(m - 1, n);
      assert Exp2(m + n) == 2 * Exp2(m - 1 + n);
    }
  }

  lemma ProdAlgebra(x: real, y: real, z: real)
    ensures Prod(1.0, x) == x == Prod(x, 1.0)
    ensures Prod(x, y) == Prod(y, x)
    ensures Prod(Prod(x, y), z) == Prod(x, Prod(y, z))
  {
  }

  lemma {:induction false} PowAdd(x: real, m: nat, n: nat)
    ensures Pow(x, m + n) == Prod(Pow(x, m), Pow(x, n))
  {
    hide Prod;
    if m == 0 {
      ProdAlgebra(Pow(x, n), 1.0, 1.0);
    } else {
      PowAdd(x, m - 1, n);
      ProdAlgebra(x, Pow(x, m - 1), Pow(x, n));
    }
  }

  // Squaring once doubles the exponent.
  lemma PowDouble(x: real, k: nat)
    ensures Pow(x, Exp2(k + 1)) == Sq(Pow(x, Exp2(k)))
  {
    hide Prod, Pow;
    PowAdd(x, Exp2(k), Exp2(k));
  }

  lemma {:induction false} PowProduct(x: real, y: real, n: nat)
    ensures Pow(Prod(x, y), n) == Prod(Pow(x, n), Pow(y, n))
  {
    hide Prod;
    if n == 0 {
      ProdAlgebra(1.0, 1.0, 1.0);
    } else {
      PowProduct(x, y, n - 1);
      ProdInterchange(x, y, Pow(x, n - 1), Pow(y, n - 1));
    }
  }

  lemma ProdInterchange(x: real, y: real, p: real, q: real)
    ensures Prod(Prod(x, y), Prod(p, q)) == Prod(Prod(x, p), Prod(y, q))
  {
  }

  lemma PowOfSquare(a: real, k: nat)
    ensures Pow(a, Exp2(k + 1)) == Pow(Sq(a), Exp2(k))
  {
    hide Prod, Pow;
    PowDouble(a, k);
    PowProduct(a, a, Exp2(k));
  }

  lemma {:induction false} PowPositive(x: real, n: nat)
    requires x > 0.0
    ensures Pow(x, n) > 0.0
  {
    if n > 0 {
      PowPositive(x, n - 1);
      ProdPositive(x, Pow(x, n - 1));
    }
  }

  lemma {:induction false} PowMonotone(x: real, y: real, n: nat)
    requires 0.0 < x <= y
    ensures 0.0 < Pow(x, n) <= Pow(y, n)
    ensures x < y && n > 0 ==> Pow(x, n) < Pow(y, n)
  {
    if n > 0 {
      hide Prod;
      PowMonotone(x, y, n - 1);
      ProdMonotone(x, y, Pow(x, n - 1), Pow(y, n - 1));
    }
  }

  lemma ProdMonotone(x: real, y: real, p: real, q: real)
    requires 0.0 < x <= y && 0.0 < p <= q
    ensures 0.0 < Prod(x, p) <= Prod(y, q)
    ensures x < y || p < q ==> Prod(x, p) < Prod(y, q)
  {
    MulMonotone(x, y, p, q);
  }

  lemma MulMonotone(x: real, y: real, p: real, q: real)
    requires 0.0 < x <= y && 0.0 < p <= q
    ensures 0.0 < x * p <= y * q
    ensures x < y || p < q ==> x * p < y * q
  {
    hide Prod;
    NonNegative(y - x, q);
    NonNegative(x, q - p);
    ProdPositive(x, p);
    if x < y {
      ProdPositive(y - x, q);
    }
    if p < q {
      ProdPositive(x, q - p);
    }
    Decrease(x, y, p, q);
  }

  lemma Decrease(x: real, y: real, p: real, q: real)
    ensures x * p == Prod(x, p) && y * q == Prod(y, q)
    ensures Prod(y, q) == Prod(y - x, q) + Prod(x, q - p) + Prod(x, p)
  {
  }

  lemma AbsProduct(e: real, f: real)
    ensures Abs(e * f) == Abs(e) * Abs(f)
  {
  }

  lemma NonNegative(a: real, b: real)
    requires a >= 0.0 && b >= 0.0
    ensures a * b >= 0.0 && Prod(a, b) >= 0.0
  {
  }

  lemma ProductMonotone(p: real, q: real, x: real, y: real)
    requires 0.0 <= p <= x && 0.0 <= q <= y
    ensures 0.0 <= p * q <= x * y
    ensures 0.0 <= Prod(p, q) <= Prod(x, y)
  {
    NonNegative(p, q);
    NonNegative(x - p, q);
    NonNegative(x, y - q);
    assert x * y == p * q + (x - p) * q + x * (y - q);
  }

  lemma ProductBound(e: real, f: real, x: real, y: real)
    requires Abs(e) <= x && Abs(f) <= y
    ensures Abs(e * f) <= x * y
  {
    AbsProduct(e, f);
    ProductMonotone(Abs(e), Abs(f), x, y);
  }

  // A square root: all the kernels use of the correctly rounded operation.
  ghost predicate IsSqrt(sqrt: real -> real) {
    forall x: real :: x >= 0.0 ==> sqrt(x) >= 0.0 && Sq(sqrt(x)) == x
  }

  // Small steps of real algebra, each on its own so that proofs stay cheap.
  lemma DivideMultiply(x: real, m: real)
    requires m != 0.0
    ensures (x / m) * m == x
  {
  }

  lemma Cancel(x: real, y: real, m: real)
    requires m != 0.0 && x * m == y * m
    ensures x == y
  {
    DivideMultiply(x, m);
    assert (x - y) * m == 0.0;
  }

  lemma Distribute(a: real, b: real, m: real)
    ensures (a + b) * m == a * m + b * m
    ensures (a - b) * m == a * m - b * m
  {
  }

  lemma SquareOfQuotient(x: real, m: real)
    requires m != 0.0
    ensures Sq(x) == Sq(x / m) * Sq(m)
  {
    var a := x / m;
    DivideMultiply(x, m);
    assert (a * m) * (a * m) == (a * a) * (m * m);
  }

  lemma SmallerQuotient(x: real, m: real, y: real, n: real)
    requires 0.0 <= x <= y && 0.0 < n <= m
    ensures 0.0 <= x / m <= y / n
    ensures n == 1.0 ==> y / n == y
  {
    NonNegativeQuotient(x, m);
    NonNegativeQuotient(y, n);
    var a, b := x / m, y / n;
    DivideMultiply(x, m);
    DivideMultiply(y, n);
    assert a * m - b * n == Prod(a - b, m) + b * (m - n);
    NonNegative(b, m - n);
    if a > b {
      ProdPositive(a - b, m);
    }
  }

  lemma NonNegativeQuotient(x: real, n: real)
    requires n > 0.0 && x >= 0.0
    ensures x / n >= 0.0
  {
  }

  lemma ProdPositive(a: real, b: real)
    requires a > 0.0 && b > 0.0
    ensures Prod(a, b) > 0.0
  {
  }

  lemma SquarePositive(m: real)
    requires m > 0.0
    ensures Sq(m) > 0.0
  {
    ProdPositive(m, m);
  }

  lemma QuotientOf(x: real, q: real, n: real)
    requires n != 0.0 && x == q * n
    ensures x / n == q
  {
  }

  lemma SquareRootUnique(r: real, n: real)
    requires r >= 0.0 && n > 0.0 && Sq(r) == Sq(n)
    ensures r == n
  {
    if r < n {
      MulMonotone(if r > 0.0 then r else n, n, if r > 0.0 then r else n, n);
    } else if n < r {
      MulMonotone(n, r, n, r);
    }
  }

  // A number within d of one has an n-th power within 2*n*d of one, as long
  // as that is at most one.
  lemma {:induction false} PowNearOne(a: real, d: real, n: nat)
    requires Abs(a - 1.0) <= d && 2.0 * Prod(n as real, d) <= 1.0
    ensures Abs(Pow(a, n) - 1.0) <= 2.0 * Prod(n as real, d)
  {
    if n == 0 {
      assert Prod(0.0, d) == 0.0;
    } else {
      var bound := 2.0 * Prod((n - 1) as real, d);
      assert Prod(n as real, d) == Prod((n - 1) as real, d) + d by {
        assert n as real == (n - 1) as real + 1.0;
      }
      hide Prod;
      assert d >= 0.0;
      PowNearOne(a, d, n - 1);
      ProductNearOne(a, Pow(a, n - 1), d, bound);
    }
  }

  lemma ProductNearOne(a: real, p: real, d: real, bound: real)
    requires Abs(a - 1.0) <= d && Abs(p - 1.0) <= bound <= 1.0
    ensures Abs(Prod(a, p) - 1.0) <= bound + 2.0 * d
  {
    var e, f := p - 1.0, a - 1.0;
    var g := e * f;
    assert a * p == (1.0 + f) * (1.0 + e) == 1.0 + e + f + g;
    assert Abs(g) <= d by { ProductBound(e, f, 1.0, d); }
  }

  // The argument of every kernel is halved until it is at most this limit
  // (COS_SIN_REDUCED_LIMIT and EXP_REDUCED_LIMIT).
  const REDUCED_LIMIT := 0.0625

  // How often a magnitude has to be halved to reach the limit.
  function Halvings(x: real): (k: nat)
    requires x >= 0.0
    decreases (16.0 * x).Floor
  {
    if x <= REDUCED_LIMIT then 0 else
    1 + Halvings(x * 0.5)
  }

  // The argument after k halvings.
  function Scaled(x: real, k: nat): real {
    if k == 0 then x else Scaled(x, k - 1) * 0.5
  }

  lemma ScaledZero(x: real)
    ensures Scaled(x, 0) == x
  {
  }

  lemma {:induction false} ScaledStep(x: real, k: nat)
    ensures Scaled(x, k + 1) == Scaled(x, k) * 0.5 == Scaled(x * 0.5, k)
  {
    if k > 0 {
      ScaledStep(x, k - 1);
    }
  }

  // Halving reaches the limit, stops at the first magnitude that meets it,
  // and takes at most j steps for magnitudes up to 2^j limits.
  lemma {:induction false} HalvingsExact(x: real, j: nat)
    requires 0.0 <= x <= Exp2(j) as real * REDUCED_LIMIT
    ensures Halvings(x) <= j
    ensures 0.0 <= Scaled(x, Halvings(x)) <= REDUCED_LIMIT
    ensures Halvings(x) > 0 ==> Scaled(x, Halvings(x)) > REDUCED_LIMIT * 0.5
    decreases j
  {
    if x > REDUCED_LIMIT {
      assert j > 0;
      HalvingsExact(x * 0.5, j - 1);
      ScaledStep(x, Halvings(x * 0.5));
      if Halvings(x * 0.5) == 0 {
        assert Scaled(x * 0.5, 0) == x * 0.5;
      }
    } else {
      assert Scaled(x, 0) == x;
    }
  }

  // The halving loop of cos_sin and exp. Its cap never stops it early.
  method Halve(x: real, cap: nat) returns (reduced: real, halvings: nat)
    requires Abs(x) <= Exp2(cap) as real * REDUCED_LIMIT
    ensures halvings == Halvings(Abs(x)) <= cap
    ensures reduced == Scaled(x, halvings)
    ensures Abs(reduced) <= REDUCED_LIMIT
  {
    reduced := x;
    halvings := 0;
    HalvingsExact(Abs(x), cap);
    ScaledZero(x);
    while Abs(reduced) > REDUCED_LIMIT && halvings < cap
      invariant halvings + Halvings(Abs(reduced)) == Halvings(Abs(x)) <= cap
      invariant reduced == Scaled(x, halvings)
      decreases cap - halvings
    {
      ScaledStep(x, halvings);
      reduced := reduced * 0.5;
      halvings := halvings + 1;
    }
  }

  // Larger magnitudes are halved at least as often.
  lemma {:induction false} HalvingsMonotone(x: real, y: real)
    requires 0.0 <= x <= y
    ensures Halvings(x) <= Halvings(y)
    decreases (16.0 * y).Floor
  {
    if x > REDUCED_LIMIT {
      HalvingsMonotone(x * 0.5, y * 0.5);
    }
  }
}
