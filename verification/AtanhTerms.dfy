// The odd-power series of the inverse hyperbolic tangent, in exact arithmetic.
module AtanhTerms {
  import opened RealPowers

  // The sum of the first n terms z^(2i+1) / (2i+1).
  function AtanhSum(z: real, n: nat): real {
    if n == 0 then 0.0 else AtanhSum(z, n - 1) + AtanhTerm(z, n - 1)
  }

  function AtanhTerm(z: real, i: nat): real {
    Pow(z, 2 * i + 1) / (2 * i + 1) as real
  }

  lemma {:induction false} TermsShrink(z: real, i: nat)
    requires 0.0 <= z < 1.0
    ensures 0.0 <= Pow(z, 2 * i + 3) == Prod(Sq(z), Pow(z, 2 * i + 1))
    ensures 0.0 <= AtanhTerm(z, i) <= Pow(z, 2 * i + 1)
  {
    PowNonNegative(z, 2 * i + 1);
    PowNonNegative(z, 2 * i + 3);
    OddPowerStep(z, i);
    hide Pow;
    SmallerQuotient(Pow(z, 2 * i + 1), (2 * i + 1) as real, Pow(z, 2 * i + 1), 1.0);
  }

  lemma OddPowerStep(z: real, i: nat)
    ensures Pow(z, 2 * i + 3) == Prod(Sq(z), Pow(z, 2 * i + 1))
  {
    assert Pow(z, 2 * i + 3) == Prod(z, Pow(z, 2 * i + 2));
    assert Pow(z, 2 * i + 2) == Prod(z, Pow(z, 2 * i + 1));
    hide Prod, Pow;
    ProdAlgebra(z, z, Pow(z, 2 * i + 1));
  }

  lemma {:induction false} PowNonNegative(z: real, n: nat)
    requires z >= 0.0
    ensures Pow(z, n) >= 0.0
  {
    if n > 0 {
      PowNonNegative(z, n - 1);
      NonNegative(z, Pow(z, n - 1));
    }
  }

  // What terms m to n-1 add: something, but no more than a geometric tail.
  lemma {:induction false} TailBound(z: real, m: nat, n: nat)
    requires 0.0 <= z < 1.0 && m <= n
    ensures AtanhSum(z, n) >= AtanhSum(z, m)
    ensures Prod(AtanhSum(z, n) - AtanhSum(z, m), 1.0 - Sq(z)) <= Pow(z, 2 * m + 1) - Pow(z, 2 * n + 1)
  {
    if m == n {
      ProdZeroLeft(1.0 - Sq(z));
    } else {
      TailBound(z, m, n - 1);
      TermsShrink(z, n - 1);
      SquareBelowOne(z);
      hide Pow, AtanhTerm;
      TailStep(AtanhSum(z, n - 1) - AtanhSum(z, m), AtanhTerm(z, n - 1), Pow(z, 2 * n - 1), Sq(z));
    }
  }

  lemma ProdZeroLeft(x: real)
    ensures Prod(0.0, x) == 0.0
  {
  }

  lemma SquareBelowOne(z: real)
    requires 0.0 <= z < 1.0
    ensures 0.0 <= Sq(z) <= z
  {
    ProductMonotone(z, z, z, 1.0);
  }

  lemma TailStep(sum: real, term: real, p: real, zz: real)
    requires term <= p && 0.0 <= zz <= 1.0
    ensures Prod(sum + term, 1.0 - zz) <= Prod(sum, 1.0 - zz) + p - Prod(zz, p)
  {
    assert Prod(sum + term, 1.0 - zz) == Prod(sum, 1.0 - zz) + term * (1.0 - zz);
    assert p - Prod(zz, p) == p * (1.0 - zz);
    NonNegative(p - term, 1.0 - zz);
    assert (p - term) * (1.0 - zz) == p * (1.0 - zz) - term * (1.0 - zz);
  }

  lemma FirstTerms(z: real)
    ensures AtanhSum(z, 0) == 0.0 && AtanhSum(z, 1) == z && Pow(z, 1) == z
  {
    ProdAlgebra(z, 1.0, 1.0);
    assert Pow(z, 1) == Prod(z, Pow(z, 0));
    assert AtanhSum(z, 1) == AtanhSum(z, 0) + AtanhTerm(z, 0);
  }

  lemma {:induction false} HigherPower(z: real, m: nat, n: nat)
    requires 0.0 <= z <= 1.0 && m <= n
    ensures 0.0 <= Pow(z, n) <= Pow(z, m)
  {
    hide Prod;
    PowNonNegative(z, n);
    if m < n {
      HigherPower(z, m, n - 1);
      ProductMonotone(z, Pow(z, n - 1), 1.0, Pow(z, n - 1));
      ProdAlgebra(Pow(z, n - 1), 1.0, 1.0);
    }
  }

  lemma PowMonotoneFromZero(x: real, y: real, n: nat)
    requires 0.0 <= x <= y && y > 0.0 && n > 0
    ensures 0.0 <= Pow(x, n) <= Pow(y, n)
  {
    if x > 0.0 {
      PowMonotone(x, y, n);
    } else {
      PowPositive(y, n);
      ProdZeroLeft(Pow(x, n - 1));
    }
  }
}
