// One square root more or less: the series at y = 2z / (1 + z^2) is twice the
// series at z, but for less than a few roundings.
module AtanhDoubling {
  import opened RealPowers
  import opened AtanhSeries
  import opened AtanhTerms
  import opened AtanhError
  import opened Nearness
  import opened Polynomials

  // 315 times the first five terms over z, in z^2.
  const FIVE: seq<int> := [315, 105, 63, 45, 35]

  // What becomes of it at y, cleared of denominators by (1 + z^2)^9 ...
  const CLEARED: seq<int> := [315, 2940, 12348, 30852, 51218, 30852, 12348, 2940, 315]

  // ... and what that lacks of the same multiple of it at z, from z^10 on.
  const LACKING: seq<int> := [29295, 40320, 33768, 21672, 11718, 5232, 1728, 360, 35]

  lemma FiveRaised2()
    ensures Raised(FIVE, 2) == [315, 735, 588, 276, 188, 115, 35]
  {
    assert Raised(FIVE, 0) == [315, 105, 63, 45, 35];
    hide Raised;
    RaisedOnce(FIVE, 0);
    assert Raised(FIVE, 1) == [315, 420, 168, 108, 80, 35];
    RaisedOnce(FIVE, 1);
    assert Raised(FIVE, 2) == [315, 735, 588, 276, 188, 115, 35];
  }

  lemma FiveRaised4()
    ensures Raised(FIVE, 4) == [315, 1365, 2373, 2187, 1328, 767, 453, 185, 35]
  {
    FiveRaised2();
    hide Raised;
    RaisedOnce(FIVE, 2);
    assert Raised(FIVE, 3) == [315, 1050, 1323, 864, 464, 303, 150, 35];
    RaisedOnce(FIVE, 3);
    assert Raised(FIVE, 4) == [315, 1365, 2373, 2187, 1328, 767, 453, 185, 35];
  }

  lemma FiveRaised6()
    ensures Raised(FIVE, 6) == [315, 1995, 5418, 8298, 8075, 5610, 3315, 1858, 858, 255, 35]
  {
    FiveRaised4();
    hide Raised;
    RaisedOnce(FIVE, 4);
    assert Raised(FIVE, 5) == [315, 1680, 3738, 4560, 3515, 2095, 1220, 638, 220, 35];
    RaisedOnce(FIVE, 5);
    assert Raised(FIVE, 6) == [315, 1995, 5418, 8298, 8075, 5610, 3315, 1858, 858, 255, 35];
  }

  lemma FiveRaised7()
    ensures Raised(FIVE, 7) == [315, 2310, 7413, 13716, 16373, 13685, 8925, 5173, 2716, 1113, 290, 35]
  {
    FiveRaised6();
    hide Raised;
    RaisedOnce(FIVE, 6);
    assert Raised(FIVE, 7) == [315, 2310, 7413, 13716, 16373, 13685, 8925, 5173, 2716, 1113, 290, 35];
  }

  lemma FiveRaised8()
    ensures Raised(FIVE, 8) == [315, 2625, 9723, 21129, 30089, 30058, 22610, 14098, 7889, 3829, 1403, 325, 35]
  {
    FiveRaised7();
    hide Raised;
    RaisedOnce(FIVE, 7);
    assert Raised(FIVE, 8) == [315, 2625, 9723, 21129, 30089, 30058, 22610, 14098, 7889, 3829, 1403, 325, 35];
  }

  lemma FiveRaised9()
    ensures Raised(FIVE, 9) == [315, 2940, 12348, 30852, 51218, 60147, 52668, 36708, 21987, 11718, 5232, 1728, 360, 35]
  {
    FiveRaised8();
    hide Raised;
    RaisedOnce(FIVE, 8);
    assert Raised(FIVE, 9) == [315, 2940, 12348, 30852, 51218, 60147, 52668, 36708, 21987, 11718, 5232, 1728, 360, 35];
  }

  lemma OneRaised2()
    ensures Raised([1], 2) == [1, 2, 1]
  {
    assert Raised([1], 0) == [1];
    hide Raised;
    RaisedOnce([1], 0);
    assert Raised([1], 1) == [1, 1];
    RaisedOnce([1], 1);
    assert Raised([1], 2) == [1, 2, 1];
  }

  lemma OneRaised4()
    ensures Raised([1], 4) == [1, 4, 6, 4, 1]
  {
    OneRaised2();
    hide Raised;
    RaisedOnce([1], 2);
    assert Raised([1], 3) == [1, 3, 3, 1];
    RaisedOnce([1], 3);
    assert Raised([1], 4) == [1, 4, 6, 4, 1];
  }

  lemma OneRaised6()
    ensures Raised([1], 6) == [1, 6, 15, 20, 15, 6, 1]
  {
    OneRaised4();
    hide Raised;
    RaisedOnce([1], 4);
    assert Raised([1], 5) == [1, 5, 10, 10, 5, 1];
    RaisedOnce([1], 5);
    assert Raised([1], 6) == [1, 6, 15, 20, 15, 6, 1];
  }

  lemma OneRaised8()
    ensures Raised([1], 8) == [1, 8, 28, 56, 70, 56, 28, 8, 1]
  {
    OneRaised6();
    hide Raised;
    RaisedOnce([1], 6);
    assert Raised([1], 7) == [1, 7, 21, 35, 35, 21, 7, 1];
    RaisedOnce([1], 7);
    assert Raised([1], 8) == [1, 8, 28, 56, 70, 56, 28, 8, 1];
  }

  lemma PowersOfOnePlus(t: real)
    ensures Eval([1, 8, 28, 56, 70, 56, 28, 8, 1], t) == Pow(1.0 + t, 8)
    ensures Eval([1, 6, 15, 20, 15, 6, 1], t) == Pow(1.0 + t, 6)
    ensures Eval([1, 4, 6, 4, 1], t) == Pow(1.0 + t, 4)
    ensures Eval([1, 2, 1], t) == Pow(1.0 + t, 2)
    ensures Eval([1], t) == 1.0
  {
    OneRaised2();
    OneRaised4();
    OneRaised6();
    OneRaised8();
    assert Eval([1], t) == 1.0 by {
      assert [1][1..] == [];
    }
    hide Eval, Raised, Pow;
    forall n: nat ensures Eval(Raised([1], n), t) == Pow(1.0 + t, n) {
      EvalRaised([1], n, t);
      ProdAlgebra(Pow(1.0 + t, n), 1.0, 1.0);
    }
  }

  // CLEARED, part by part.
  lemma ClearedParts(t: real)
    ensures Eval(CLEARED, t) == 315.0 * Pow(1.0 + t, 8) + 420.0 * Prod(Pow(t, 1), Pow(1.0 + t, 6))
                              + 1008.0 * Prod(Pow(t, 2), Pow(1.0 + t, 4)) + 2880.0 * Prod(Pow(t, 3), Pow(1.0 + t, 2))
                              + 8960.0 * Pow(t, 4)
  {
    PowersOfOnePlus(t);
    PartsAdd();
    var p0, p1 := Placed(315, [1, 8, 28, 56, 70, 56, 28, 8, 1], 0), Placed(420, [1, 6, 15, 20, 15, 6, 1], 1);
    var p2, p3 := Placed(1008, [1, 4, 6, 4, 1], 2), Placed(2880, [1, 2, 1], 3);
    var p4 := Placed(8960, [1], 4);
    hide Eval, Pow, Placed, Plus;
    EvalPlus(p0, p1, t);
    EvalPlus(Plus(p0, p1), p2, t);
    EvalPlus(Plus(Plus(p0, p1), p2), p3, t);
    EvalPlus(Plus(Plus(Plus(p0, p1), p2), p3), p4, t);
    PlacedValue(315, [1, 8, 28, 56, 70, 56, 28, 8, 1], 0, t);
    PlacedValue(420, [1, 6, 15, 20, 15, 6, 1], 1, t);
    PlacedValue(1008, [1, 4, 6, 4, 1], 2, t);
    PlacedValue(2880, [1, 2, 1], 3, t);
    PlacedValue(8960, [1], 4, t);
    assert Pow(t, 0) == 1.0 by { NoPower(t); }
    ProdAlgebra(Pow(1.0 + t, 8), 1.0, 1.0);
    ProdAlgebra(Pow(t, 4), 1.0, 1.0);
  }

  lemma NoPower(t: real)
    ensures Pow(t, 0) == 1.0
  {
  }

  function Placed(k: int, c: seq<int>, n: nat): (r: seq<int>)
    ensures |r| == 2 * n + |c|
  {
    Zeros(n) + Multiple(k, c) + Zeros(n)
  }

  lemma PlacedValue(k: int, c: seq<int>, n: nat, t: real)
    ensures Eval(Placed(k, c, n), t) == k as real * Prod(Pow(t, n), Eval(c, t))
  {
    EvalPlaced(k, c, n, n, t);
  }

  lemma PartsAdd()
    ensures Plus(Plus(Plus(Plus(Placed(315, [1, 8, 28, 56, 70, 56, 28, 8, 1], 0),
                                Placed(420, [1, 6, 15, 20, 15, 6, 1], 1)),
                           Placed(1008, [1, 4, 6, 4, 1], 2)), Placed(2880, [1, 2, 1], 3)), Placed(8960, [1], 4))
         == CLEARED
  {
    assert Placed(315, [1, 8, 28, 56, 70, 56, 28, 8, 1], 0) == [315, 2520, 8820, 17640, 22050, 17640, 8820, 2520, 315];
    assert Placed(420, [1, 6, 15, 20, 15, 6, 1], 1) == [0, 420, 2520, 6300, 8400, 6300, 2520, 420, 0];
    assert Placed(1008, [1, 4, 6, 4, 1], 2) == [0, 0, 1008, 4032, 6048, 4032, 1008, 0, 0];
    assert Placed(2880, [1, 2, 1], 3) == [0, 0, 0, 2880, 5760, 2880, 0, 0, 0];
    assert Placed(8960, [1], 4) == [0, 0, 0, 0, 8960, 0, 0, 0, 0];
    hide Placed;
  }

  lemma WholeIsSum()
    ensures Plus(CLEARED + Zeros(5), Zeros(5) + LACKING)
         == [315, 2940, 12348, 30852, 51218, 60147, 52668, 36708, 21987, 11718, 5232, 1728, 360, 35]
  {
  }

  // The first five terms at z, times (1 + t)^9, exceed what they are at y by
  // something from the fifth power of t on.
  lemma FiveSplits(t: real)
    ensures Prod(Pow(1.0 + t, 9), Eval(FIVE, t)) == Eval(CLEARED, t) + Prod(Pow(t, 5), Eval(LACKING, t))
  {
    FiveRaised9();
    WholeIsSum();
    hide Eval, Raised, Plus;
    EvalRaised(FIVE, 9, t);
    EvalPlus(CLEARED + Zeros(5), Zeros(5) + LACKING, t);
    EvalPadded(CLEARED, 5, t);
    EvalShifted(LACKING, 5, t);
  }

  // ----- the series behind the polynomials -----

  lemma {:induction false} OddPowerSplits(z: real, i: nat)
    ensures Pow(z, 2 * i + 1) == Prod(z, Pow(Sq(z), i))
  {
    if i == 0 {
      assert Pow(z, 1) == Prod(z, Pow(z, 0));
    } else {
      OddPowerSplits(z, i - 1);
      OddPowerStep(z, i - 1);
      var p := Pow(Sq(z), i - 1);
      assert Pow(Sq(z), i) == Prod(Sq(z), p);
      hide Pow;
      ProdAlgebra(Sq(z), z, p);
      ProdAlgebra(z, Sq(z), p);
    }
  }

  function FiveOf(a: real, b: real, c: real, d: real, e: real): real {
    a + b / 3.0 + c / 5.0 + d / 7.0 + e / 9.0
  }

  lemma FiveTerms(z: real)
    ensures AtanhSum(z, 5) == FiveOf(Pow(z, 1), Pow(z, 3), Pow(z, 5), Pow(z, 7), Pow(z, 9))
  {
    hide Pow;
    assert AtanhSum(z, 5) == AtanhSum(z, 4) + AtanhTerm(z, 4);
    assert AtanhSum(z, 4) == AtanhSum(z, 3) + AtanhTerm(z, 3);
    assert AtanhSum(z, 3) == AtanhSum(z, 2) + AtanhTerm(z, 2);
    assert AtanhSum(z, 2) == AtanhSum(z, 1) + AtanhTerm(z, 1);
    assert AtanhSum(z, 1) == AtanhSum(z, 0) + AtanhTerm(z, 0);
    assert AtanhTerm(z, 0) == Pow(z, 1);
  }

  lemma EvalFive(t: real)
    ensures Eval(FIVE, t) == 315.0 + 105.0 * Pow(t, 1) + 63.0 * Pow(t, 2) + 45.0 * Pow(t, 3) + 35.0 * Pow(t, 4)
  {
    assert FIVE == Plus(Plus(Plus(Plus([315, 0, 0, 0, 0], [0, 105, 0, 0, 0]), [0, 0, 63, 0, 0]), [0, 0, 0, 45, 0]),
                        [0, 0, 0, 0, 35]);
    var p0, p1, p2 := [315, 0, 0, 0, 0], [0, 105, 0, 0, 0], [0, 0, 63, 0, 0];
    var p3, p4 := [0, 0, 0, 45, 0], [0, 0, 0, 0, 35];
    hide Eval, Pow, Plus;
    EvalPlus(p0, p1, t);
    EvalPlus(Plus(p0, p1), p2, t);
    EvalPlus(Plus(Plus(p0, p1), p2), p3, t);
    EvalPlus(Plus(Plus(Plus(p0, p1), p2), p3), p4, t);
    Monomial(315, 0, 4, t);
    Monomial(105, 1, 3, t);
    Monomial(63, 2, 2, t);
    Monomial(45, 3, 1, t);
    Monomial(35, 4, 0, t);
    Spelled();
    assert Pow(t, 0) == 1.0 by { NoPower(t); }
  }

  lemma Spelled()
    ensures Zeros(0) + Multiple(315, [1]) + Zeros(4) == [315, 0, 0, 0, 0]
    ensures Zeros(1) + Multiple(105, [1]) + Zeros(3) == [0, 105, 0, 0, 0]
    ensures Zeros(2) + Multiple(63, [1]) + Zeros(2) == [0, 0, 63, 0, 0]
    ensures Zeros(3) + Multiple(45, [1]) + Zeros(1) == [0, 0, 0, 45, 0]
    ensures Zeros(4) + Multiple(35, [1]) + Zeros(0) == [0, 0, 0, 0, 35]
  {
  }

  lemma Monomial(k: int, n: nat, pad: nat, t: real)
    ensures Eval(Zeros(n) + Multiple(k, [1]) + Zeros(pad), t) == k as real * Pow(t, n)
  {
    assert Eval([1], t) == 1.0 by {
      assert [1][1..] == [];
    }
    hide Eval, Pow;
    EvalPlaced(k, [1], n, pad, t);
    ProdAlgebra(Pow(t, n), 1.0, 1.0);
  }

  lemma FiveAtZ(z: real)
    ensures 315.0 * AtanhSum(z, 5) == Prod(z, Eval(FIVE, Sq(z)))
  {
    var t := Sq(z);
    hide Eval, Pow, AtanhSum, Sq;
    FiveTerms(z);
    EvalFive(t);
    OddPowerSplits(z, 0);
    OddPowerSplits(z, 1);
    OddPowerSplits(z, 2);
    OddPowerSplits(z, 3);
    OddPowerSplits(z, 4);
    assert Pow(t, 0) == 1.0 by { NoPower(t); }
    FiveProducts(z, 315.0, 105.0 * Pow(t, 1), 63.0 * Pow(t, 2), 45.0 * Pow(t, 3), 35.0 * Pow(t, 4));
    TimesConstant(z, 1.0, 315.0);
    TimesConstant(z, Pow(t, 1), 105.0);
    TimesConstant(z, Pow(t, 2), 63.0);
    TimesConstant(z, Pow(t, 3), 45.0);
    TimesConstant(z, Pow(t, 4), 35.0);
    hide Prod;
  }

  lemma FiveProducts(x: real, a: real, b: real, c: real, d: real, e: real)
    ensures Prod(x, a + b + c + d + e) == Prod(x, a) + Prod(x, b) + Prod(x, c) + Prod(x, d) + Prod(x, e)
  {
    SumTimes(x, a + b + c + d, e);
    SumTimes(x, a + b + c, d);
    SumTimes(x, a + b, c);
    SumTimes(x, a, b);
    hide Prod;
  }

  lemma TimesConstant(x: real, y: real, k: real)
    ensures Prod(x, k * y) == k * Prod(x, y)
  {
  }

  // A term at y, cleared of its denominators.
  lemma ClearedTerm(y: real, z: real, m: real, i: nat)
    requires i <= 4 && Prod(y, m) == 2.0 * z
    ensures Prod(Pow(y, 2 * i + 1), Pow(m, 9)) == Prod(2.0 * z, Prod(Pow(4.0 * Sq(z), i), Pow(m, 8 - 2 * i)))
  {
    var j, k := 2 * i + 1, 8 - 2 * i;
    assert Sq(2.0 * z) == 4.0 * Sq(z);
    hide Pow, Prod, Sq;
    PowAdd(m, j, k);
    PowProduct(y, m, j);
    OddPowerSplits(2.0 * z, i);
    ProdAlgebra(Pow(y, j), Pow(m, j), Pow(m, k));
    ProdAlgebra(2.0 * z, Pow(4.0 * Sq(z), i), Pow(m, k));
  }

  lemma FourTimes(t: real)
    ensures Pow(4.0 * t, 0) == 1.0 && Pow(4.0 * t, 1) == 4.0 * Pow(t, 1) && Pow(4.0 * t, 2) == 16.0 * Pow(t, 2)
    ensures Pow(4.0 * t, 3) == 64.0 * Pow(t, 3) && Pow(4.0 * t, 4) == 256.0 * Pow(t, 4)
  {
    assert Prod(4.0, t) == 4.0 * t;
    assert Pow(4.0, 1) == 4.0 && Pow(4.0, 2) == 16.0;
    assert Pow(4.0, 3) == Prod(4.0, Pow(4.0, 2)) && Pow(4.0, 4) == Prod(4.0, Pow(4.0, 3));
    assert Pow(4.0, 0) == 1.0 && Pow(4.0 * t, 0) == 1.0;
    hide Pow;
    PowProduct(4.0, t, 1);
    PowProduct(4.0, t, 2);
    PowProduct(4.0, t, 3);
    PowProduct(4.0, t, 4);
  }

  lemma FiveAtY(y: real, z: real, m: real)
    requires m == 1.0 + Sq(z) && Prod(y, m) == 2.0 * z
    ensures Prod(315.0 * AtanhSum(y, 5), Pow(m, 9)) == Prod(2.0 * z, Eval(CLEARED, Sq(z)))
  {
    var t, x, m9 := Sq(z), 2.0 * z, Pow(m, 9);
    hide Eval, Pow, AtanhSum, Sq;
    FiveTerms(y);
    ClearedParts(t);
    FourTimes(t);
    ClearedTerm(y, z, m, 0);
    ClearedTerm(y, z, m, 1);
    ClearedTerm(y, z, m, 2);
    ClearedTerm(y, z, m, 3);
    ClearedTerm(y, z, m, 4);
    assert Pow(m, 0) == 1.0 by { NoPower(m); }
    var q0, q1, q2, q3, q4 := Pow(m, 8), Prod(Pow(t, 1), Pow(m, 6)), Prod(Pow(t, 2), Pow(m, 4)), Prod(Pow(t, 3), Pow(m, 2)),
      Pow(t, 4);
    FourOut(4.0, Pow(t, 1), Pow(m, 6));
    FourOut(16.0, Pow(t, 2), Pow(m, 4));
    FourOut(64.0, Pow(t, 3), Pow(m, 2));
    FourOut(256.0, Pow(t, 4), 1.0);
    FourOut(1.0, 1.0, q0);
    ProdAlgebra(q0, 1.0, 1.0);
    ProdAlgebra(q4, 1.0, 1.0);
    FiveProducts(m9, 315.0 * Pow(y, 1), 105.0 * Pow(y, 3), 63.0 * Pow(y, 5), 45.0 * Pow(y, 7), 35.0 * Pow(y, 9));
    FiveProducts(x, 315.0 * q0, 420.0 * q1, 1008.0 * q2, 2880.0 * q3, 8960.0 * q4);
    FiveMultiples(m9, Pow(y, 1), Pow(y, 3), Pow(y, 5), Pow(y, 7), Pow(y, 9));
    ClearedMultiples(x, q0, q1, q2, q3, q4);
    hide Prod;
  }

  lemma FourOut(k: real, a: real, b: real)
    ensures Prod(k * a, b) == k * Prod(a, b)
  {
  }

  lemma FiveMultiples(x: real, a: real, b: real, c: real, d: real, e: real)
    ensures Prod(x, 315.0 * a) == 315.0 * Prod(a, x) && Prod(x, 105.0 * b) == 105.0 * Prod(b, x)
    ensures Prod(x, 63.0 * c) == 63.0 * Prod(c, x) && Prod(x, 45.0 * d) == 45.0 * Prod(d, x)
    ensures Prod(x, 35.0 * e) == 35.0 * Prod(e, x)
    ensures Prod(315.0 * FiveOf(a, b, c, d, e), x) == Prod(x, 315.0 * a + 105.0 * b + 63.0 * c + 45.0 * d + 35.0 * e)
  {
    assert 315.0 * FiveOf(a, b, c, d, e) == 315.0 * a + 105.0 * b + 63.0 * c + 45.0 * d + 35.0 * e;
    ProdAlgebra(315.0 * FiveOf(a, b, c, d, e), x, 1.0);
    TimesConstant(x, a, 315.0);
    TimesConstant(x, b, 105.0);
    TimesConstant(x, c, 63.0);
    TimesConstant(x, d, 45.0);
    TimesConstant(x, e, 35.0);
    ProdAlgebra(x, a, 1.0);
    ProdAlgebra(x, b, 1.0);
    ProdAlgebra(x, c, 1.0);
    ProdAlgebra(x, d, 1.0);
    ProdAlgebra(x, e, 1.0);
    hide Prod;
  }

  lemma ClearedMultiples(x: real, a: real, b: real, c: real, d: real, e: real)
    ensures Prod(x, 315.0 * a) == 315.0 * Prod(x, a)
    ensures Prod(x, 420.0 * b) == 105.0 * Prod(x, 4.0 * b) && Prod(x, 1008.0 * c) == 63.0 * Prod(x, 16.0 * c)
    ensures Prod(x, 2880.0 * d) == 45.0 * Prod(x, 64.0 * d) && Prod(x, 8960.0 * e) == 35.0 * Prod(x, 256.0 * e)
  {
  }

  // ----- nearness -----

  lemma NineAddends(a: real, t: real)
    requires 0.0 <= a && 0.0 <= t <= 9.0 * Prod(UNIT, a)
    ensures Near(a, a + t, 9)
  {
    var third := t / 3.0;
    SumTimes(UNIT, a, third);
    SumTimes(UNIT, a, 2.0 * third);
    NonNegative(UNIT, third);
    NonNegative(UNIT, 2.0 * third);
    hide Prod, Near;
    ThreeAddends(a, third);
    ThreeAddends(a + third, third);
    ThreeAddends(a + 2.0 * third, third);
    NearTrans(a, a + third, a + third + third, 3, 3);
    NearTrans(a, a + 2.0 * third, a + 2.0 * third + third, 6, 3);
  }

  lemma FifthPowers()
    ensures Pow(0.00097, 5) <= 8.0 * UNIT && Pow(0.0002404, 5) <= 0.00000000000000000081
  {
    FifthIs(0.00097);
    FifthIs(0.0002404);
    hide Pow;
  }

  lemma FifthIs(x: real)
    ensures Pow(x, 5) == x * (x * (x * (x * x)))
  {
    assert Pow(x, 1) == Prod(x, Pow(x, 0)) == x;
    assert Pow(x, 2) == Prod(x, Pow(x, 1)) && Pow(x, 3) == Prod(x, Pow(x, 2));
    assert Pow(x, 4) == Prod(x, Pow(x, 3)) && Pow(x, 5) == Prod(x, Pow(x, 4));
    hide Pow;
  }

  // For small arguments five terms say it all.
  lemma FiveAreEnough(y: real, n: nat)
    requires 0.0 <= y <= 0.0311 && n >= 5
    ensures Near(AtanhSum(y, 5), AtanhSum(y, n), 9)
  {
    hide AtanhSum, Pow, Sq, Prod, Near;
    var a, b, p := AtanhSum(y, 5), AtanhSum(y, n), Pow(y, 11);
    TailBound(y, 5, n);
    PowNonNegative(y, 2 * n + 1);
    OddPowerSplits(y, 5);
    SmallSquare(y, 0.0311, 0.00097);
    FifthPowers();
    PowMonotoneFromZero(Sq(y), 0.00097, 5);
    SumAtLeastFirst(y, 5);
    ProductMonotone(y, Pow(Sq(y), 5), y, 8.0 * UNIT);
    TailOfFive(b - a, y, a, Sq(y), p);
    NineAddends(a, b - a);
    assert a + (b - a) == b;
  }

  lemma SmallSquare(x: real, bound: real, square: real)
    requires 0.0 <= x <= bound && bound * bound <= square
    ensures 0.0 <= Sq(x) <= square
  {
    ProductMonotone(x, x, bound, bound);
  }

  lemma TailOfFive(d: real, y: real, a: real, square: real, p: real)
    requires d >= 0.0 && 0.0 <= square <= 0.01 && 0.0 <= y <= a
    requires Prod(d, 1.0 - square) <= p <= Prod(y, 8.0 * UNIT)
    ensures d <= 9.0 * Prod(UNIT, a)
  {
    ProductMonotone(d, 0.99, d, 1.0 - square);
    assert Prod(d, 0.99) == 0.99 * d && Prod(y, 8.0 * UNIT) == 8.0 * UNIT * y && Prod(UNIT, a) == UNIT * a;
  }

  // What the first five terms at y lack of twice those at z.
  lemma FiveAreNear(y: real, z: real)
    requires 0.0 <= z <= 0.0155 && 0.0 <= y && Prod(y, 1.0 + Sq(z)) == 2.0 * z
    ensures Near(AtanhSum(y, 5), 2.0 * AtanhSum(z, 5), 3) && y <= 0.0311
  {
    hide AtanhSum, Eval, Pow, Sq, Prod, Near;
    var t := Sq(z);
    var m := 1.0 + t;
    var a, b, lack := AtanhSum(y, 5), 2.0 * AtanhSum(z, 5), Prod(Pow(t, 5), Eval(LACKING, t));
    FiveAtZ(z);
    FiveAtY(y, z, m);
    FiveSplits(t);
    SmallSquare(z, 0.0155, 0.0002404);
    EvalBounds(LACKING, t, 40320);
    FifthPowers();
    PowMonotoneFromZero(t, 0.0002404, 5);
    ProductMonotone(Pow(t, 5), Eval(LACKING, t), 0.00000000000000000081, 80640.0);
    assert lack <= 600.0 * UNIT by { LackBound(); }
    PowGrowsFromOne(m, 9);
    YBounds(y, z, t);
    FivesDiffer(a, b, y, z, Pow(m, 9), Eval(CLEARED, t), Eval(FIVE, t), lack);
    SumAtLeastY(y);
    ProductMonotone(UNIT, y, UNIT, a);
    ThreeAddends(a, b - a);
    assert a + (b - a) == b;
  }

  lemma LackBound()
    ensures Prod(0.00000000000000000081, 80640.0) <= 600.0 * UNIT
  {
  }

  lemma SumAtLeastY(y: real)
    requires 0.0 <= y <= 0.0311
    ensures AtanhSum(y, 5) >= y
  {
    SumAtLeastFirst(y, 5);
  }

  lemma {:induction false} PowGrowsFromOne(m: real, n: nat)
    requires m >= 1.0
    ensures Pow(m, n) >= 1.0
  {
    if n > 0 {
      PowGrowsFromOne(m, n - 1);
      ProductMonotone(1.0, Pow(m, n - 1), m, Pow(m, n - 1));
    }
  }

  lemma YBounds(y: real, z: real, t: real)
    requires 0.0 <= y && 0.0 <= z <= 0.0155 && 0.0 <= t <= 0.001 && Prod(y, 1.0 + t) == 2.0 * z
    ensures y <= 2.0 * z <= 1.001 * y
  {
    ProductMonotone(y, 1.0 + t, y, 1.001);
    NonNegative(y, t);
    assert Prod(y, 1.0 + t) == y + y * t && Prod(y, 1.001) == 1.001 * y;
  }

  lemma FivesDiffer(a: real, b: real, y: real, z: real, m9: real, cleared: real, five: real, lack: real)
    requires Prod(315.0 * a, m9) == Prod(2.0 * z, cleared) && 315.0 * (b / 2.0) == Prod(z, five)
    requires Prod(m9, five) == cleared + lack && 0.0 <= lack <= 600.0 * UNIT
    requires m9 >= 1.0 && 0.0 <= z && 2.0 * z <= 1.001 * y
    ensures 0.0 <= b - a <= 3.0 * Prod(UNIT, y)
  {
    var d := 315.0 * (b - a);
    assert 315.0 * b == Prod(2.0 * z, five);
    ProdAlgebra(2.0 * z, five, m9);
    ProdAlgebra(five, m9, 1.0);
    SumTimes(2.0 * z, cleared, lack);
    assert Prod(d, m9) == Prod(315.0 * b, m9) - Prod(315.0 * a, m9);
    assert Prod(d, m9) == Prod(2.0 * z, lack);
    ProductMonotone(2.0 * z, lack, 1.001 * y, 600.0 * UNIT);
    assert Prod(1.001 * y, 600.0 * UNIT) == 600.6 * UNIT * y && Prod(UNIT, y) == UNIT * y;
    GrownBy(d, m9);
  }

  lemma GrownBy(d: real, m: real)
    requires m >= 1.0
    ensures Prod(d, m) >= 0.0 ==> 0.0 <= d <= Prod(d, m)
  {
    if d >= 0.0 {
      ProductMonotone(d, 1.0, d, m);
      ProdAlgebra(d, 1.0, 1.0);
    } else {
      ProdPositive(-d, m);
    }
  }

  // One root more changes the value by no more than a few roundings.
  lemma DoubleIsNear(y: real, z: real, n: nat)
    requires 0.0 <= z <= 0.0155 && 0.0 <= y && Prod(y, 1.0 + Sq(z)) == 2.0 * z && n >= 5
    ensures Near(AtanhSum(y, n), 2.0 * AtanhSum(z, n), 21)
  {
    hide AtanhSum, Sq, Near;
    FiveAreNear(y, z);
    FiveAreEnough(y, n);
    FiveAreEnough(z, n);
    NearSwap(AtanhSum(y, 5), AtanhSum(y, n), 9);
    NearScaled(AtanhSum(z, 5), AtanhSum(z, n), 2.0, 9);
    assert Prod(2.0, AtanhSum(z, 5)) == 2.0 * AtanhSum(z, 5) && Prod(2.0, AtanhSum(z, n)) == 2.0 * AtanhSum(z, n);
    hide Prod;
    NearTrans(AtanhSum(y, n), AtanhSum(y, 5), 2.0 * AtanhSum(z, 5), 9, 3);
    NearTrans(AtanhSum(y, n), 2.0 * AtanhSum(z, 5), 2.0 * AtanhSum(z, n), 12, 9);
  }
}
