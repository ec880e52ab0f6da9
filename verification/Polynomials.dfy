// Polynomials with whole coefficients, lowest first, evaluated at a real.
module Polynomials {
  import opened RealPowers

  function Eval(c: seq<int>, t: real): real {
    if c == [] then 0.0 else c[0] as real + Prod(t, Eval(c[1..], t))
  }

  function Plus(a: seq<int>, b: seq<int>): (r: seq<int>)
    requires |a| == |b|
    ensures |r| == |a|
  {
    seq(|a|, i requires 0 <= i < |a| => a[i] + b[i])
  }

  function TimesOnePlus(c: seq<int>): seq<int> {
    Plus(c + [0], [0] + c)
  }

  function Multiple(k: int, c: seq<int>): (r: seq<int>)
    ensures |r| == |c|
  {
    seq(|c|, i requires 0 <= i < |c| => k * c[i])
  }

  lemma {:induction false} EvalPlus(a: seq<int>, b: seq<int>, t: real)
    requires |a| == |b|
    ensures Eval(Plus(a, b), t) == Eval(a, t) + Eval(b, t)
    decreases |a|
  {
    if a != [] {
      assert Plus(a, b)[1..] == Plus(a[1..], b[1..]);
      EvalPlus(a[1..], b[1..], t);
      SumTimes(t, Eval(a[1..], t), Eval(b[1..], t));
    }
  }

  lemma SumTimes(t: real, x: real, y: real)
    ensures Prod(t, x + y) == Prod(t, x) + Prod(t, y)
  {
  }

  lemma EvalShift(c: seq<int>, t: real)
    ensures Eval([0] + c, t) == Prod(t, Eval(c, t))
  {
    assert ([0] + c)[1..] == c;
  }

  lemma {:induction false} EvalPad(c: seq<int>, t: real)
    ensures Eval(c + [0], t) == Eval(c, t)
  {
    if c == [] {
      assert (c + [0])[1..] == [];
      assert Prod(t, 0.0) == 0.0;
    } else {
      assert (c + [0])[1..] == c[1..] + [0];
      EvalPad(c[1..], t);
    }
  }

  lemma EvalTimesOnePlus(c: seq<int>, t: real)
    ensures Eval(TimesOnePlus(c), t) == Prod(1.0 + t, Eval(c, t))
  {
    EvalPlus(c + [0], [0] + c, t);
    EvalShift(c, t);
    EvalPad(c, t);
    hide Eval;
    assert Prod(1.0 + t, Eval(c, t)) == Eval(c, t) + Prod(t, Eval(c, t));
  }

  lemma {:induction false} EvalScaled(k: int, c: seq<int>, t: real)
    ensures Eval(Multiple(k, c), t) == Prod(k as real, Eval(c, t))
  {
    if c == [] {
      assert Prod(k as real, 0.0) == 0.0;
    } else {
      assert Multiple(k, c)[1..] == Multiple(k, c[1..]);
      EvalScaled(k, c[1..], t);
      ScaledTerm(k, c[0], t, Eval(c[1..], t));
    }
  }

  lemma ScaledTerm(k: int, a: int, t: real, e: real)
    ensures (k * a) as real + Prod(t, Prod(k as real, e)) == Prod(k as real, a as real + Prod(t, e))
  {
    assert (k * a) as real == k as real * a as real;
  }

  // Coefficients from nothing to a bound give values from nothing to twice it.
  lemma {:induction false} EvalBounds(c: seq<int>, t: real, bound: int)
    requires 0.0 <= t <= 0.5 && bound >= 0 && forall i :: 0 <= i < |c| ==> 0 <= c[i] <= bound
    ensures 0.0 <= Eval(c, t) <= 2.0 * bound as real
  {
    if c != [] {
      EvalBounds(c[1..], t, bound);
      ProductMonotone(t, Eval(c[1..], t), 0.5, 2.0 * bound as real);
      assert Prod(0.5, 2.0 * bound as real) == bound as real;
    }
  }

  // Times (1 + t)^n.
  function Raised(c: seq<int>, n: nat): seq<int> {
    if n == 0 then c else TimesOnePlus(Raised(c, n - 1))
  }

  lemma {:induction false} EvalRaised(c: seq<int>, n: nat, t: real)
    ensures Eval(Raised(c, n), t) == Prod(Pow(1.0 + t, n), Eval(c, t))
  {
    hide Eval, TimesOnePlus;
    if n == 0 {
      ProdAlgebra(Eval(c, t), 1.0, 1.0);
    } else {
      EvalRaised(c, n - 1, t);
      EvalTimesOnePlus(Raised(c, n - 1), t);
      ProdAlgebra(1.0 + t, Pow(1.0 + t, n - 1), Eval(c, t));
    }
  }

  lemma RaisedOnce(c: seq<int>, n: nat)
    ensures Raised(c, n + 1) == TimesOnePlus(Raised(c, n)) && Raised(c, 0) == c
  {
  }

  function Zeros(n: nat): (z: seq<int>)
    ensures |z| == n
  {
    seq(n, _ => 0)
  }

  lemma {:induction false} EvalShifted(c: seq<int>, n: nat, t: real)
    ensures Eval(Zeros(n) + c, t) == Prod(Pow(t, n), Eval(c, t))
  {
    if n == 0 {
      assert Zeros(0) + c == c;
      ProdAlgebra(Eval(c, t), 1.0, 1.0);
    } else {
      assert Zeros(n) + c == [0] + (Zeros(n - 1) + c);
      EvalShifted(c, n - 1, t);
      EvalShift(Zeros(n - 1) + c, t);
      hide Eval;
      ProdAlgebra(t, Pow(t, n - 1), Eval(c, t));
    }
  }

  lemma {:induction false} EvalPadded(c: seq<int>, n: nat, t: real)
    ensures Eval(c + Zeros(n), t) == Eval(c, t)
  {
    if n == 0 {
      assert c + Zeros(0) == c;
    } else {
      assert c + Zeros(n) == (c + Zeros(n - 1)) + [0];
      EvalPad(c + Zeros(n - 1), t);
      EvalPadded(c, n - 1, t);
    }
  }

  // A multiple of t^n times a polynomial, filled up with zeros.
  lemma EvalPlaced(k: int, c: seq<int>, n: nat, pad: nat, t: real)
    ensures Eval(Zeros(n) + Multiple(k, c) + Zeros(pad), t) == Prod(k as real, Prod(Pow(t, n), Eval(c, t)))
  {
    EvalPadded(Zeros(n) + Multiple(k, c), pad, t);
    EvalShifted(Multiple(k, c), n, t);
    EvalScaled(k, c, t);
    hide Eval, Pow;
    ProdAlgebra(Pow(t, n), k as real, Eval(c, t));
    ProdAlgebra(k as real, Pow(t, n), Eval(c, t));
  }
}
