// Sums of real numbers, and lists of equal ones.
module RealSums {
  function Sum(xs: seq<real>): real {
    if xs == [] then 0.0 else Sum(xs[..|xs| - 1]) + xs[|xs| - 1]
  }

  function Repeat(x: real, n: nat): (xs: seq<real>)
    ensures |xs| == n
  {
    if n == 0 then [] else Repeat(x, n - 1) + [x]
  }

  function Times(n: nat, x: real): real {
    n as real * x
  }

  lemma TimesStep(n: nat, x: real)
    ensures Times(0, x) == 0.0 && Times(n + 1, x) == Times(n, x) + x
  {
  }

  lemma {:induction false} SumRepeat(x: real, n: nat)
    ensures Sum(Repeat(x, n)) == Times(n, x)
  {
    hide Times;
    if n > 0 {
      SumRepeat(x, n - 1);
      assert Repeat(x, n)[..n - 1] == Repeat(x, n - 1);
      TimesStep(n - 1, x);
    } else {
      TimesStep(0, x);
    }
  }
}
