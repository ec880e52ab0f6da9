// ln_ratio of deterministic_math.rs with every operation rounded.
module LnRatio {
  import opened RealPowers
  import opened AtanhSeries
  import opened LnError
  import opened LnExact
  import opened Nearness
  import opened NegativeLog

  // ---- The loop as executed, with every operation rounded ----

  // The loop needs at most eight roots, hands the series a ratio well inside
  // its domain, and scales the result back by the number of roots. The result
  // is within a relative 2^-39 and 2^-50 of the exact value, however many terms
  // that is given.
  method LnRatio(rnd: real -> real, ghost minNormal: real, sqrt: real -> real, x: real)
    returns (result: real, ratio: real, halvings: nat, terms: nat)
    requires RoundsToNearest(rnd, minNormal) && IsSqrt(sqrt)
    requires 1.0 <= x <= MAX_RATIO
    ensures halvings <= 8 && 0.0 <= ratio <= 0.059 && MIN_TERMS <= terms <= ENOUGH_TERMS
    ensures rnd(2.0 - ratio) != 0.0
    ensures result == Prod(Exp2(halvings) as real, 2.0 * Total(rnd, ratio, terms - 1)) >= 0.0
    ensures forall n: nat :: n >= terms ==> Total(rnd, ratio, n) == Total(rnd, ratio, terms - 1)
    ensures forall n: nat :: n >= terms ==>
              Abs(result - Value(sqrt, x, n)) <= LN_ACCURACY * Value(sqrt, x, n) + 8.0 * UNIT
  {
    hide Near, Root, Value, ExactLog, Cap;
    hide RoundsToNearest, IsSqrt, Total, SumAt, Sq, Prod, Exp2, Pow;
    var reduced := x;
    halvings := 0;
    StartsNear(sqrt, x);
    while reduced > REDUCED_RATIO && halvings < MAX_ROOTS
      invariant 1.0 <= reduced <= Cap(halvings) && halvings <= 8
      invariant Near(reduced, Root(sqrt, x, halvings), 2)
      invariant halvings > 0 ==> Root(sqrt, x, halvings - 1) >= 1.0624
      decreases MAX_ROOTS - halvings
    {
      RoundedRoot(rnd, minNormal, sqrt, reduced, halvings);
      NearBelow(reduced, Root(sqrt, x, halvings));
      NextRoot(rnd, minNormal, sqrt, reduced, x, halvings);
      reduced := rnd(sqrt(reduced));
      halvings := halvings + 1;
    }
    RoundedRatio(rnd, minNormal, reduced);
    ratio := rnd(1.0 - rnd(1.0 / reduced));
    result, terms := NegativeLogOneMinus(rnd, minNormal, ratio);
    ghost var inner := result;
    ZNonNegative(rnd, minNormal, ratio);
    ScaleStart(inner);
    for i := 0 to halvings
      invariant result == Prod(Exp2(i) as real, inner) >= 0.0
    {
      ScaleStep(inner, i);
      result := result * 2.0;
    }
    forall n: nat | n >= terms
      ensures Abs(result - Value(sqrt, x, n)) <= LN_ACCURACY * Value(sqrt, x, n) + 8.0 * UNIT
    {
      LnIsAccurate(rnd, minNormal, sqrt, x, reduced, halvings, ratio, inner, n);
    }
  }

  lemma StartsNear(sqrt: real -> real, x: real)
    requires 1.0 <= x <= MAX_RATIO
    ensures Near(x, Root(sqrt, x, 0), 2) && x <= Cap(0)
  {
    NearSelf(x, 2);
  }

  lemma ZNonNegative(rnd: real -> real, minNormal: real, ratio: real)
    requires RoundsToNearest(rnd, minNormal) && 0.0 <= ratio < 0.95
    ensures rnd(2.0 - ratio) != 0.0 && Z(rnd, ratio) >= 0.0
  {
    hide RoundsToNearest;
    ZBounds(rnd, minNormal, ratio);
  }

  lemma RoundedRoot(rnd: real -> real, minNormal: real, sqrt: real -> real, x: real, k: nat)
    requires RoundsToNearest(rnd, minNormal) && IsSqrt(sqrt)
    requires REDUCED_RATIO < x <= Cap(k)
    ensures k < 8 && 1.0 <= rnd(sqrt(x)) <= Cap(k + 1)
  {
    var bound := if k == 0 then 64.0 else if k == 1 then 8.0001 else if k == 2 then 2.829
                 else if k == 3 then 1.6823 else if k == 4 then 1.2972 else if k == 5 then 1.1391
                 else if k == 6 then 1.0675 else 1.034;
    assert Cap(k) <= Sq(bound);
    assert minNormal <= 0.0001 by { SmallNormal(minNormal); }
    assert Prod(UNIT, bound) <= 0.0001;
    hide RoundsToNearest, Sq, Prod;
    RootBetween(sqrt, x, bound);
    Monotone(rnd, minNormal, 1.0, sqrt(x));
    Monotone(rnd, minNormal, sqrt(x), bound);
    Onto(rnd, minNormal, 1.0);
    RelativeError(rnd, minNormal, bound);
  }

  lemma RoundedRatio(rnd: real -> real, minNormal: real, reduced: real)
    requires RoundsToNearest(rnd, minNormal) && 1.0 <= reduced <= REDUCED_RATIO
    ensures 0.0 <= rnd(1.0 - rnd(1.0 / reduced)) <= 0.059
  {
    assert minNormal <= 0.0001 by { SmallNormal(minNormal); }
    hide RoundsToNearest;
    SmallerQuotient(1.0, reduced, 1.0, 1.0);
    SmallerQuotient(1.0, REDUCED_RATIO, 1.0, reduced);
    var inverse := 1.0 / reduced;
    Onto(rnd, minNormal, 1.0);
    Monotone(rnd, minNormal, inverse, 1.0);
    Monotone(rnd, minNormal, 1.0 / REDUCED_RATIO, inverse);
    RoundingError(rnd, minNormal, 1.0 / REDUCED_RATIO);
    RoundedBelow(rnd, minNormal, 1.0 - rnd(inverse), 0.0589, 0.059);
  }
}
