// negative_log_one_minus of deterministic_math.rs, with every operation rounded:
// the loop ends only because a contribution is eventually rounded away, and what
// it returns is the logarithm up to a few roundings a term.
module NegativeLog {
  import opened RealPowers
  import opened AtanhSeries
  import opened AtanhTerms
  import opened AtanhError
  import opened Nearness

  // -ln(1 - ratio) as n terms of its exact series.
  function ExactLog(ratio: real, n: nat): real
    requires ratio < 2.0
  {
    2.0 * AtanhSum(ratio / (2.0 - ratio), n)
  }

  lemma LogIsSum(ratio: real, n: nat)
    requires ratio < 2.0
    ensures ExactLog(ratio, n) == 2.0 * AtanhSum(Exact(ratio), n)
  {
    hide AtanhSum;
  }

  lemma IsAccurate(rnd: real -> real, minNormal: real, ratio: real, terms: nat, n: nat)
    requires RoundsToNearest(rnd, minNormal) && 0.0 <= ratio < 0.95
    requires rnd(2.0 - ratio) != 0.0 && MIN_TERMS <= terms <= ENOUGH_TERMS && n >= terms
    requires forall m: nat :: m >= terms ==> Total(rnd, ratio, m) == Total(rnd, ratio, terms - 1)
    ensures ratio >= 4.0 * minNormal ==>
              Abs(2.0 * Total(rnd, ratio, terms - 1) - ExactLog(ratio, n)) <= Prod(ACCURACY, ExactLog(ratio, n))
    ensures ratio < 4.0 * minNormal ==>
              Abs(2.0 * Total(rnd, ratio, terms - 1) - ExactLog(ratio, n)) <= 16.0 * minNormal
  {
    hide RoundsToNearest, Total, AtanhSum, Near, Prod, Exact, ExactLog;
    LogIsSum(ratio, n);
    if ratio >= 4.0 * minNormal {
      SettledIsAccurate(rnd, minNormal, ratio, terms, n);
      TwiceNear(Total(rnd, ratio, terms - 1), AtanhSum(Exact(ratio), n));
    } else {
      TinyRatio(rnd, minNormal, ratio, n, terms - 1);
    }
  }

  // Returns the value and the number of loop iterations taken. The sum it
  // returns twice of is the first one, from the thirtieth term on, that its
  // next term leaves unchanged, and no later term would change it either. The
  // value is within 2^-41, in relative terms, of twice the exact series at
  // ratio / (2 - ratio), which is -ln(1 - ratio), however many terms that is
  // given; next to the smallest normal number, within 16 of that number.
  method NegativeLogOneMinus(rnd: real -> real, ghost minNormal: real, ratio: real)
    returns (result: real, terms: nat)
    requires RoundsToNearest(rnd, minNormal)
    requires 0.0 <= ratio < 0.95
    ensures rnd(2.0 - ratio) != 0.0
    ensures MIN_TERMS <= terms <= ENOUGH_TERMS
    ensures result == 2.0 * Total(rnd, ratio, terms - 1) >= 2.0 * Z(rnd, ratio)
    ensures forall n: nat :: n >= terms ==> Total(rnd, ratio, n) == Total(rnd, ratio, terms - 1)
    ensures forall n: nat :: MIN_TERMS <= n < terms ==> Total(rnd, ratio, n) != Total(rnd, ratio, n - 1)
    ensures ratio >= 4.0 * minNormal ==> forall n: nat :: n >= terms ==>
              Abs(result - ExactLog(ratio, n)) <= Prod(ACCURACY, ExactLog(ratio, n))
    ensures ratio < 4.0 * minNormal ==> forall n: nat :: n >= terms ==>
              Abs(result - ExactLog(ratio, n)) <= 16.0 * minNormal
  {
    hide ExactLog;
    hide RoundsToNearest, Reduced, Sq, PowerAt, SumAt, Contribution, Share, Prod;
    ZBounds(rnd, minNormal, ratio);
    var z := rnd(ratio / rnd(2.0 - ratio));
    var zSquared := rnd(z * z);
    ProductExplicit(z, z);
    AbsorbedInTime(rnd, minNormal, z, zSquared);
    var power := z;
    var sum := 0.0;
    terms := 0;
    FirstTerm(rnd, z, zSquared);
    while true
      invariant 0 <= terms < ENOUGH_TERMS
      invariant power == PowerAt(rnd, z, zSquared, terms)
      invariant sum == SumAt(rnd, z, zSquared, terms)
      invariant forall n: nat :: MIN_TERMS <= n <= terms ==> Total(rnd, ratio, n) != Total(rnd, ratio, n - 1)
      decreases ENOUGH_TERMS - terms
    {
      NextTerm(rnd, z, zSquared, terms);
      var contribution := rnd(power / (2.0 * terms as real + 1.0));
      var nextSum := rnd(sum + contribution);
      terms := terms + 1;
      if terms >= MIN_TERMS && nextSum == sum {
        FixedForGood(rnd, minNormal, z, zSquared, terms);
        SumAtLeastZ(rnd, minNormal, z, zSquared, terms - 1);
        forall n: nat | n >= terms
          ensures ratio >= 4.0 * minNormal ==>
                    Abs(2.0 * sum - ExactLog(ratio, n)) <= Prod(ACCURACY, ExactLog(ratio, n))
          ensures ratio < 4.0 * minNormal ==> Abs(2.0 * sum - ExactLog(ratio, n)) <= 16.0 * minNormal
        {
          IsAccurate(rnd, minNormal, ratio, terms, n);
        }
        return 2.0 * sum, terms;
      }
      sum := nextSum;
      ProductExplicit(power, zSquared);
      power := rnd(power * zSquared);
    }
  }
}
