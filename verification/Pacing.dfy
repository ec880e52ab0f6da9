// The tick loop's pacing: sleep until an absolute deadline, never for a fixed
// time after the work. How late a peer is, and how far two peers can be apart.
module Pacing {
  import opened RealPowers
  import opened RealSums

  // How much longer than the period each tick's work took.
  function Overruns(works: seq<real>, period: real): (r: seq<real>)
    ensures |r| == |works|
  {
    if works == [] then [] else Overruns(works[..|works| - 1], period) + [works[|works| - 1] - period]
  }

  // The clock after pacing each of these ticks.
  function Paced(start: real, period: real, works: seq<real>): real {
    if works == [] then start
    else
      var worked := Paced(start, period, works[..|works| - 1]) + works[|works| - 1];
      var deadline := start + |works| as real * period;
      if period > 0.0 && deadline > worked then deadline else worked
  }

  // The alternative: the period again after every tick's work.
  function SleptAfter(start: real, period: real, works: seq<real>): real {
    if works == [] then start
    else SleptAfter(start, period, works[..|works| - 1]) + works[|works| - 1] + period
  }

  method RunTicks(startedAtMs: real, tickSleepMs: real, works: seq<real>) returns (now: real)
    ensures now == Paced(startedAtMs, tickSleepMs, works)
  {
    now := startedAtMs;
    for tick := 0 to |works|
      invariant now == Paced(startedAtMs, tickSleepMs, works[..tick])
    {
      assert works[..tick + 1][..tick] == works[..tick];
      now := now + works[tick];
      if tickSleepMs > 0.0 {
        var remaining := startedAtMs + (tick + 1) as real * tickSleepMs - now;
        if remaining > 0.0 {
          now := now + remaining;
        }
      }
    }
    assert works[..|works|] == works;
  }

  // Past the last deadline by this much.
  function Lateness(start: real, period: real, works: seq<real>): real {
    Paced(start, period, works) - (start + |works| as real * period)
  }

  lemma LatenessStep(start: real, period: real, works: seq<real>)
    requires period > 0.0 && works != []
    ensures var before := Lateness(start, period, works[..|works| - 1]) + works[|works| - 1] - period;
            Lateness(start, period, works) == if before > 0.0 then before else 0.0
    ensures Lateness(start, period, []) == 0.0
  {
    var n := |works|;
    assert n as real * period == (n - 1) as real * period + period;
  }

  // x is the largest sum of any of the list's suffixes, the empty one included.
  ghost predicate LargestSuffix(x: real, xs: seq<real>) {
    && (forall i :: 0 <= i <= |xs| ==> Sum(xs[i..]) <= x)
    && (exists i :: 0 <= i <= |xs| && Sum(xs[i..]) == x)
  }

  lemma SuffixSnoc(xs: seq<real>, last: real, i: nat)
    requires i <= |xs|
    ensures Sum((xs + [last])[i..]) == Sum(xs[i..]) + last
    ensures Sum((xs + [last])[|xs| + 1..]) == 0.0
  {
    assert (xs + [last])[i..] == xs[i..] + [last];
    assert (xs[i..] + [last])[..|xs| - i] == xs[i..];
  }

  lemma LargestSnoc(xs: seq<real>, x: real, last: real)
    requires LargestSuffix(x, xs)
    ensures LargestSuffix(if x + last > 0.0 then x + last else 0.0, xs + [last])
  {
    var y := if x + last > 0.0 then x + last else 0.0;
    var all := xs + [last];
    forall i | 0 <= i <= |all| ensures Sum(all[i..]) <= y {
      SuffixSnoc(xs, last, if i <= |xs| then i else 0);
    }
    var k :| 0 <= k <= |xs| && Sum(xs[k..]) == x;
    SuffixSnoc(xs, last, k);
    hide Sum;
    assert Sum(all[k..]) == x + last && Sum(all[|all|..]) == 0.0;
  }

  // A peer is as late as the worst run of recent ticks overran, however long it
  // has been going; earlier slowness has been slept off.
  lemma {:induction false} LatenessIsLargestSuffix(start: real, period: real, works: seq<real>)
    requires period > 0.0
    ensures LargestSuffix(Lateness(start, period, works), Overruns(works, period))
  {
    if works == [] {
      NoSuffix(Overruns(works, period));
      hide Sum;
      assert Overruns(works, period)[0..] == [] && Lateness(start, period, works) == 0.0;
    } else {
      var init, last := works[..|works| - 1], works[|works| - 1];
      assert Overruns(works, period) == Overruns(init, period) + [last - period];
      hide Sum, Paced, LargestSuffix, Overruns, Lateness;
      LatenessIsLargestSuffix(start, period, init);
      LatenessStep(start, period, works);
      LargestSnoc(Overruns(init, period), Lateness(start, period, init), last - period);
    }
  }

  lemma NoSuffix(xs: seq<real>)
    ensures Sum(xs[|xs|..]) == 0.0
  {
  }

  // Every recent run of ticks overran by no more than this.
  ghost predicate OverrunsWithin(works: seq<real>, period: real, bound: real) {
    forall i :: 0 <= i <= |works| ==> Sum(Overruns(works, period)[i..]) <= bound
  }

  // The bound on lateness holds exactly when it holds of every recent run.
  lemma LateWithinExactly(start: real, period: real, works: seq<real>, bound: real)
    requires period > 0.0
    ensures Lateness(start, period, works) <= bound <==> OverrunsWithin(works, period, bound)
    ensures Lateness(start, period, works) >= 0.0
  {
    hide Sum;
    LatenessIsLargestSuffix(start, period, works);
    var late, xs := Lateness(start, period, works), Overruns(works, period);
    var k :| 0 <= k <= |xs| && Sum(xs[k..]) == late;
    NoSuffix(xs);
    assert Sum(xs[|xs|..]) <= late;
  }

  // Two peers that start together are never further apart, after as many ticks,
  // than the larger of the two overruns, however long the run.
  lemma SkewIsBounded(start: real, period: real, a: seq<real>, b: seq<real>, bound: real)
    requires period > 0.0 && |a| == |b|
    requires OverrunsWithin(a, period, bound) && OverrunsWithin(b, period, bound)
    ensures Abs(Paced(start, period, a) - Paced(start, period, b)) <= bound
  {
    hide Paced;
    LateWithinExactly(start, period, a, bound);
    LateWithinExactly(start, period, b, bound);
  }

  // Sleeping after the work keeps every difference instead: two peers drift apart
  // by the whole difference of their work.
  lemma {:induction false} SleptAfterDrifts(start: real, period: real, a: seq<real>, b: seq<real>)
    requires |a| == |b|
    ensures SleptAfter(start, period, a) - SleptAfter(start, period, b) == Sum(a) - Sum(b)
  {
    if a != [] {
      SleptAfterDrifts(start, period, a[..|a| - 1], b[..|b| - 1]);
    }
  }

  // Two peers whose work fits the period stay exactly together when paced, and
  // drift past every bound when each sleeps after its work, unless their work is
  // the same.
  lemma SteadyPeers(start: real, period: real, x: real, y: real, n: nat)
    requires period > 0.0 && x <= period && y <= period
    ensures Paced(start, period, Repeat(x, n)) == Paced(start, period, Repeat(y, n))
    ensures SleptAfter(start, period, Repeat(x, n)) - SleptAfter(start, period, Repeat(y, n)) == Times(n, x - y)
  {
    OnTime(start, period, x, n);
    OnTime(start, period, y, n);
    SleptAfterDrifts(start, period, Repeat(x, n), Repeat(y, n));
    SumRepeat(x, n);
    SumRepeat(y, n);
    hide Paced, SleptAfter, Repeat, Sum;
    assert n as real * x - n as real * y == n as real * (x - y);
  }

  lemma {:induction false} OnTime(start: real, period: real, work: real, n: nat)
    requires period > 0.0 && work <= period
    ensures Lateness(start, period, Repeat(work, n)) == 0.0
  {
    if n > 0 {
      OnTime(start, period, work, n - 1);
      LatenessStep(start, period, Repeat(work, n));
      assert Repeat(work, n)[..n - 1] == Repeat(work, n - 1);
    }
  }

  // With pacing switched off the clock only works.
  lemma {:induction false} Unpaced(start: real, period: real, works: seq<real>)
    requires period <= 0.0
    ensures Paced(start, period, works) == start + Sum(works)
  {
    if works != [] {
      Unpaced(start, period, works[..|works| - 1]);
    }
  }
}
