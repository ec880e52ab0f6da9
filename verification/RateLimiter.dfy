// rate_limiter.ts: a fixed-window limiter, and what it admits over whole runs.
module RateLimiter {
  import opened Results

  datatype FixedWindowState = FixedWindowState(windowStartMs: int, count: int)

  datatype FixedWindowLimit = FixedWindowLimit(limit: int, windowMs: int)

  datatype LimiterError = RateLimited

  function TryConsume(state: Option<FixedWindowState>, nowMs: int, policy: FixedWindowLimit)
    : Result<FixedWindowState, LimiterError>
  {
    if state.None? || nowMs - state.value.windowStartMs >= policy.windowMs then
      Ok(FixedWindowState(nowMs, 1))
    else if state.value.count >= policy.limit then
      Err(RateLimited)
    else
      Ok(state.value.(count := state.value.count + 1))
  }

  // A run of attempts: the state persisted after it and the attempts admitted.
  datatype History = History(state: Option<FixedWindowState>, passed: seq<int>)

  function Attempt(h: History, nowMs: int, policy: FixedWindowLimit): History {
    match TryConsume(h.state, nowMs, policy)
    case Ok(next) => History(Some(next), h.passed + [nowMs])
    case Err(_) => h
  }

  function Run(attempts: seq<int>, policy: FixedWindowLimit): History {
    if attempts == [] then History(None, [])
    else Attempt(Run(attempts[..|attempts| - 1], policy), attempts[|attempts| - 1], policy)
  }

  ghost predicate Sorted(s: seq<int>) {
    forall i, j :: 0 <= i <= j < |s| ==> s[i] <= s[j]
  }

  predicate Sensible(policy: FixedWindowLimit) {
    policy.limit >= 1 && policy.windowMs >= 1
  }

  // The persisted count is the number of admitted attempts since the window
  // start, which is the time of the first of them; before that, everything
  // further back than a full window's worth is at least a window old.
  ghost predicate Consistent(h: History, nowMs: int, policy: FixedWindowLimit) {
    var n := |h.passed|;
    && Sorted(h.passed)
    && (n > 0 ==> h.passed[n - 1] <= nowMs)
    && (h.state.None? <==> n == 0)
    && (h.state.Some? ==>
          var FixedWindowState(start, count) := h.state.value;
          && 1 <= count <= policy.limit && count <= n
          && h.passed[n - count] == start
          && h.passed[n - 1] < start + policy.windowMs
          && (forall i :: 0 <= i < n - count ==> h.passed[i] < start)
          && (forall i :: 0 <= i <= n - count - policy.limit ==> h.passed[i] <= start - policy.windowMs)
          && (forall i :: 0 <= i < n - count - policy.limit ==> h.passed[i] < start - policy.windowMs))
  }

  // How far apart admitted attempts must be.
  ghost predicate Spaced(passed: seq<int>, policy: FixedWindowLimit) {
    && (forall i, j :: 0 <= i < |passed| && 0 <= j < |passed| && j - i >= 2 * policy.limit - 1 ==>
          passed[j] - passed[i] >= policy.windowMs)
    && (forall i, j :: 0 <= i < |passed| && 0 <= j < |passed| && j - i >= 2 * policy.limit ==>
          passed[j] - passed[i] > policy.windowMs)
  }

  lemma AttemptKeepsConsistent(h: History, before: int, nowMs: int, policy: FixedWindowLimit)
    requires Sensible(policy) && before <= nowMs && Consistent(h, before, policy)
    ensures Consistent(Attempt(h, nowMs, policy), nowMs, policy)
  {
    var next, n := Attempt(h, nowMs, policy), |h.passed|;
    if next.passed == h.passed + [nowMs] {
      assert forall i :: 0 <= i < n ==> next.passed[i] == h.passed[i];
      if next.state.value.count == 1 && n > 0 {
        var FixedWindowState(start, count) := h.state.value;
        assert forall i :: 0 <= i < n ==> h.passed[i] <= h.passed[n - 1] < nowMs;
        assert forall i :: 0 <= i <= n - policy.limit && i < n ==> h.passed[i] <= h.passed[n - count];
      }
    }
  }

  lemma AttemptKeepsSpaced(h: History, nowMs: int, policy: FixedWindowLimit)
    requires Sensible(policy) && Spaced(h.passed, policy)
    requires Consistent(Attempt(h, nowMs, policy), nowMs, policy)
    ensures Spaced(Attempt(h, nowMs, policy).passed, policy)
  {
    var next, n := Attempt(h, nowMs, policy), |h.passed|;
    if next.passed == h.passed + [nowMs] {
      assert forall i :: 0 <= i < n ==> next.passed[i] == h.passed[i];
      assert n + 1 - 2 * policy.limit <= n + 1 - next.state.value.count - policy.limit;
    }
  }

  // For every nondecreasing sequence of attempt times.
  lemma {:induction false} RunKeeps(attempts: seq<int>, policy: FixedWindowLimit, nowMs: int)
    requires Sensible(policy) && Sorted(attempts)
    requires attempts != [] ==> attempts[|attempts| - 1] <= nowMs
    ensures Consistent(Run(attempts, policy), nowMs, policy) && Spaced(Run(attempts, policy).passed, policy)
  {
    if attempts != [] {
      var last := |attempts| - 1;
      var earlier := attempts[..last];
      RunKeeps(earlier, policy, attempts[last]);
      AttemptKeepsConsistent(Run(earlier, policy), attempts[last], attempts[last], policy);
      hide Consistent;
      AttemptKeepsSpaced(Run(earlier, policy), attempts[last], policy);
    }
  }

  // The number of times in [from, to).
  function CountIn(times: seq<int>, from: int, to: int): nat {
    if times == [] then 0
    else CountIn(times[..|times| - 1], from, to) + if from <= times[|times| - 1] < to then 1 else 0
  }

  lemma {:induction false} CountAfter(times: seq<int>, from: int, to: int, first: int)
    requires forall i :: 0 <= i < |times| && from <= times[i] < to ==> first <= i
    ensures first <= |times| ==> CountIn(times, from, to) <= |times| - first
    ensures first > |times| ==> CountIn(times, from, to) == 0
  {
    if times != [] {
      CountAfter(times[..|times| - 1], from, to, first);
    }
  }

  lemma {:induction false} CountWithin(times: seq<int>, from: int, to: int, bound: nat)
    requires forall i, j :: 0 <= i <= j < |times| && from <= times[i] < to && from <= times[j] < to ==> j - i < bound
    ensures CountIn(times, from, to) <= bound
  {
    if times != [] {
      var last := |times| - 1;
      if from <= times[last] < to {
        CountAfter(times, from, to, |times| - bound);
      } else {
        CountWithin(times[..last], from, to, bound);
      }
    }
  }

  // Over any run, no stretch of one window length, wherever it starts, sees
  // more than twice the limit less one; with its end point, twice the limit.
  lemma AdmittedPerInterval(attempts: seq<int>, policy: FixedWindowLimit, from: int)
    requires Sensible(policy) && Sorted(attempts)
    ensures CountIn(Run(attempts, policy).passed, from, from + policy.windowMs) <= 2 * policy.limit - 1
    ensures CountIn(Run(attempts, policy).passed, from, from + policy.windowMs + 1) <= 2 * policy.limit
  {
    hide Run, Consistent, Attempt;
    var passed := Run(attempts, policy).passed;
    RunKeeps(attempts, policy, if attempts == [] then 0 else attempts[|attempts| - 1]);
    SpanBounds(passed, policy);
    hide Spaced, Sorted;
    CountWithin(passed, from, from + policy.windowMs, 2 * policy.limit - 1);
    CountWithin(passed, from, from + policy.windowMs + 1, 2 * policy.limit);
  }

  lemma SpanBounds(passed: seq<int>, policy: FixedWindowLimit)
    requires Spaced(passed, policy) && Sensible(policy)
    ensures forall i, j :: 0 <= i <= j < |passed| && passed[j] - passed[i] < policy.windowMs ==>
                             j - i < 2 * policy.limit - 1
    ensures forall i, j :: 0 <= i <= j < |passed| && passed[j] - passed[i] <= policy.windowMs ==>
                             j - i < 2 * policy.limit
  {
  }

  lemma {:induction false} CountSuffix(times: seq<int>, from: int, to: int, first: nat)
    requires first <= |times| && forall i :: first <= i < |times| ==> from <= times[i] < to
    ensures CountIn(times, from, to) >= |times| - first
  {
    if first < |times| {
      CountSuffix(times[..|times| - 1], from, to, first);
    }
  }

  // An attempt is refused only when the limit's worth was admitted within the
  // last window.
  lemma RefusedOnlyWhenFull(attempts: seq<int>, policy: FixedWindowLimit, nowMs: int)
    requires Sensible(policy) && Sorted(attempts)
    requires attempts != [] ==> attempts[|attempts| - 1] <= nowMs
    requires TryConsume(Run(attempts, policy).state, nowMs, policy) == Err(RateLimited)
    ensures CountIn(Run(attempts, policy).passed, nowMs - policy.windowMs + 1, nowMs + 1) >= policy.limit
  {
    hide *;
    RunKeeps(attempts, policy, nowMs);
    FullWindow(Run(attempts, policy), nowMs, policy);
  }

  lemma FullWindow(h: History, nowMs: int, policy: FixedWindowLimit)
    requires Sensible(policy) && Consistent(h, nowMs, policy) && TryConsume(h.state, nowMs, policy) == Err(RateLimited)
    ensures CountIn(h.passed, nowMs - policy.windowMs + 1, nowMs + 1) >= policy.limit
  {
    WindowIsLatest(h, nowMs, policy);
    assert policy.limit >= 1;
    hide *;
    CountSuffix(h.passed, nowMs - policy.windowMs + 1, nowMs + 1, |h.passed| - policy.limit);
  }

  lemma WindowIsLatest(h: History, nowMs: int, policy: FixedWindowLimit)
    requires Sensible(policy) && Consistent(h, nowMs, policy) && TryConsume(h.state, nowMs, policy) == Err(RateLimited)
    ensures policy.limit <= |h.passed|
    ensures forall i :: |h.passed| - policy.limit <= i < |h.passed| ==>
              nowMs - policy.windowMs + 1 <= h.passed[i] < nowMs + 1
  {
    var first := |h.passed| - policy.limit;
    assert h.state.value.count == policy.limit && h.passed[first] == h.state.value.windowStartMs;
    assert forall i :: first <= i < |h.passed| ==> h.passed[first] <= h.passed[i] <= h.passed[|h.passed| - 1];
  }

  function Repeat(time: int, n: nat): (s: seq<int>)
    ensures |s| == n && forall i :: 0 <= i < n ==> s[i] == time
  {
    seq(n, _ => time)
  }

  lemma RunSnoc(attempts: seq<int>, nowMs: int, policy: FixedWindowLimit)
    ensures Run(attempts + [nowMs], policy) == Attempt(Run(attempts, policy), nowMs, policy)
  {
    assert (attempts + [nowMs])[..|attempts|] == attempts;
  }

  lemma RepeatSnoc(time: int, n: nat)
    requires n > 0
    ensures Repeat(time, n) == Repeat(time, n - 1) + [time]
  {
  }

  // Attempts inside the current window pass until its limit is spent.
  lemma {:induction false} RepeatsPass(attempts: seq<int>, policy: FixedWindowLimit, time: int, n: nat)
    requires Run(attempts, policy).state.Some?
    requires var FixedWindowState(start, count) := Run(attempts, policy).state.value;
             time - start < policy.windowMs && count + n <= policy.limit
    ensures var h := Run(attempts, policy);
            Run(attempts + Repeat(time, n), policy)
            == History(Some(h.state.value.(count := h.state.value.count + n)), h.passed + Repeat(time, n))
  {
    hide Run;
    if n == 0 {
      assert attempts + Repeat(time, 0) == attempts;
      assert Run(attempts, policy).passed + Repeat(time, 0) == Run(attempts, policy).passed;
    } else {
      var most := attempts + Repeat(time, n - 1);
      RepeatsPass(attempts, policy, time, n - 1);
      RepeatSnoc(time, n);
      hide Repeat;
      assert attempts + Repeat(time, n) == most + [time];
      RunSnoc(most, time, policy);
    }
  }

  lemma {:induction false} CountAppend(a: seq<int>, b: seq<int>, from: int, to: int)
    ensures CountIn(a + b, from, to) == CountIn(a, from, to) + CountIn(b, from, to)
  {
    if b == [] {
      assert a + b == a;
    } else {
      assert (a + b)[..|a + b| - 1] == a + b[..|b| - 1];
      CountAppend(a, b[..|b| - 1], from, to);
    }
  }

  lemma {:induction false} CountRepeat(time: int, n: nat, from: int, to: int)
    requires from <= time < to
    ensures CountIn(Repeat(time, n), from, to) == n
  {
    if n > 0 {
      assert Repeat(time, n)[..n - 1] == Repeat(time, n - 1);
      CountRepeat(time, n - 1, from, to);
    }
  }

  // One attempt, the rest of a full window's worth just before the window
  // ends, and another full window's worth as soon as it has ended.
  function Burst(policy: FixedWindowLimit): seq<int>
    requires Sensible(policy)
  {
    var w, l := policy.windowMs, policy.limit;
    (([0] + Repeat(w - 1, l - 1)) + [w]) + Repeat(w, l - 1)
  }

  // The bound is attained.
  lemma BoundIsAttained(policy: FixedWindowLimit)
    requires Sensible(policy) && policy.windowMs >= 2
    ensures Sorted(Burst(policy))
    ensures CountIn(Run(Burst(policy), policy).passed, 1, 1 + policy.windowMs) == 2 * policy.limit - 1
  {
    hide Run, CountIn, Repeat;
    BurstPasses(policy);
    BurstCount(policy);
  }

  lemma BurstPasses(policy: FixedWindowLimit)
    requires Sensible(policy)
    ensures Run(Burst(policy), policy).passed == Burst(policy)
  {
    hide Run, Repeat;
    var w, l := policy.windowMs, policy.limit;
    var first := [0] + Repeat(w - 1, l - 1);
    RunOne(policy);
    RepeatsPass([0], policy, w - 1, l - 1);
    RunNewWindow(first, policy, w);
    RepeatsPass(first + [w], policy, w, l - 1);
  }

  lemma BurstCount(policy: FixedWindowLimit)
    requires Sensible(policy) && policy.windowMs >= 2
    ensures CountIn(Burst(policy), 1, 1 + policy.windowMs) == 2 * policy.limit - 1
  {
    hide Repeat;
    var w, l := policy.windowMs, policy.limit;
    var late := Repeat(w - 1, l - 1);
    CountRepeat(w - 1, l - 1, 1, 1 + w);
    CountRepeat(w, l - 1, 1, 1 + w);
    CountAppend([0] + late + [w], Repeat(w, l - 1), 1, 1 + w);
    CountAppend([0] + late, [w], 1, 1 + w);
    CountAppend([0], late, 1, 1 + w);
    assert CountIn([0], 1, 1 + w) == 0 && CountIn([w], 1, 1 + w) == 1;
  }

  lemma RunOne(policy: FixedWindowLimit)
    ensures Run([0], policy) == History(Some(FixedWindowState(0, 1)), [0])
  {
    assert [0][..0] == [];
  }

  lemma RunNewWindow(attempts: seq<int>, policy: FixedWindowLimit, nowMs: int)
    requires var h := Run(attempts, policy); h.state.Some? && nowMs - h.state.value.windowStartMs >= policy.windowMs
    ensures Run(attempts + [nowMs], policy)
            == History(Some(FixedWindowState(nowMs, 1)), Run(attempts, policy).passed + [nowMs])
  {
    var all := attempts + [nowMs];
    assert all[..|all| - 1] == attempts;
  }
}
