// The fixed-timestep drain the harness reproduces: frames of elapsed time go into
// an accumulator, whole steps come out, at most eight to a frame.
module FixedTimestep {
  import opened RealSums

  const DT: real := 1.0 / 60.0
  const MAX_TICKS: nat := 8
  const LONGEST_FRAME: real := 0.25
  // One virtual frame in milliseconds, a picosecond more than a step.
  const FRAME_MS: real := 1000.0 / 60.0 + 0.000_000_001

  // Steps taken out of the accumulator, one at a time, up to a cap.
  function Drained(accumulator: real, cap: nat): (ticks: nat)
    ensures ticks <= cap
    decreases cap
  {
    if accumulator >= DT && cap > 0 then 1 + Drained(accumulator - DT, cap - 1) else 0
  }

  // The cap bites only when more than it is waiting.
  lemma {:induction false} DrainedIs(accumulator: real, cap: nat)
    requires accumulator >= 0.0
    ensures var left := accumulator - Drained(accumulator, cap) as real * DT;
            0.0 <= left && (left < DT || Drained(accumulator, cap) == cap)
    decreases cap
  {
    if accumulator >= DT && cap > 0 {
      DrainedIs(accumulator - DT, cap - 1);
    }
  }

  datatype Clock = Clock(accumulator: real, ticks: seq<nat>)

  function Frame(clock: Clock, elapsed: real): Clock {
    var full := clock.accumulator + elapsed;
    var ticks := Drained(full, MAX_TICKS);
    Clock(full - ticks as real * DT, clock.ticks + [ticks])
  }

  // The clock after frames that took these times.
  function Run(frames: seq<real>): Clock {
    if frames == [] then Clock(0.0, []) else Frame(Run(frames[..|frames| - 1]), frames[|frames| - 1])
  }

  function Total(ticks: seq<nat>): nat {
    if ticks == [] then 0 else Total(ticks[..|ticks| - 1]) + ticks[|ticks| - 1]
  }

  lemma TotalSnoc(ticks: seq<nat>, last: nat)
    ensures Total(ticks + [last]) == Total(ticks) + last
  {
    assert (ticks + [last])[..|ticks|] == ticks;
  }

  ghost predicate Keepable(frames: seq<real>) {
    forall i :: 0 <= i < |frames| ==> 0.0 <= frames[i] <= MAX_TICKS as real * DT
  }

  // Nothing is lost: what went in is what came out in steps and what is left,
  // which is less than a step as long as no frame is longer than the cap's worth.
  lemma {:induction false} NothingIsLost(frames: seq<real>)
    requires Keepable(frames)
    ensures 0.0 <= Run(frames).accumulator < DT
    ensures Total(Run(frames).ticks) as real * DT + Run(frames).accumulator == Sum(frames)
    ensures |Run(frames).ticks| == |frames|
  {
    if frames != [] {
      var init, last := frames[..|frames| - 1], frames[|frames| - 1];
      NothingIsLost(init);
      var before := Run(init);
      var full := before.accumulator + last;
      DrainedIs(full, MAX_TICKS);
      TotalSnoc(before.ticks, Drained(full, MAX_TICKS));
    }
  }

  // So after any such frames the steps taken are the whole steps that fit.
  lemma TotalIsFloor(frames: seq<real>)
    requires Keepable(frames)
    ensures Total(Run(frames).ticks) == (Sum(frames) * 60.0).Floor
  {
    NothingIsLost(frames);
  }

  lemma TimesScale(n: nat, x: real)
    ensures Times(n, x) * 60.0 == Times(n, x * 60.0)
  {
  }

  function After(frame: real, n: nat): Clock {
    Run(Repeat(frame, n))
  }

  lemma AfterStep(frame: real, n: nat)
    ensures After(frame, n + 1) == Frame(After(frame, n), frame)
  {
    assert Repeat(frame, n + 1)[..n] == Repeat(frame, n);
  }

  lemma {:induction false} RepeatKeepable(frame: real, n: nat)
    requires 0.0 <= frame <= MAX_TICKS as real * DT
    ensures Keepable(Repeat(frame, n))
  {
    if n > 0 {
      RepeatKeepable(frame, n - 1);
    }
  }

  // Constant frames up to the cap: after n of them, floor(n * frame / DT) steps.
  lemma ConstantFrames(frame: real, n: nat)
    requires 0.0 <= frame <= MAX_TICKS as real * DT
    ensures Total(After(frame, n).ticks) == Times(n, frame * 60.0).Floor
  {
    hide Times, Run;
    RepeatKeepable(frame, n);
    TotalIsFloor(Repeat(frame, n));
    SumRepeat(frame, n);
    TimesScale(n, frame);
  }

  lemma {:induction false} TicksLength(frame: real, n: nat)
    ensures |After(frame, n).ticks| == n
  {
    if n > 0 {
      AfterStep(frame, n - 1);
      hide After, Drained;
      TicksLength(frame, n - 1);
    }
  }

  // A frame's steps stay recorded where they were.
  lemma {:induction false} TicksPrefix(frame: real, i: nat, n: nat)
    requires i <= n
    ensures After(frame, i).ticks <= After(frame, n).ticks
    decreases n
  {
    hide After, Drained;
    if i < n {
      TicksPrefix(frame, i, n - 1);
      AfterStep(frame, n - 1);
    }
  }

  lemma FloorsApart(a: real, x: real)
    ensures x.Floor <= (a + x).Floor - a.Floor <= x.Floor + 1
    ensures x == x.Floor as real ==> (a + x).Floor - a.Floor == x.Floor
  {
  }

  // Each frame's steps are the difference of two floors, so frame / DT rounded
  // down or rounded up.
  lemma EachFrame(frame: real, n: nat, i: nat)
    requires 0.0 <= frame <= MAX_TICKS as real * DT && i < n
    ensures |After(frame, n).ticks| == n
    ensures var ticks, x := After(frame, n).ticks[i], frame * 60.0;
            && ticks == Times(i + 1, x).Floor - Times(i, x).Floor
            && (ticks == x.Floor || (ticks == x.Floor + 1 && x != x.Floor as real))
  {
    hide After, Times, Drained;
    var x := frame * 60.0;
    TicksLength(frame, n);
    TicksLength(frame, i);
    TicksPrefix(frame, i + 1, n);
    AfterStep(frame, i);
    var ticks := After(frame, n).ticks[i];
    assert After(frame, i + 1).ticks == After(frame, i).ticks + [ticks];
    TotalSnoc(After(frame, i).ticks, ticks);
    ConstantFrames(frame, i);
    ConstantFrames(frame, i + 1);
    TimesStep(i, x);
    FloorsApart(Times(i, x), x);
  }

  // ----- longer frames: the cap bites and the backlog grows -----

  lemma {:induction false} DrainedFull(accumulator: real, cap: nat)
    requires accumulator >= cap as real * DT
    ensures Drained(accumulator, cap) == cap
    decreases cap
  {
    if cap > 0 {
      DrainedFull(accumulator - DT, cap - 1);
    }
  }

  lemma {:induction false} Overload(frame: real, n: nat)
    requires frame >= MAX_TICKS as real * DT
    ensures Total(After(frame, n).ticks) == MAX_TICKS * n
    ensures After(frame, n).accumulator == Times(n, frame - MAX_TICKS as real * DT) >= 0.0
  {
    var extra := frame - MAX_TICKS as real * DT;
    if n == 0 {
      TimesStep(0, extra);
    } else {
      hide After, Times, Drained;
      Overload(frame, n - 1);
      AfterStep(frame, n - 1);
      TimesStep(n - 1, extra);
      var before := After(frame, n - 1);
      DrainedFull(before.accumulator + frame, MAX_TICKS);
      TotalSnoc(before.ticks, MAX_TICKS);
    }
  }

  ghost predicate KeepsUp(frame: real) {
    forall n: nat :: Total(After(frame, n).ticks) == Times(n, frame * 60.0).Floor
  }

  // The drain keeps up with constant frames exactly when they are no longer than
  // eight steps.
  lemma KeepsUpExactly(frame: real)
    requires frame >= 0.0
    ensures KeepsUp(frame) <==> frame <= MAX_TICKS as real * DT
  {
    hide After;
    if frame <= MAX_TICKS as real * DT {
      forall n: nat ensures Total(After(frame, n).ticks) == Times(n, frame * 60.0).Floor {
        ConstantFrames(frame, n);
      }
    } else {
      var extra := frame * 60.0 - 8.0;
      var n := Enough(extra);
      Overload(frame, n);
      EightMore(n, extra);
      hide Times;
      assert Times(n, frame * 60.0).Floor >= 8 * n + 1;
    }
  }

  lemma EightMore(n: nat, extra: real)
    ensures Times(n, extra + 8.0) == Times(n, extra) + 8.0 * n as real
  {
  }

  lemma Enough(extra: real) returns (n: nat)
    requires extra > 0.0
    ensures Times(n, extra) >= 1.0
  {
    n := (1.0 / extra).Floor + 1;
    assert n as real >= 1.0 / extra;
    assert n as real * extra >= 1.0 / extra * extra;
  }

  // ----- the harness's own frame -----

  function Elapsed(frameMs: real): real {
    if frameMs / 1000.0 < LONGEST_FRAME then frameMs / 1000.0 else LONGEST_FRAME
  }

  ghost predicate OneEach(ticks: seq<nat>) {
    forall i :: 0 <= i < |ticks| ==> ticks[i] == 1
  }

  lemma {:induction false} OneEachTotal(ticks: seq<nat>)
    requires forall i :: 0 <= i < |ticks| ==> ticks[i] >= 1
    ensures Total(ticks) >= |ticks|
    ensures OneEach(ticks) <==> Total(ticks) == |ticks|
  {
    if ticks != [] {
      OneEachTotal(ticks[..|ticks| - 1]);
    }
  }

  lemma OneMore(n: nat, extra: real)
    ensures Times(n, 1.0 + extra) == n as real + Times(n, extra)
  {
  }

  // Exactly one step a frame for as long as the picoseconds together stay below
  // one step: more than sixteen thousand million frames.
  lemma OneTickPerFrameExactly(n: nat)
    ensures OneEach(After(Elapsed(FRAME_MS), n).ticks) <==> n as real * 0.000_000_000_001 < DT
  {
    var frame := Elapsed(FRAME_MS);
    assert frame * 60.0 == 1.0 + 0.000_000_000_06;
    assert Times(n, 0.000_000_000_06) == n as real * 0.000_000_000_06;
    hide After, Elapsed, Times;
    var ticks := After(frame, n).ticks;
    TicksLength(frame, n);
    forall i | 0 <= i < n ensures ticks[i] >= 1 {
      EachFrame(frame, n, i);
      assert (frame * 60.0).Floor == 1;
    }
    ConstantFrames(frame, n);
    OneMore(n, 0.000_000_000_06);
    OneEachTotal(ticks);
  }

  // ----- the loop -----

  function Histogram(ticks: seq<nat>): map<nat, nat> {
    if ticks == [] then map[]
    else
      var h, k := Histogram(ticks[..|ticks| - 1]), ticks[|ticks| - 1];
      h[k := (if k in h then h[k] else 0) + 1]
  }

  lemma HistogramSnoc(ticks: seq<nat>, k: nat)
    ensures var h := Histogram(ticks);
            Histogram(ticks + [k]) == h[k := (if k in h then h[k] else 0) + 1]
  {
    assert (ticks + [k])[..|ticks|] == ticks;
  }

  lemma DrainedStep(accumulator: real, cap: nat)
    ensures Drained(accumulator, cap)
         == if accumulator >= DT && cap > 0 then 1 + Drained(accumulator - DT, cap - 1) else 0
  {
  }

  // The inner loop of one frame.
  method Drain(full: real) returns (accumulator: real, ticks: nat)
    ensures ticks == Drained(full, MAX_TICKS) && accumulator == full - ticks as real * DT
  {
    hide Drained;
    accumulator, ticks := full, 0;
    while accumulator >= DT && ticks < MAX_TICKS
      invariant ticks <= MAX_TICKS && accumulator == full - ticks as real * DT
      invariant ticks + Drained(accumulator, MAX_TICKS - ticks) == Drained(full, MAX_TICKS)
      decreases MAX_TICKS - ticks
    {
      DrainedStep(accumulator, MAX_TICKS - ticks);
      accumulator := accumulator - DT;
      ticks := ticks + 1;
    }
    DrainedStep(accumulator, MAX_TICKS - ticks);
  }

  lemma Beginning(frame: real)
    ensures After(frame, 0) == Clock(0.0, []) && Histogram([]) == map[]
  {
  }

  lemma ElapsedIs(frameMs: real, virtual: real, last: real, elapsed: real)
    requires virtual == last + frameMs
    requires elapsed == if LONGEST_FRAME < (virtual - last) / 1000.0 then LONGEST_FRAME else (virtual - last) / 1000.0
    ensures elapsed == Elapsed(frameMs)
  {
  }

  method SimulateAccumulator(frameMs: real, frames: int) returns (histogram: map<nat, nat>)
    ensures histogram == Histogram(After(Elapsed(frameMs), if frames > 0 then frames else 0).ticks)
  {
    hide After, Elapsed, Drained, Histogram;
    Beginning(Elapsed(frameMs));
    var virtual, last, accumulator := 0.0, 0.0, 0.0;
    histogram := map[];
    for i := 0 to if frames > 0 then frames else 0
      invariant last == virtual
      invariant accumulator == After(Elapsed(frameMs), i).accumulator
      invariant histogram == Histogram(After(Elapsed(frameMs), i).ticks)
    {
      ghost var before := After(Elapsed(frameMs), i);
      AfterStep(Elapsed(frameMs), i);
      virtual := virtual + frameMs;
      var elapsed := (virtual - last) / 1000.0;
      if LONGEST_FRAME < elapsed {
        elapsed := LONGEST_FRAME;
      }
      ElapsedIs(frameMs, virtual, last, elapsed);
      last := virtual;
      accumulator := accumulator + elapsed;
      var ticks;
      accumulator, ticks := Drain(accumulator);
      HistogramSnoc(before.ticks, ticks);
      histogram := histogram[ticks := (if ticks in histogram then histogram[ticks] else 0) + 1];
    }
  }

  // The histogram counts: so many frames took so many steps.
  lemma {:induction false} HistogramCounts(ticks: seq<nat>, k: nat)
    ensures k in Histogram(ticks) <==> k in ticks
    ensures k in ticks ==> Histogram(ticks)[k] == multiset(ticks)[k]
  {
    if ticks != [] {
      var init, last := ticks[..|ticks| - 1], ticks[|ticks| - 1];
      HistogramCounts(init, k);
      HistogramCounts(init, last);
      assert ticks == init + [last];
      assert last !in init ==> multiset(init)[last] == 0;
    }
  }

  lemma {:induction false} HistogramOfOnes(ticks: seq<nat>)
    requires OneEach(ticks) && ticks != []
    ensures Histogram(ticks) == map[1 := |ticks|]
  {
    if |ticks| > 1 {
      HistogramOfOnes(ticks[..|ticks| - 1]);
    } else {
      assert Histogram(ticks[..0]) == map[];
    }
  }

  // What the simulation reports for the harness's frame: a single bar of one
  // step, for exactly those lengths of run.
  lemma SingleBarExactly(n: nat)
    requires n > 0
    ensures Histogram(After(Elapsed(FRAME_MS), n).ticks) == map[1 := n] <==> n as real * 0.000_000_000_001 < DT
  {
    hide After, Elapsed, Histogram;
    var ticks := After(Elapsed(FRAME_MS), n).ticks;
    TicksLength(Elapsed(FRAME_MS), n);
    OneTickPerFrameExactly(n);
    if OneEach(ticks) {
      HistogramOfOnes(ticks);
    } else {
      var i :| 0 <= i < n && ticks[i] != 1;
      HistogramCounts(ticks, ticks[i]);
    }
  }
}
