// When the order of the records matters to the numbers a count reports. How many
// episodes there are and how long they are never depends on it; how many are of
// each kind does, where a slot has records of both leans on one tick.
module EpisodeKinds {
  import opened Results
  import opened EpisodeCount
  import opened EpisodeProperties
  import opened EpisodeOrder

  // The same records, both in tick order.
  ghost predicate Arranges(b: seq<Record>, a: seq<Record>) {
    Ascending(a, TickOf) && Ascending(b, TickOf) && multiset(a) == multiset(b)
  }

  ghost predicate SameTicks(a: seq<Record>, b: seq<Record>) {
    |a| == |b| && forall i :: 0 <= i < |a| ==> a[i].tick == b[i].tick
  }

  // Taking out one of the largest ticks takes the last tick away.
  lemma TakeLargest(b: seq<Record>, m: nat)
    requires Ascending(b, TickOf) && m < |b| && b[m].tick == b[|b| - 1].tick
    ensures Ascending(Without(b, m), TickOf) && SameTicks(Without(b, m), b[..|b| - 1])
  {
    var rest := Without(b, m);
    assert rest == b[..m] + b[m + 1..];
    forall i | 0 <= i < |rest| ensures rest[i].tick == b[i].tick {
      if i >= m {
        assert rest[i] == b[i + 1];
        assert i > m ==> TickOf(b[m]) <= TickOf(b[i]);
        assert i < |b| - 1 ==> TickOf(b[i]) <= TickOf(b[|b| - 1]);
        assert i + 1 < |b| - 1 ==> TickOf(b[i + 1]) <= TickOf(b[|b| - 1]);
        assert TickOf(b[m]) <= TickOf(b[i + 1]);
      }
    }
    hide Without;
    forall i, j | 0 <= i < j < |rest| ensures TickOf(rest[i]) <= TickOf(rest[j]) {
      assert TickOf(b[i]) <= TickOf(b[j]);
    }
  }

  lemma LastTick(a: seq<Record>, b: seq<Record>)
    requires Arranges(b, a) && a != [] && b != []
    ensures a[|a| - 1].tick == b[|b| - 1].tick
  {
    LastIsLargest(a, TickOf);
    LastIsLargest(b, TickOf);
    hide Ascending;
    assert a[|a| - 1] in multiset(a) && b[|b| - 1] in multiset(b);
  }

  lemma AddLastTick(a: seq<Record>, b: seq<Record>, rest: seq<Record>)
    requires |a| == |b| && a != [] && a[|a| - 1].tick == b[|b| - 1].tick
    requires SameTicks(a[..|a| - 1], rest) && SameTicks(rest, b[..|b| - 1])
    ensures SameTicks(a, b)
  {
    forall i | 0 <= i < |a| - 1 ensures a[i].tick == b[i].tick {
      assert a[..|a| - 1][i].tick == rest[i].tick == b[..|b| - 1][i].tick;
    }
  }

  lemma {:induction false} ArrangedTicks(a: seq<Record>, b: seq<Record>)
    requires Arranges(b, a)
    ensures SameTicks(a, b)
    decreases |a|
  {
    hide Ascending, SameTicks, Without;
    assert |a| == |multiset(a)| == |b|;
    if a == [] {
      assert SameTicks(a, b) by { NoTicks(a, b); }
    } else {
      var x := a[|a| - 1];
      assert x in multiset(a) && x in multiset(b);
      var m := Position(b, x);
      LastTick(a, b);
      Prefixes(a, TickOf);
      TakeLargest(b, m);
      var init, rest := a[..|a| - 1], Without(b, m);
      assert multiset(init) == multiset(a) - multiset{x};
      assert multiset(rest) == multiset(b) - multiset{x};
      ArrangedTicks(init, rest);
      AddLastTick(a, b, rest);
    }
  }

  lemma NoTicks(a: seq<Record>, b: seq<Record>)
    requires |a| == |b| == 0
    ensures SameTicks(a, b)
  {
  }

  lemma ColumnsArrange(a: seq<Record>, b: seq<Record>, slot: int)
    requires multiset(a) == multiset(b)
    ensures Arranges(Column(b, slot), Column(a, slot))
  {
    FilterSame(a, b, AtSlot(slot));
    SortSorts(Filter(a, AtSlot(slot)), TickOf);
    SortSorts(Filter(b, AtSlot(slot)), TickOf);
  }

  // ----- the lengths never depend on the order -----

  ghost predicate SameLengths(p: seq<seq<Record>>, q: seq<seq<Record>>) {
    |p| == |q| && forall k :: 0 <= k < |p| ==> |p[k]| == |q[k]|
  }

  lemma LastRun(rs: seq<Record>)
    requires rs != []
    ensures Runs(rs) != []
    ensures var run := Runs(rs)[|Runs(rs)| - 1]; run != [] && run[|run| - 1] == rs[|rs| - 1]
  {
    var runs, r := Runs(rs[..|rs| - 1]), rs[|rs| - 1];
    assert Runs(rs) == Extend(runs, r);
    hide Runs, Extend;
    if runs == [] {
      ExtendFirst(r);
    } else {
      assert runs == runs[..|runs| - 1] + [runs[|runs| - 1]];
      ExtendLast(runs[..|runs| - 1], runs[|runs| - 1], r);
    }
  }

  lemma ExtendSameLengths(p: seq<seq<Record>>, q: seq<seq<Record>>, r: Record, t: Record)
    requires SameLengths(p, q)
    requires p != [] ==> (Continues(p[|p| - 1], r) <==> Continues(q[|q| - 1], t))
    ensures SameLengths(Extend(p, r), Extend(q, t))
  {
    hide Continues;
  }

  lemma NoRuns()
    ensures Runs([]) == []
  {
  }

  // Whether the last record continues the last run is a matter of ticks.
  lemma ContinuesSame(p: seq<Record>, q: seq<Record>, r: Record, t: Record)
    requires SameTicks(p, q) && p != [] && r.tick == t.tick
    ensures Runs(p) != [] && Runs(q) != []
    ensures Continues(Runs(p)[|Runs(p)| - 1], r) <==> Continues(Runs(q)[|Runs(q)| - 1], t)
  {
    LastRun(p);
    LastRun(q);
    assert p[|p| - 1].tick == q[|q| - 1].tick;
    hide Runs;
  }

  lemma {:induction false} RunsSameLengths(a: seq<Record>, b: seq<Record>)
    requires SameTicks(a, b)
    ensures SameLengths(Runs(a), Runs(b))
    decreases |a|
  {
    NoRuns();
    if a != [] {
      var p, q := a[..|a| - 1], b[..|b| - 1];
      var r, t := a[|p|], b[|q|];
      assert SameTicks(p, q) && r.tick == t.tick;
      assert Runs(a) == Extend(Runs(p), r) && Runs(b) == Extend(Runs(q), t);
      hide Runs, SameLengths, SameTicks, Extend, Continues;
      RunsSameLengths(p, q);
      if p != [] {
        ContinuesSame(p, q, r, t);
      }
      ExtendSameLengths(Runs(p), Runs(q), r, t);
    }
  }

  lemma {:induction false} LengthsTell(p: seq<seq<Record>>, q: seq<seq<Record>>)
    requires SameLengths(p, q)
    ensures Longest(p) == Longest(q)
    decreases |p|
  {
    if p != [] {
      LengthsTell(p[..|p| - 1], q[..|q| - 1]);
    }
  }

  lemma {:induction false} SlotsSameLengths(a: seq<Record>, b: seq<Record>, slots: seq<int>)
    requires multiset(a) == multiset(b)
    ensures SameLengths(RunsOfSlots(a, slots), RunsOfSlots(b, slots))
  {
    if slots != [] {
      var slot := slots[|slots| - 1];
      SlotsSameLengths(a, b, slots[..|slots| - 1]);
      ColumnsArrange(a, b, slot);
      ArrangedTicks(Column(a, slot), Column(b, slot));
      RunsSameLengths(Column(a, slot), Column(b, slot));
    }
  }

  // Frames, leaning frames, the number of episodes and the longest never depend
  // on the order, clash or not: the episodes have the same lengths one by one.
  lemma FramesAndLengthsSame(a: seq<Record>, b: seq<Record>, poses: seq<string>)
    requires multiset(a) == multiset(b)
    ensures |Family(a, poses)| == |Family(b, poses)| && Leaning(Family(a, poses)) == Leaning(Family(b, poses))
    ensures SameLengths(Episodes(Family(a, poses)), Episodes(Family(b, poses)))
    ensures |Episodes(Family(a, poses))| == |Episodes(Family(b, poses))|
    ensures Longest(Episodes(Family(a, poses))) == Longest(Episodes(Family(b, poses)))
  {
    var p, q := Family(a, poses), Family(b, poses);
    FilterSame(a, b, InFamily(poses));
    SlotsSame(p, q);
    hide Sort, Slots, Filter, RunsOfSlots, Leaning;
    FramesSame(a, b, poses);
    SlotsSameLengths(p, q, Sort(Slots(p), Itself));
    LengthsTell(Episodes(p), Episodes(q));
  }

  // ----- the runs on either side of a tie -----

  // The end of the list that runs up to the tick.
  function Back(p: seq<Record>, tick: int): (run: seq<Record>)
    ensures |run| <= |p|
  {
    if p == [] || p[|p| - 1].tick + 1 != tick then [] else Back(p[..|p| - 1], tick - 1) + [p[|p| - 1]]
  }

  // The start of the list that runs on from the tick.
  function Ahead(q: seq<Record>, tick: int): (run: seq<Record>)
    ensures |run| <= |q|
  {
    if q == [] || q[0].tick != tick + 1 then [] else [q[0]] + Ahead(q[1..], tick + 1)
  }

  lemma {:induction false} RunsBack(p: seq<Record>, x: Record)
    ensures var run := Back(p, x.tick); Runs(p + [x]) == Runs(p[..|p| - |run|]) + [run + [x]]
    decreases p
  {
    hide Runs, Extend;
    RunsSnoc(p, x);
    if p == [] {
      assert Runs(p) == [] by { NoRuns(); }
      ExtendFirst(x);
      assert Runs(p[..0]) == [];
    } else {
      var init, w := p[..|p| - 1], p[|p| - 1];
      assert p == init + [w];
      RunsBack(init, w);
      var run := Back(init, w.tick);
      ExtendLast(Runs(init[..|init| - |run|]), run + [w], x);
      if w.tick + 1 == x.tick {
        assert p[..|p| - |run + [w]|] == init[..|init| - |run|];
      } else {
        assert p[..|p| - 0] == p && [] + [x] == [x];
      }
    }
  }

  lemma ExtendAfter(before: seq<seq<Record>>, runs: seq<seq<Record>>, r: Record)
    requires runs != []
    ensures Extend(before + runs, r) == before + Extend(runs, r)
  {
    var done, last := runs[..|runs| - 1], runs[|runs| - 1];
    assert runs == done + [last] && before + runs == (before + done) + [last];
    ExtendLast(done, last, r);
    ExtendLast(before + done, last, r);
    hide Extend;
    if Continues(last, r) {
      assert before + (done + [last + [r]]) == before + done + [last + [r]];
    } else {
      assert before + (done + [last] + [[r]]) == before + done + [last] + [[r]];
    }
  }

  lemma OpensRun(p: seq<Record>, r: Record)
    requires p != [] && p[|p| - 1].tick + 1 != r.tick
    ensures Runs(p + [r]) == Runs(p) + [[r]]
  {
    RunsSnoc(p, r);
    LastRun(p);
    hide Runs;
  }

  lemma {:induction false} RunsConcat(p: seq<Record>, q: seq<Record>)
    requires p != [] && q != [] && p[|p| - 1].tick + 1 != q[0].tick
    ensures Runs(p + q) == Runs(p) + Runs(q)
    decreases q
  {
    hide Runs, Extend;
    var init, z := q[..|q| - 1], q[|q| - 1];
    assert q == init + [z] && p + q == (p + init) + [z];
    RunsSnoc(init, z);
    if init == [] {
      assert p + init == p && q == [z];
      OpensRun(p, z);
      NoRuns();
      ExtendFirst(z);
    } else {
      RunsSnoc(p + init, z);
      RunsConcat(p, init);
      LastRun(init);
      ExtendAfter(Runs(p), Runs(init), z);
    }
  }

  lemma {:induction false} RunsAhead(s: seq<Record>, q: seq<Record>)
    requires Steps(s)
    ensures var run := Ahead(q, s[|s| - 1].tick); Runs(s + q) == [s + run] + Runs(q[|run|..])
    decreases q
  {
    hide Runs;
    RunsOfSteps(s);
    NoRuns();
    if q == [] {
      assert s + q == s && s + [] == s;
    } else if q[0].tick != s[|s| - 1].tick + 1 {
      RunsConcat(s, q);
      assert s + [] == s && q[0..] == q;
    } else {
      RunsAhead(s + [q[0]], q[1..]);
      var run := Ahead(q[1..], q[0].tick);
      assert s + q == (s + [q[0]]) + q[1..];
      assert s + ([q[0]] + run) == (s + [q[0]]) + run;
      assert q[1..][|run|..] == q[|[q[0]] + run|..];
    }
  }

  // ----- how one tick decides the kinds on either side -----

  // What is held on one side of a tick.
  datatype Side = Empty | Held(kind: Kind)

  function SideOf(run: seq<Record>): Side {
    if run == [] then Empty else Held(KindOf(run))
  }

  function Add(side: Side, leaned: bool): Kind {
    if side.Empty? || side.kind == (if leaned then Always else Never) then if leaned then Always else Never
    else Popped
  }

  lemma {:induction false} LeaningFirst(x: Record, run: seq<Record>)
    ensures Leaning([x] + run) == Leaning(run) + if x.leaned then 1 else 0
  {
    if run == [] {
      assert [x] + run == [] + [x];
      LeaningSnoc([], x);
    } else {
      var init, last := run[..|run| - 1], run[|run| - 1];
      LeaningFirst(x, init);
      assert run == init + [last] && [x] + run == ([x] + init) + [last];
      LeaningSnoc([x] + init, last);
      LeaningSnoc(init, last);
    }
  }

  lemma AddLast(run: seq<Record>, x: Record)
    ensures KindOf(run + [x]) == Add(SideOf(run), x.leaned)
  {
    LeaningSnoc(run, x);
    hide Leaning;
  }

  lemma AddFirst(x: Record, run: seq<Record>)
    ensures KindOf([x] + run) == Add(SideOf(run), x.leaned)
  {
    LeaningFirst(x, run);
    hide Leaning;
  }

  function One(kind: Kind, counted: Kind): nat {
    if kind == counted then 1 else 0
  }

  // How many of one slot's runs are of a kind.
  function KindsIn(c: seq<Record>, kind: Kind): nat {
    CountKind(Runs(c), kind)
  }

  lemma {:induction false} CountConcat(a: seq<seq<Record>>, b: seq<seq<Record>>, kind: Kind)
    ensures CountKind(a + b, kind) == CountKind(a, kind) + CountKind(b, kind)
    decreases b
  {
    hide KindOf;
    if b == [] {
      assert a + b == a;
    } else {
      var init := b[..|b| - 1];
      CountConcat(a, init, kind);
      assert (a + b)[..|a + b| - 1] == a + init;
    }
  }

  lemma CountOne(run: seq<Record>, kind: Kind)
    ensures CountKind([run], kind) == One(KindOf(run), kind)
  {
    hide KindOf;
    assert [run][..0] == [];
  }

  lemma TieSplit(p: seq<Record>, x: Record, y: Record, q: seq<Record>, kind: Kind)
    requires x.tick == y.tick
    ensures var before, after := Back(p, x.tick), Ahead(q, x.tick);
            KindsIn(p + [x] + ([y] + q), kind)
            == KindsIn(p[..|p| - |before|], kind) + One(Add(SideOf(before), x.leaned), kind)
             + One(Add(SideOf(after), y.leaned), kind) + KindsIn(q[|after|..], kind)
  {
    var before, after := Back(p, x.tick), Ahead(q, x.tick);
    RunsConcat(p + [x], [y] + q);
    RunsBack(p, x);
    RunsAhead([y], q);
    AddLast(before, x);
    AddFirst(y, after);
    hide Runs, KindOf, Add, SideOf, CountKind, Back, Ahead;
    CountConcat(Runs(p + [x]), Runs([y] + q), kind);
    CountConcat(Runs(p[..|p| - |before|]), [before + [x]], kind);
    CountConcat([[y] + after], Runs(q[|after|..]), kind);
    CountOne(before + [x], kind);
    CountOne([y] + after, kind);
  }

  // Two leans on one tick, swapped: the kinds stay the same exactly when the
  // leans are the same or the sides are.
  lemma SwapTable(l: Side, r: Side, a: bool, b: bool)
    ensures (forall kind :: One(Add(l, a), kind) + One(Add(r, b), kind) == One(Add(l, b), kind) + One(Add(r, a), kind))
       <==> a == b || l == r
  {
    if a != b && l != r {
      assert One(Add(l, a), Always) + One(Add(r, b), Always) != One(Add(l, b), Always) + One(Add(r, a), Always)
          || One(Add(l, a), Never) + One(Add(r, b), Never) != One(Add(l, b), Never) + One(Add(r, a), Never);
    }
  }

  // What is held on the side of the record at i the direction points to.
  function Walk(c: seq<Record>, i: int, d: int): Side
    requires (d == 1 || d == -1) && 0 <= i < |c|
    decreases if d == 1 then |c| - i else i
  {
    var j := i + d;
    if j < 0 || j >= |c| || c[j].tick != c[i].tick + d then Empty else Held(Add(Walk(c, j, d), c[j].leaned))
  }

  lemma {:induction false} WalkBack(c: seq<Record>, i: nat)
    requires i < |c|
    ensures SideOf(Back(c[..i], c[i].tick)) == Walk(c, i, -1)
  {
    hide KindOf, Add;
    if i > 0 && c[i - 1].tick + 1 == c[i].tick {
      WalkBack(c, i - 1);
      assert c[..i][..i - 1] == c[..i - 1] && c[..i][i - 1] == c[i - 1];
      AddLast(Back(c[..i - 1], c[i - 1].tick), c[i - 1]);
    }
  }

  lemma {:induction false} WalkAhead(c: seq<Record>, i: nat)
    requires i < |c|
    ensures SideOf(Ahead(c[i + 1..], c[i].tick)) == Walk(c, i, 1)
    decreases |c| - i
  {
    hide KindOf, Add;
    if i + 1 < |c| && c[i + 1].tick == c[i].tick + 1 {
      WalkAhead(c, i + 1);
      assert c[i + 1..][1..] == c[i + 2..];
      AddFirst(c[i + 1], Ahead(c[i + 2..], c[i + 1].tick));
    }
  }

  function Swapped(c: seq<Record>, i: nat, j: nat): seq<Record>
    requires i < |c| && j < |c|
  {
    c[i := c[j]][j := c[i]]
  }

  ghost predicate SameKinds(a: seq<Record>, b: seq<Record>) {
    forall kind :: KindsIn(a, kind) == KindsIn(b, kind)
  }

  predicate EvenTie(c: seq<Record>, i: nat)
    requires i + 1 < |c|
  {
    c[i].leaned == c[i + 1].leaned || Walk(c, i, -1) == Walk(c, i + 1, 1)
  }

  lemma TieKinds(p: seq<Record>, x: Record, y: Record, q: seq<Record>)
    requires x.tick == y.tick
    ensures SameKinds(p + [y] + ([x] + q), p + [x] + ([y] + q))
       <==> x.leaned == y.leaned || SideOf(Back(p, x.tick)) == SideOf(Ahead(q, x.tick))
  {
    var l, r := SideOf(Back(p, x.tick)), SideOf(Ahead(q, x.tick));
    SwapTable(l, r, x.leaned, y.leaned);
    forall kind
      ensures KindsIn(p + [y] + ([x] + q), kind) - KindsIn(p + [x] + ([y] + q), kind)
           == One(Add(l, y.leaned), kind) + One(Add(r, x.leaned), kind)
            - One(Add(l, x.leaned), kind) - One(Add(r, y.leaned), kind)
    {
      TieSplit(p, x, y, q, kind);
      TieSplit(p, y, x, q, kind);
    }
    hide KindsIn, One, Add, SideOf, Back, Ahead;
  }

  // Swapping two neighbours of one tick keeps how many runs there are of each
  // kind exactly when the tie is even.
  lemma SwapExactly(c: seq<Record>, i: nat)
    requires i + 1 < |c| && c[i].tick == c[i + 1].tick
    ensures SameKinds(Swapped(c, i, i + 1), c) <==> EvenTie(c, i)
  {
    var p, x, y, q := c[..i], c[i], c[i + 1], c[i + 2..];
    WalkBack(c, i);
    WalkAhead(c, i + 1);
    hide Walk, SideOf, Back, Ahead, KindsIn, SameKinds, Swapped;
    TieKinds(p, x, y, q);
    SwapParts(c, i);
  }

  lemma SwapParts(c: seq<Record>, i: nat)
    requires i + 1 < |c|
    ensures c == c[..i] + [c[i]] + ([c[i + 1]] + c[i + 2..])
    ensures Swapped(c, i, i + 1) == c[..i] + [c[i + 1]] + ([c[i]] + c[i + 2..])
  {
  }
}
