// What dropping records does to the episodes: it never merges two, and when it
// can make more of them pop.
module EpisodeDropping {
  import opened Results
  import opened EpisodeCount
  import opened EpisodeProperties
  import opened EpisodeOrder

  ghost predicate Within(e: seq<Record>, d: seq<Record>) {
    exists i: nat :: StartsAt(e, d, i)
  }

  predicate StartsAt(e: seq<Record>, d: seq<Record>, i: nat) {
    i + |e| <= |d| && d[i..i + |e|] == e
  }

  lemma {:induction false} PartIsUnique(part: seq<Record>, whole: seq<Record>)
    requires Unique(whole) && multiset(part) <= multiset(whole)
    ensures Unique(part)
  {
    forall i, j | 0 <= i < j < |part| ensures part[i].slot != part[j].slot || part[i].tick != part[j].tick {
      if part[i].slot == part[j].slot && part[i].tick == part[j].tick {
        PartIn(part, whole, part[i]);
        PartIn(part, whole, part[j]);
        SameRecord(whole, part[i], part[j]);
        TwoOf(part, i, j);
        OnceOnly(whole, part[i]);
        assert false;
      }
    }
  }

  lemma PartIn(part: seq<Record>, whole: seq<Record>, r: Record)
    requires multiset(part) <= multiset(whole) && r in part
    ensures r in whole
  {
    assert r in multiset(part) && r in multiset(whole);
  }

  lemma OnceOnly(rs: seq<Record>, r: Record)
    requires Unique(rs) && r in rs
    ensures multiset(rs)[r] == 1
  {
    var m :| 0 <= m < |rs| && rs[m] == r;
    assert rs == rs[..m] + [rs[m]] + rs[m + 1..];
    assert r !in rs[..m] && r !in rs[m + 1..];
    assert multiset(rs) == multiset(rs[..m]) + multiset{r} + multiset(rs[m + 1..]);
  }

  // Following an episode of the part, record by record, stays in one episode of
  // the whole.
  lemma {:induction false} Follows(whole: seq<Record>, e: seq<Record>, d: seq<Record>, i: nat, n: nat)
    requires Unique(whole) && IsEpisode(d, whole) && Steps(e) && n < |e|
    requires forall k :: 0 <= k < |e| ==> e[k] in whole && e[k].slot == e[0].slot
    requires i < |d| && d[i] == e[0]
    ensures i + n < |d| && d[i + n] == e[n]
    decreases n
  {
    if n > 0 {
      Follows(whole, e, d, i, n - 1);
      assert e[n].tick == e[n - 1].tick + 1;
      assert d[i + n - 1].slot == d[0].slot;
      hide Unique;
      if i + n < |d| {
        assert d[i + n].tick == d[i + n - 1].tick + 1 && d[i + n] in whole;
        SameRecord(whole, d[i + n], e[n]);
      } else {
        assert false;
      }
    }
  }

  // The episode of the whole a given record lies in.
  lemma HostOf(whole: seq<Record>, r: Record) returns (d: seq<Record>, i: nat)
    requires Unique(whole) && r in whole
    ensures d in Episodes(whole) && IsEpisode(d, whole) && i < |d| && d[i] == r
  {
    hide Episodes, Unique, Flatten, IsEpisode;
    EpisodesPartition(whole);
    assert r in multiset(whole) && r in multiset(Flatten(Episodes(whole)));
    var k := InFlatten(Episodes(whole), r);
    d := Episodes(whole)[k];
    EpisodesAreMaximalRuns(whole, d);
    i :| i < |d| && d[i] == r;
  }

  // Dropping records never merges episodes: each one left lies inside one
  // episode of the full list.
  lemma DroppingNeverMerges(whole: seq<Record>, part: seq<Record>, e: seq<Record>)
    requires Unique(whole) && multiset(part) <= multiset(whole) && e in Episodes(part)
    ensures exists d :: d in Episodes(whole) && Within(e, d)
  {
    hide Episodes, Unique, Flatten;
    PartIsUnique(part, whole);
    EpisodesAreMaximalRuns(part, e);
    forall k | 0 <= k < |e| ensures e[k] in whole {
      PartIn(part, whole, e[k]);
    }
    var d, i := HostOf(whole, e[0]);
    Follows(whole, e, d, i, |e| - 1);
    forall n | 0 <= n < |e| ensures d[i..i + |e|][n] == e[n] {
      Follows(whole, e, d, i, n);
    }
    assert StartsAt(e, d, i);
  }

  // ----- how many pop, as a set -----

  // What the count reports as popped.
  function Pops(family: seq<Record>): nat {
    CountKind(Episodes(family), Popped)
  }

  ghost function Popping(episodes: seq<seq<Record>>): set<seq<Record>> {
    set e | e in episodes && KindOf(e) == Popped
  }

  ghost predicate NoRepeat(episodes: seq<seq<Record>>) {
    forall i, j :: 0 <= i < j < |episodes| ==> episodes[i] != episodes[j]
  }

  lemma {:induction false} PopsAreASet(episodes: seq<seq<Record>>)
    requires NoRepeat(episodes)
    ensures CountKind(episodes, Popped) == |Popping(episodes)|
  {
    hide KindOf;
    if episodes == [] {
      assert Popping(episodes) == {};
    } else {
      var init, last := episodes[..|episodes| - 1], episodes[|episodes| - 1];
      assert episodes == init + [last] && last !in init;
      PopsAreASet(init);
      assert Popping(episodes) == Popping(init) + if KindOf(last) == Popped then {last} else {};
    }
  }

  lemma {:induction false} FlattenTwice(runs: seq<seq<Record>>, i: nat, j: nat, r: Record)
    requires i < j < |runs| && r in runs[i] && r in runs[j]
    ensures multiset(Flatten(runs))[r] >= 2
  {
    var init, last := runs[..|runs| - 1], runs[|runs| - 1];
    assert runs == init + [last];
    FlattenSnoc(init, last);
    assert multiset(Flatten(runs))[r] == multiset(Flatten(init))[r] + multiset(last)[r];
    hide Flatten;
    if j < |init| {
      FlattenTwice(init, i, j, r);
    } else {
      OfFlatten(init, i, r);
      assert r in multiset(Flatten(init)) && r in multiset(last);
    }
  }

  lemma EpisodesDiffer(family: seq<Record>)
    requires Unique(family)
    ensures NoRepeat(Episodes(family))
  {
    var es := Episodes(family);
    EpisodesPartition(family);
    hide Episodes, Unique, Flatten;
    forall i, j | 0 <= i < j < |es| ensures es[i] != es[j] {
      EpisodesAreMaximalRuns(family, es[i]);
      if es[i] == es[j] {
        FlattenTwice(es, i, j, es[i][0]);
        OnceOnly(family, es[i][0]);
        assert false;
      }
    }
  }

  // A one-to-one image in a set is no larger than the set.
  lemma {:induction false} NoMoreThan(s: set<seq<Record>>, t: set<seq<Record>>, f: map<seq<Record>, seq<Record>>)
    requires forall e :: e in s ==> e in f && f[e] in t
    requires forall d, e :: d in s && e in s && f[d] == f[e] ==> d == e
    ensures |s| <= |t|
  {
    if s != {} {
      var e :| e in s;
      NoMoreThan(s - {e}, t - {f[e]}, f);
    }
  }

  // ----- when the count cannot rise -----

  // The lean changes between this tick of the episode and the next.
  predicate Changes(e: seq<Record>, i: nat) {
    i + 1 < |e| && e[i].leaned != e[i + 1].leaned
  }

  // No episode has two changes of lean three ticks or more apart.
  ghost predicate ChangesAreClose(family: seq<Record>) {
    forall e, i: nat, j: nat :: e in Episodes(family) && Changes(e, i) && Changes(e, j) ==> j < i + 3
  }

  ghost predicate DroppingAddsNoPops(records: seq<Record>, poses: seq<string>) {
    forall part :: multiset(part) <= multiset(records) ==> Pops(Family(part, poses)) <= Pops(Family(records, poses))
  }

  lemma {:induction false} SomeChange(e: seq<Record>, i: nat, j: nat) returns (k: nat)
    requires i < j < |e| && e[i].leaned != e[j].leaned
    ensures i <= k < j && Changes(e, k)
    decreases j - i
  {
    if e[i].leaned != e[i + 1].leaned {
      k := i;
    } else {
      k := SomeChange(e, i + 1, j);
    }
  }

  lemma PoppedChanges(e: seq<Record>) returns (k: nat)
    requires KindOf(e) == Popped
    ensures Changes(e, k)
  {
    PoppedMeansBoth(e);
    var i :| 0 <= i < |e| && e[i].leaned;
    var j :| 0 <= j < |e| && !e[j].leaned;
    k := SomeChange(e, if i < j then i else j, if i < j then j else i);
  }

  lemma ChangesPop(e: seq<Record>, k: nat)
    requires Changes(e, k)
    ensures KindOf(e) == Popped
  {
    PoppedMeansBoth(e);
    assert e[k].leaned || e[k + 1].leaned;
  }

  lemma ChangesWithin(e: seq<Record>, d: seq<Record>, i: nat, k: nat)
    requires StartsAt(e, d, i) && Changes(e, k)
    ensures Changes(d, i + k) && k + 1 < |e|
  {
    assert d[i..i + |e|][k] == d[i + k] && d[i..i + |e|][k + 1] == d[i + k + 1];
  }

  // Two episodes of the part in one of the whole have a tick between them.
  lemma Apart(part: seq<Record>, whole: seq<Record>, d: seq<Record>, e: seq<Record>, i: nat, f: seq<Record>, j: nat)
    requires Unique(part) && IsEpisode(e, part) && IsEpisode(f, part) && e != f && IsEpisode(d, whole)
    requires StartsAt(e, d, i) && StartsAt(f, d, j) && i <= j
    ensures i + |e| < j
  {
    hide Unique;
    Ends(e, d, i);
    Ends(f, d, j);
    assert f[0] in part && e[0].slot == d[0].slot == f[0].slot;
    if j < i + |e| {
      assert d[i..i + |e|][j - i] == d[j];
      SharedRecord(part, e, j - i, f, 0);
    } else if j == i + |e| {
      assert false;
    }
  }

  lemma Ends(e: seq<Record>, d: seq<Record>, i: nat)
    requires StartsAt(e, d, i) && e != []
    ensures e[0] == d[i] && e[|e| - 1] == d[i + |e| - 1]
  {
    assert d[i..i + |e|][0] == d[i] && d[i..i + |e|][|e| - 1] == d[i + |e| - 1];
  }

  lemma OneHost(part: seq<Record>, whole: seq<Record>, d: seq<Record>, e: seq<Record>, f: seq<Record>)
    requires Unique(part) && ChangesAreClose(whole) && d in Episodes(whole) && IsEpisode(d, whole)
    requires IsEpisode(e, part) && IsEpisode(f, part) && KindOf(e) == Popped && KindOf(f) == Popped
    requires Within(e, d) && Within(f, d)
    ensures e == f
  {
    hide Unique, Episodes, KindOf;
    if e != f {
      var i: nat :| StartsAt(e, d, i);
      var j: nat :| StartsAt(f, d, j);
      var k := PoppedChanges(e);
      var l := PoppedChanges(f);
      ChangesWithin(e, d, i, k);
      ChangesWithin(f, d, j, l);
      if i <= j {
        Apart(part, whole, d, e, i, f, j);
      } else {
        Apart(part, whole, d, f, j, e, i);
      }
      assert false;
    }
  }

  lemma HostPops(whole: seq<Record>, part: seq<Record>, e: seq<Record>) returns (d: seq<Record>)
    requires Unique(whole) && multiset(part) <= multiset(whole) && e in Episodes(part) && KindOf(e) == Popped
    ensures d in Popping(Episodes(whole)) && Within(e, d)
  {
    hide Episodes, Unique, KindOf;
    DroppingNeverMerges(whole, part, e);
    d :| d in Episodes(whole) && Within(e, d);
    var i: nat :| StartsAt(e, d, i);
    var k := PoppedChanges(e);
    ChangesWithin(e, d, i, k);
    ChangesPop(d, i + k);
  }

  // Popped pieces lie in different popped episodes of the whole.
  lemma CloseChangesAddNone(whole: seq<Record>, part: seq<Record>)
    requires Unique(whole) && multiset(part) <= multiset(whole) && ChangesAreClose(whole)
    ensures Pops(part) <= Pops(whole)
  {
    hide Episodes, Unique, KindOf, Within, ChangesAreClose, IsEpisode;
    PartIsUnique(part, whole);
    EpisodesDiffer(part);
    EpisodesDiffer(whole);
    var pieces, hosts := Popping(Episodes(part)), Popping(Episodes(whole));
    var f := map[];
    var todo := pieces;
    while todo != {}
      invariant todo <= pieces
      invariant forall e :: e in pieces - todo ==> e in f && f[e] in hosts && Within(e, f[e])
    {
      var e :| e in todo;
      var d := HostPops(whole, part, e);
      f := f[e := d];
      todo := todo - {e};
    }
    forall d, e | d in pieces && e in pieces && f[d] == f[e] ensures d == e {
      EpisodesAreMaximalRuns(part, d);
      EpisodesAreMaximalRuns(part, e);
      EpisodesAreMaximalRuns(whole, f[d]);
      OneHost(part, whole, f[d], d, e);
    }
    NoMoreThan(pieces, hosts, f);
    PopsAreASet(Episodes(part));
    PopsAreASet(Episodes(whole));
  }

  // ----- when it can rise -----

  // One record lost out of an episode: what stays of the list.
  ghost predicate Loses(whole: seq<Record>, part: seq<Record>, lost: Record) {
    && multiset(whole) == multiset(part) + multiset{lost}
    && Unique(whole)
  }

  lemma LosesOne(whole: seq<Record>, part: seq<Record>, lost: Record, r: Record)
    requires Loses(whole, part, lost)
    ensures r in part <==> r in whole && r != lost
  {
    assert r in part <==> r in multiset(part);
    assert r in whole <==> r in multiset(whole);
    if r == lost && r in whole {
      OnceOnly(whole, r);
    }
  }

  lemma OthersStay(whole: seq<Record>, part: seq<Record>, e: seq<Record>, n: nat, d: seq<Record>)
    requires n < |e| && Loses(whole, part, e[n]) && IsEpisode(e, whole) && IsEpisode(d, whole) && d != e
    ensures IsEpisode(d, part)
  {
    hide Loses, Steps;
    assert Unique(whole) && Steps(d) by { UniqueOf(whole, part, e[n]); }
    StepsNonempty(d);
    forall i | 0 <= i < |d| ensures d[i] in part {
      LosesOne(whole, part, e[n], d[i]);
      if d[i] == e[n] {
        SharedRecord(whole, d, i, e, n);
      }
    }
    forall r | r in part ensures r in whole {
      LosesOne(whole, part, e[n], r);
    }
  }

  lemma UniqueOf(whole: seq<Record>, part: seq<Record>, lost: Record)
    requires Loses(whole, part, lost)
    ensures Unique(whole)
  {
  }

  // A stretch of the episode up to the lost record, or from just after it.
  lemma StretchStays(whole: seq<Record>, part: seq<Record>, e: seq<Record>, n: nat, a: nat, b: nat)
    requires n < |e| && Loses(whole, part, e[n]) && IsEpisode(e, whole)
    requires a < b && ((a == 0 && b == n) || (a == n + 1 && b == |e|))
    ensures IsEpisode(e[a..b], part)
  {
    var d := e[a..b];
    UniqueOf(whole, part, e[n]);
    hide Loses, Unique;
    forall i | 0 <= i < |e| ensures e[i].tick == e[0].tick + i {
      StepsTick(e, i);
    }
    forall i | 0 <= i < |d| ensures d[i].slot == d[0].slot && d[i] in part {
      assert d[i] == e[a + i];
      LosesOne(whole, part, e[n], d[i]);
    }
    forall r | r in part && r.slot == d[0].slot ensures r.tick != d[0].tick - 1 && r.tick != d[|d| - 1].tick + 1 {
      LosesOne(whole, part, e[n], r);
      if r.tick == e[n].tick {
        SameRecord(whole, r, e[n]);
      }
    }
  }

  lemma ChangeInStretch(e: seq<Record>, a: nat, b: nat, k: nat)
    requires a <= k && k + 1 < b <= |e| && Changes(e, k)
    ensures Changes(e[a..b], k - a)
  {
  }

  // The two stretches are episodes of what is left, and popped.
  lemma StretchesPop(whole: seq<Record>, part: seq<Record>, e: seq<Record>, i: nat, j: nat)
    requires Changes(e, i) && Changes(e, j) && i + 3 <= j
    requires Loses(whole, part, e[i + 2]) && IsEpisode(e, whole) && Unique(part)
    ensures e[0..i + 2] in Popping(Episodes(part)) && e[i + 3..|e|] in Popping(Episodes(part))
  {
    var n := i + 2;
    hide Loses, Unique, KindOf, Episodes;
    StretchStays(whole, part, e, n, 0, n);
    StretchStays(whole, part, e, n, n + 1, |e|);
    ChangeInStretch(e, 0, n, i);
    ChangeInStretch(e, n + 1, |e|, j);
    ChangesPop(e[0..n], i);
    ChangesPop(e[n + 1..|e|], j - n - 1);
    hide Changes, IsEpisode;
    EpisodesAreMaximalRuns(part, e[0..n]);
    EpisodesAreMaximalRuns(part, e[n + 1..|e|]);
  }

  lemma OtherPopStays(whole: seq<Record>, part: seq<Record>, e: seq<Record>, n: nat, d: seq<Record>)
    requires 0 < n && n + 1 < |e| && Loses(whole, part, e[n]) && Unique(whole) && Unique(part)
    requires IsEpisode(e, whole) && d in Popping(Episodes(whole)) && d != e
    ensures d in Popping(Episodes(part)) && d != e[0..n] && d != e[n + 1..|e|]
  {
    hide Loses, Unique, KindOf, Episodes, IsEpisode;
    EpisodesAreMaximalRuns(whole, d);
    OthersStay(whole, part, e, n, d);
    EpisodesAreMaximalRuns(part, d);
    NotAStretch(whole, e, n, d);
  }

  lemma LosingOneAddsAPop(whole: seq<Record>, part: seq<Record>, e: seq<Record>, i: nat, j: nat)
    requires Changes(e, i) && Changes(e, j) && i + 3 <= j
    requires Loses(whole, part, e[i + 2]) && IsEpisode(e, whole)
    ensures Pops(part) > Pops(whole)
  {
    var n := i + 2;
    var left, right := e[0..n], e[n + 1..|e|];
    UniqueOf(whole, part, e[n]);
    PartOf(whole, part, e[n]);
    PartIsUnique(part, whole);
    hide Loses, Unique, KindOf, Episodes;
    StretchesPop(whole, part, e, i, j);
    ChangesPop(e, i);
    LeftRight(e, n);
    hide Changes, IsEpisode;
    EpisodesAreMaximalRuns(whole, e);
    EpisodesDiffer(part);
    EpisodesDiffer(whole);
    PopsAreASet(Episodes(part));
    PopsAreASet(Episodes(whole));
    var before, after := Popping(Episodes(whole)), Popping(Episodes(part));
    assert e in before;
    forall d | d in before - {e} ensures d in after - {left, right} {
      OtherPopStays(whole, part, e, n, d);
    }
    hide Popping;
    SetsGrow(before, after, e, left, right);
  }

  lemma PartOf(whole: seq<Record>, part: seq<Record>, lost: Record)
    requires Loses(whole, part, lost)
    ensures multiset(part) <= multiset(whole)
  {
  }

  lemma LeftRight(e: seq<Record>, n: nat)
    requires 0 < n && n + 1 < |e| && Steps(e)
    ensures e[0..n] != e[n + 1..|e|]
  {
    StepsTick(e, n + 1);
    assert e[0..n][0] == e[0] && e[n + 1..|e|][0] == e[n + 1];
  }

  lemma NotAStretch(whole: seq<Record>, e: seq<Record>, n: nat, d: seq<Record>)
    requires Unique(whole) && IsEpisode(e, whole) && IsEpisode(d, whole) && d != e && 0 < n && n + 1 < |e|
    ensures d != e[0..n] && d != e[n + 1..|e|]
  {
    hide Unique, IsEpisode;
    if d == e[0..n] {
      SharedRecord(whole, d, 0, e, 0);
    }
    if d == e[n + 1..|e|] {
      SharedRecord(whole, d, 0, e, n + 1);
    }
  }

  lemma SetsGrow<T>(before: set<T>, after: set<T>, x: T, y: T, z: T)
    requires x in before && y in after && z in after && y != z
    requires forall d :: d in before - {x} ==> d in after - {y, z}
    ensures |after| > |before|
  {
    var rest := before - {x};
    assert |rest| == |before| - 1;
    assert rest + {y, z} <= after;
    assert |rest + {y, z}| == |rest| + 2;
    Smaller(rest + {y, z}, after);
  }

  lemma {:induction false} Smaller<T>(s: set<T>, t: set<T>)
    requires s <= t
    ensures |s| <= |t|
  {
    if s != {} {
      var e :| e in s;
      Smaller(s - {e}, t - {e});
    }
  }

  lemma FarChangesAddOne(whole: seq<Record>)
    requires Unique(whole) && !ChangesAreClose(whole)
    ensures exists part :: multiset(part) <= multiset(whole) && Pops(part) > Pops(whole)
  {
    var e, i: nat, j: nat :| e in Episodes(whole) && Changes(e, i) && Changes(e, j) && j >= i + 3;
    hide Episodes, Unique, KindOf, Pops;
    EpisodesAreMaximalRuns(whole, e);
    assert e[i + 2] in whole;
    var m :| 0 <= m < |whole| && whole[m] == e[i + 2];
    var part := Without(whole, m);
    LosingOneAddsAPop(whole, part, e, i, j);
  }

  lemma PartOfFamily(part: seq<Record>, records: seq<Record>, poses: seq<string>)
    requires multiset(part) <= multiset(records)
    ensures multiset(Family(part, poses)) <= multiset(Family(records, poses))
  {
    var p, q := Family(part, poses), Family(records, poses);
    forall r: Record ensures multiset(p)[r] <= multiset(q)[r] {
      FilterCounts(part, InFamily(poses), r);
      FilterCounts(records, InFamily(poses), r);
    }
  }

  lemma FamilyIsPart(part: seq<Record>, records: seq<Record>, poses: seq<string>)
    requires multiset(part) <= multiset(Family(records, poses))
    ensures Family(part, poses) == part && multiset(part) <= multiset(records)
  {
    forall r | r in part ensures InFamily(poses)(r) {
      PartIn(part, Family(records, poses), r);
      FilterIn(records, InFamily(poses), r);
    }
    FilterAll(part, InFamily(poses));
    forall r: Record ensures multiset(part)[r] <= multiset(records)[r] {
      FilterCounts(records, InFamily(poses), r);
    }
  }

  // No choice of dropped records makes more episodes of a family pop exactly
  // when each episode has its changes of lean within two ticks of each other.
  lemma DroppingAddsNoPopsExactly(records: seq<Record>, poses: seq<string>)
    requires Unique(Family(records, poses))
    ensures DroppingAddsNoPops(records, poses) <==> ChangesAreClose(Family(records, poses))
  {
    var family := Family(records, poses);
    hide Unique, Pops, Filter;
    if ChangesAreClose(family) {
      hide ChangesAreClose;
      forall part | multiset(part) <= multiset(records) ensures Pops(Family(part, poses)) <= Pops(family) {
        PartOfFamily(part, records, poses);
        CloseChangesAddNone(family, Family(part, poses));
      }
    } else {
      hide ChangesAreClose;
      FarChangesAddOne(family);
      var part :| multiset(part) <= multiset(family) && Pops(part) > Pops(family);
      FamilyIsPart(part, records, poses);
    }
  }

  lemma FarChanges(tips: seq<Record>)
    requires Unique(tips) && IsEpisode(tips, tips) && TipsOfOneSlot(tips) && Changes(tips, 0) && Changes(tips, 3)
    ensures !DroppingAddsNoPops(tips, TIP_POSES)
  {
    FilterAll(tips, InFamily(TIP_POSES));
    hide Filter, Unique, Episodes, IsEpisode, TipsOfOneSlot, Changes;
    EpisodesAreMaximalRuns(tips, tips);
    FarApart(tips, tips, 0, 3);
    hide ChangesAreClose;
    DroppingAddsNoPopsExactly(tips, TIP_POSES);
  }

  lemma FarApart(family: seq<Record>, e: seq<Record>, i: nat, j: nat)
    requires e in Episodes(family) && Changes(e, i) && Changes(e, j) && i + 3 <= j
    ensures !ChangesAreClose(family)
  {
  }

  lemma FiveTips(tips: seq<Record>)
    requires |tips| == 5 && forall i :: 0 <= i < 5 ==> tips[i] == Tip(i + 1, i == 0 || i == 4)
    ensures Unique(tips) && IsEpisode(tips, tips) && TipsOfOneSlot(tips) && Changes(tips, 0) && Changes(tips, 3)
  {
    assert Steps(tips);
  }

  // So the count can rise: the tips of five ticks, leaning on the first and the
  // last, pop once, and twice when the middle one is lost.
  lemma DroppingCanAddPops()
    ensures exists records :: Unique(records) && !DroppingAddsNoPops(records, TIP_POSES)
  {
    var tips := [Tip(1, true), Tip(2, false), Tip(3, false), Tip(4, false), Tip(5, true)];
    hide DroppingAddsNoPops, Unique, IsEpisode, TipsOfOneSlot, Changes;
    FiveTips(tips);
    FarChanges(tips);
  }
}
