// The episodes a count walks are exactly the maximal runs of the family: every
// one of them, nothing else, each record once, in whatever order they came.
module EpisodeProperties {
  import opened Results
  import opened EpisodeCount

  // No slot has two records for one tick.
  ghost predicate Unique(rs: seq<Record>) {
    forall i, j :: 0 <= i < j < |rs| ==> rs[i].slot != rs[j].slot || rs[i].tick != rs[j].tick
  }

  ghost predicate Steps(run: seq<Record>) {
    run != [] && forall i :: 0 < i < |run| ==> run[i].tick == run[i - 1].tick + 1
  }

  function Flatten(runs: seq<seq<Record>>): seq<Record> {
    if runs == [] then [] else Flatten(runs[..|runs| - 1]) + runs[|runs| - 1]
  }

  // A run with nothing of its slot on either side.
  ghost predicate IsEpisode(e: seq<Record>, family: seq<Record>) {
    && Steps(e)
    && (forall i :: 0 <= i < |e| ==> e[i].slot == e[0].slot && e[i] in family)
    && forall r :: r in family && r.slot == e[0].slot ==>
         r.tick != e[0].tick - 1 && r.tick != e[|e| - 1].tick + 1
  }

  // ----- one slot -----

  ghost predicate Rising(rs: seq<Record>) {
    forall i, j :: 0 <= i < j < |rs| ==> rs[i].tick < rs[j].tick
  }

  // The cut of a rising list: runs, in order, with a gap after each.
  ghost predicate Cut(runs: seq<seq<Record>>, rs: seq<Record>) {
    && Flatten(runs) == rs
    && (forall k :: 0 <= k < |runs| ==> Steps(runs[k]))
    && (forall k :: 0 < k < |runs| ==> runs[k - 1][|runs[k - 1]| - 1].tick + 1 < runs[k][0].tick)
  }

  lemma FlattenSnoc(runs: seq<seq<Record>>, run: seq<Record>)
    ensures Flatten(runs + [run]) == Flatten(runs) + run
  {
    assert (runs + [run])[..|runs|] == runs;
  }

  // Cutting loses no record, whatever the ticks.
  lemma {:induction false} FlattenRuns(rs: seq<Record>)
    ensures Flatten(Runs(rs)) == rs
  {
    if rs != [] {
      var init, r := rs[..|rs| - 1], rs[|rs| - 1];
      var runs := Runs(init);
      FlattenRuns(init);
      assert rs == init + [r];
      if runs == [] {
        FlattenSnoc(runs, [r]);
      } else {
        var done, last := runs[..|runs| - 1], runs[|runs| - 1];
        assert runs == done + [last];
        ExtendLast(done, last, r);
        FlattenSnoc(done, last);
        FlattenSnoc(done, last + [r]);
        FlattenSnoc(runs, [r]);
      }
    }
  }

  lemma FlattenLast(runs: seq<seq<Record>>)
    requires runs != [] && Steps(runs[|runs| - 1])
    ensures Flatten(runs) != [] && Flatten(runs)[|Flatten(runs)| - 1] == runs[|runs| - 1][|runs[|runs| - 1]| - 1]
  {
  }

  lemma LongerLast(done: seq<seq<Record>>, last: seq<Record>, rs: seq<Record>, r: Record)
    requires Cut(done + [last], rs) && Continues(last, r)
    ensures Cut(done + [last + [r]], rs + [r])
  {
    FlattenSnoc(done, last);
    FlattenSnoc(done, last + [r]);
    hide Flatten;
    var before, after := done + [last], done + [last + [r]];
    assert Flatten(after) == rs + [r];
    assert before[|done|] == last && after[|done|] == last + [r];
    assert forall k :: 0 <= k < |done| ==> after[k] == before[k];
  }

  lemma NewLast(runs: seq<seq<Record>>, rs: seq<Record>, r: Record)
    requires Cut(runs, rs)
    requires runs != [] ==> runs[|runs| - 1][|runs[|runs| - 1]| - 1].tick + 1 < r.tick
    ensures Cut(runs + [[r]], rs + [r])
  {
    FlattenSnoc(runs, [r]);
    hide Flatten;
    assert forall k :: 0 <= k < |runs| ==> (runs + [[r]])[k] == runs[k];
  }

  lemma ExtendCuts(runs: seq<seq<Record>>, rs: seq<Record>, r: Record)
    requires Cut(runs, rs) && Rising(rs + [r])
    ensures Cut(Extend(runs, r), rs + [r])
  {
    if runs == [] {
      NewLast(runs, rs, r);
    } else {
      var done, last := runs[..|runs| - 1], runs[|runs| - 1];
      assert runs == done + [last];
      FlattenLast(runs);
      assert rs[|rs| - 1] == (rs + [r])[|rs| - 1] && r == (rs + [r])[|rs|];
      ExtendLast(done, last, r);
      hide Flatten, Extend;
      if Continues(last, r) {
        LongerLast(done, last, rs, r);
      } else {
        NewLast(runs, rs, r);
      }
    }
  }

  lemma {:induction false} RunsCut(rs: seq<Record>)
    requires Rising(rs)
    ensures Cut(Runs(rs), rs)
  {
    if rs != [] {
      var init, r := rs[..|rs| - 1], rs[|rs| - 1];
      assert rs == init + [r];
      RunsCut(init);
      hide Cut;
      ExtendCuts(Runs(init), init, r);
    }
  }

  lemma {:induction false} InFlatten(runs: seq<seq<Record>>, r: Record) returns (k: nat)
    requires r in Flatten(runs)
    ensures k < |runs| && r in runs[k]
  {
    var init := runs[..|runs| - 1];
    if r in runs[|runs| - 1] {
      k := |runs| - 1;
    } else {
      k := InFlatten(init, r);
    }
  }

  lemma {:induction false} OfFlatten(runs: seq<seq<Record>>, k: nat, r: Record)
    requires k < |runs| && r in runs[k]
    ensures r in Flatten(runs)
  {
    if k < |runs| - 1 {
      OfFlatten(runs[..|runs| - 1], k, r);
    }
  }

  lemma {:induction false} StepsTick(run: seq<Record>, i: nat)
    requires Steps(run) && i < |run|
    ensures run[i].tick == run[0].tick + i
  {
    if i > 0 {
      StepsTick(run, i - 1);
    }
  }

  // Earlier runs end before later ones begin, with a gap.
  lemma {:induction false} RunsApart(runs: seq<seq<Record>>, rs: seq<Record>, j: nat, k: nat)
    requires Cut(runs, rs) && j < k < |runs|
    ensures runs[j][|runs[j]| - 1].tick + 1 < runs[k][0].tick
    decreases k
  {
    hide Flatten;
    if j < k - 1 {
      RunsApart(runs, rs, j, k - 1);
      StepsTick(runs[k - 1], |runs[k - 1]| - 1);
    }
  }

  lemma CutIsMaximal(runs: seq<seq<Record>>, rs: seq<Record>, k: nat, r: Record)
    requires Cut(runs, rs) && k < |runs| && r in rs
    ensures r.tick != runs[k][0].tick - 1 && r.tick != runs[k][|runs[k]| - 1].tick + 1
  {
    var m := InFlatten(runs, r);
    hide Flatten;
    var i :| 0 <= i < |runs[m]| && runs[m][i] == r;
    StepsTick(runs[m], i);
    StepsTick(runs[m], |runs[m]| - 1);
    if m < k {
      RunsApart(runs, rs, m, k);
      StepsTick(runs[k], |runs[k]| - 1);
    } else if k < m {
      RunsApart(runs, rs, k, m);
      StepsTick(runs[k], |runs[k]| - 1);
    }
  }

  // ----- filters and multisets -----

  lemma {:induction false} FilterCounts(rs: seq<Record>, keep: Record -> bool, r: Record)
    ensures multiset(Filter(rs, keep))[r] == if keep(r) then multiset(rs)[r] else 0
  {
    if rs != [] {
      FilterCounts(rs[..|rs| - 1], keep, r);
      assert rs == rs[..|rs| - 1] + [rs[|rs| - 1]];
    }
  }

  lemma FilterIn(rs: seq<Record>, keep: Record -> bool, r: Record)
    ensures r in Filter(rs, keep) <==> r in rs && keep(r)
  {
    FilterCounts(rs, keep, r);
    assert r in multiset(Filter(rs, keep)) <==> r in Filter(rs, keep);
    assert r in multiset(rs) <==> r in rs;
  }

  lemma {:induction false} FilterUnique(rs: seq<Record>, keep: Record -> bool)
    requires Unique(rs)
    ensures Unique(Filter(rs, keep))
  {
    if rs != [] {
      var init, last := rs[..|rs| - 1], rs[|rs| - 1];
      FilterUnique(init, keep);
      var kept := Filter(init, keep);
      forall i | 0 <= i < |kept| ensures kept[i].slot != last.slot || kept[i].tick != last.tick {
        FilterIn(init, keep, kept[i]);
      }
    }
  }

  // The sorted records of one slot.
  function Column(family: seq<Record>, slot: int): seq<Record> {
    Sort(Filter(family, AtSlot(slot)), TickOf)
  }

  lemma ColumnFacts(family: seq<Record>, slot: int)
    ensures multiset(Column(family, slot)) == multiset(Filter(family, AtSlot(slot)))
    ensures forall r :: r in Column(family, slot) <==> r in family && r.slot == slot
  {
    SortSorts(Filter(family, AtSlot(slot)), TickOf);
    forall r ensures r in Column(family, slot) <==> r in family && r.slot == slot {
      FilterIn(family, AtSlot(slot), r);
      assert r in multiset(Column(family, slot)) <==> r in Column(family, slot);
      assert r in multiset(Filter(family, AtSlot(slot))) <==> r in Filter(family, AtSlot(slot));
    }
  }

  lemma {:induction false} DistinctTicks(rs: seq<Record>, slot: int)
    requires Unique(rs) && forall r :: r in rs ==> r.slot == slot
    ensures KeysDiffer(rs, TickOf)
  {
    forall i, j | 0 <= i < j < |rs| ensures TickOf(rs[i]) != TickOf(rs[j]) {
      assert rs[i] in rs && rs[j] in rs;
    }
  }

  // A rearrangement of different ticks has different ticks.
  lemma SameDiffer(a: seq<Record>, b: seq<Record>)
    requires KeysDiffer(a, TickOf) && multiset(a) == multiset(b)
    ensures KeysDiffer(b, TickOf)
  {
    forall i, j | 0 <= i < j < |b| ensures TickOf(b[i]) != TickOf(b[j]) {
      if TickOf(b[i]) == TickOf(b[j]) {
        TwoOf(b, i, j);
        assert b[i] in multiset(a) && b[j] in multiset(a) by {
          assert b[i] in multiset(b) && b[j] in multiset(b);
        }
        var m :| 0 <= m < |a| && a[m] == b[i];
        var n :| 0 <= n < |a| && a[n] == b[j];
        assert m == n;
        OneOf(a, m);
        assert false;
      }
    }
  }

  lemma TwoOf(b: seq<Record>, i: nat, j: nat)
    requires i < j < |b|
    ensures b[i] == b[j] ==> multiset(b)[b[i]] >= 2
  {
    assert b == b[..j] + b[j..];
    assert b[i] in multiset(b[..j]) && b[j] in multiset(b[j..]) by {
      assert b[..j][i] == b[i] && b[j..][0] == b[j];
    }
  }

  lemma OneOf(a: seq<Record>, m: nat)
    requires m < |a| && KeysDiffer(a, TickOf)
    ensures multiset(a)[a[m]] == 1
  {
    assert a == a[..m] + [a[m]] + a[m + 1..];
    assert a[m] !in a[..m] && a[m] !in a[m + 1..];
    assert multiset(a) == multiset(a[..m]) + multiset{a[m]} + multiset(a[m + 1..]);
  }

  lemma ColumnRises(family: seq<Record>, slot: int)
    requires Unique(family)
    ensures Rising(Column(family, slot)) && KeysDiffer(Column(family, slot), TickOf)
  {
    var kept := Filter(family, AtSlot(slot));
    FilterUnique(family, AtSlot(slot));
    forall r | r in kept ensures r.slot == slot {
      FilterIn(family, AtSlot(slot), r);
    }
    DistinctTicks(kept, slot);
    SortSorts(kept, TickOf);
    SameDiffer(kept, Column(family, slot));
    var c := Column(family, slot);
    hide Sort, Filter;
    forall i, j | 0 <= i < j < |c| ensures c[i].tick < c[j].tick {
      assert TickOf(c[i]) <= TickOf(c[j]) && TickOf(c[i]) != TickOf(c[j]);
    }
  }

  // ----- all slots -----

  lemma {:induction false} FlattenConcat(a: seq<seq<Record>>, b: seq<seq<Record>>)
    ensures Flatten(a + b) == Flatten(a) + Flatten(b)
    decreases b
  {
    if b == [] {
      assert a + b == a;
    } else {
      var init, last := b[..|b| - 1], b[|b| - 1];
      FlattenConcat(a, init);
      assert b == init + [last] && a + b == (a + init) + [last];
      FlattenSnoc(a + init, last);
      FlattenSnoc(init, last);
    }
  }

  ghost predicate Distinct(slots: seq<int>) {
    forall i, j :: 0 <= i < j < |slots| ==> slots[i] != slots[j]
  }

  lemma {:induction false} SlotsFacts(rs: seq<Record>)
    ensures Distinct(Slots(rs))
    ensures forall slot :: slot in Slots(rs) <==> exists r :: r in rs && r.slot == slot
  {
    if rs != [] {
      var init, last := rs[..|rs| - 1], rs[|rs| - 1];
      SlotsFacts(init);
      assert forall r :: r in rs <==> r in init || r == last;
    }
  }

  lemma {:induction false} DistinctCounts(slots: seq<int>, slot: int)
    requires Distinct(slots)
    ensures multiset(slots)[slot] == if slot in slots then 1 else 0
  {
    if slots != [] {
      var init, last := slots[..|slots| - 1], slots[|slots| - 1];
      assert slots == init + [last];
      DistinctCounts(init, slot);
    }
  }

  lemma TwoSlots(slots: seq<int>, i: nat, j: nat)
    requires i < j < |slots| && slots[i] == slots[j]
    ensures multiset(slots)[slots[i]] >= 2
  {
    assert slots == slots[..j] + slots[j..];
    assert slots[..j][i] == slots[i] && slots[j..][0] == slots[j];
    assert slots[i] in multiset(slots[..j]) && slots[i] in multiset(slots[j..]);
  }

  // Sorting keeps slots distinct.
  lemma SortedSlots(rs: seq<Record>)
    ensures Distinct(Sort(Slots(rs), Itself))
    ensures forall slot :: slot in Sort(Slots(rs), Itself) <==> slot in Slots(rs)
  {
    var slots, sorted := Slots(rs), Sort(Slots(rs), Itself);
    SlotsFacts(rs);
    SortSorts(slots, Itself);
    hide Sort, Slots;
    forall slot ensures slot in sorted <==> slot in slots {
      assert slot in multiset(sorted) <==> slot in multiset(slots);
    }
    forall i, j | 0 <= i < j < |sorted| ensures sorted[i] != sorted[j] {
      if sorted[i] == sorted[j] {
        TwoSlots(sorted, i, j);
        DistinctCounts(slots, sorted[i]);
        assert false;
      }
    }
  }

  // What the first slots' episodes hold: each of their records, as often.
  lemma {:induction false} RunsOfSlotsHold(family: seq<Record>, slots: seq<int>, r: Record)
    requires Distinct(slots)
    ensures multiset(Flatten(RunsOfSlots(family, slots)))[r] == if r.slot in slots then multiset(family)[r] else 0
  {
    if slots != [] {
      var init, last := slots[..|slots| - 1], slots[|slots| - 1];
      assert slots == init + [last] && last !in init;
      RunsOfSlotsHold(family, init, r);
      FlattenConcat(RunsOfSlots(family, init), RunsOfSlot(family, last));
      FlattenRuns(Column(family, last));
      ColumnFacts(family, last);
      FilterCounts(family, AtSlot(last), r);
      hide Sort, Runs, Filter, Flatten;
      assert Flatten(RunsOfSlot(family, last)) == Column(family, last);
      assert multiset(Flatten(RunsOfSlots(family, slots)))
          == multiset(Flatten(RunsOfSlots(family, init))) + multiset(Column(family, last));
    }
  }

  // Every record of the family is in the episodes exactly as often as it was
  // given, duplicates included.
  lemma EpisodesPartition(family: seq<Record>)
    ensures multiset(Flatten(Episodes(family))) == multiset(family)
  {
    var slots := Sort(Slots(family), Itself);
    SortedSlots(family);
    SlotsFacts(family);
    hide Sort, Slots, RunsOfSlots, Flatten;
    forall r: Record ensures multiset(Flatten(Episodes(family)))[r] == multiset(family)[r] {
      RunsOfSlotsHold(family, slots, r);
      assert r in multiset(family) <==> r in family;
    }
  }

  lemma CutRunIsEpisode(family: seq<Record>, slot: int, c: seq<Record>, runs: seq<seq<Record>>, k: nat)
    requires Cut(runs, c) && k < |runs|
    requires forall r :: r in c <==> r in family && r.slot == slot
    ensures IsEpisode(runs[k], family)
  {
    var e := runs[k];
    hide Flatten, Steps;
    assert Steps(e) && Flatten(runs) == c;
    StepsNonempty(e);
    forall i | 0 <= i < |e| ensures e[i].slot == slot && e[i] in family {
      OfFlatten(runs, k, e[i]);
      assert e[i] in c;
    }
    forall r | r in family && r.slot == slot ensures r.tick != e[0].tick - 1 && r.tick != e[|e| - 1].tick + 1 {
      assert r in c;
      CutIsMaximal(runs, c, k, r);
    }
  }

  lemma StepsNonempty(run: seq<Record>)
    requires Steps(run)
    ensures run != []
  {
  }

  lemma RunOfSlotIsEpisode(family: seq<Record>, slot: int, k: nat)
    requires Unique(family) && k < |RunsOfSlot(family, slot)|
    ensures IsEpisode(RunsOfSlot(family, slot)[k], family)
  {
    hide IsEpisode, Runs, Sort, Filter, Unique;
    var c := Column(family, slot);
    ColumnRises(family, slot);
    ColumnFacts(family, slot);
    RunsCut(c);
    CutRunIsEpisode(family, slot, c, Runs(c), k);
  }

  lemma {:induction false} AllAreEpisodes(family: seq<Record>, slots: seq<int>, e: seq<Record>)
    requires Unique(family) && e in RunsOfSlots(family, slots)
    ensures IsEpisode(e, family)
  {
    var init, last := slots[..|slots| - 1], slots[|slots| - 1];
    hide RunsOfSlot, Unique, IsEpisode;
    if e in RunsOfSlots(family, init) {
      AllAreEpisodes(family, init, e);
    } else {
      assert e in RunsOfSlot(family, last);
      var k :| 0 <= k < |RunsOfSlot(family, last)| && RunsOfSlot(family, last)[k] == e;
      RunOfSlotIsEpisode(family, last, k);
    }
  }

  // Two episodes that share a record are the same episode.
  lemma SharedRecord(family: seq<Record>, d: seq<Record>, i: nat, e: seq<Record>, j: nat)
    requires Unique(family) && IsEpisode(d, family) && IsEpisode(e, family)
    requires i < |d| && j < |e| && d[i] == e[j]
    ensures d == e
  {
    hide Unique;
    StartsNoLater(family, d, i, e, j);
    StartsNoLater(family, e, j, d, i);
    EndsNoEarlier(family, d, i, e, j);
    EndsNoEarlier(family, e, j, d, i);
    assert i == j && |d| == |e|;
    forall k | 0 <= k < |d| ensures d[k] == e[k] {
      StepsTick(d, k);
      StepsTick(e, k);
      StepsTick(d, i);
      StepsTick(e, j);
      SameRecord(family, d[k], e[k]);
    }
  }

  lemma SameRecord(family: seq<Record>, r: Record, s: Record)
    requires Unique(family) && r in family && s in family && r.slot == s.slot && r.tick == s.tick
    ensures r == s
  {
  }

  lemma StartsNoLater(family: seq<Record>, d: seq<Record>, i: nat, e: seq<Record>, j: nat)
    requires IsEpisode(d, family) && IsEpisode(e, family) && i < |d| && j < |e| && d[i] == e[j]
    ensures j <= i
  {
    if i < j {
      StepsTick(d, i);
      StepsTick(e, j);
      StepsTick(e, j - i - 1);
      assert false;
    }
  }

  lemma EndsNoEarlier(family: seq<Record>, d: seq<Record>, i: nat, e: seq<Record>, j: nat)
    requires IsEpisode(d, family) && IsEpisode(e, family) && i < |d| && j < |e| && d[i] == e[j]
    ensures |e| - j <= |d| - i
  {
    if |d| - i < |e| - j {
      var next := j + |d| - i;
      StepsTick(d, i);
      StepsTick(d, |d| - 1);
      StepsTick(e, j);
      StepsTick(e, next);
      assert false;
    }
  }

  // The episodes of a family are exactly its maximal runs.
  lemma EpisodesAreMaximalRuns(family: seq<Record>, e: seq<Record>)
    requires Unique(family)
    ensures e in Episodes(family) <==> IsEpisode(e, family)
  {
    if e in Episodes(family) {
      AllAreEpisodes(family, Sort(Slots(family), Itself), e);
    }
    if IsEpisode(e, family) {
      EpisodesPartition(family);
      assert e[0] in family;
      assert e[0] in multiset(family) && e[0] in multiset(Flatten(Episodes(family)));
      var k := InFlatten(Episodes(family), e[0]);
      var d := Episodes(family)[k];
      hide Flatten, RunsOfSlots, Sort, Slots;
      AllAreEpisodes(family, Sort(Slots(family), Itself), d);
      var i :| 0 <= i < |d| && d[i] == e[0];
      SharedRecord(family, d, i, e, 0);
    }
  }

  // ----- what the tallies mean -----

  lemma {:induction false} LongestIsMaximum(episodes: seq<seq<Record>>)
    ensures forall k :: 0 <= k < |episodes| ==> |episodes[k]| <= Longest(episodes)
    ensures episodes == [] ==> Longest(episodes) == 0
    ensures episodes != [] ==> exists k :: 0 <= k < |episodes| && |episodes[k]| == Longest(episodes)
  {
    if episodes != [] {
      var init, last := episodes[..|episodes| - 1], episodes[|episodes| - 1];
      LongestIsMaximum(init);
      assert forall k :: 0 <= k < |init| ==> episodes[k] == init[k];
      if |last| > Longest(init) || init == [] {
        assert |episodes[|episodes| - 1]| == Longest(episodes);
      } else {
        var k :| 0 <= k < |init| && |init[k]| == Longest(init);
        assert |episodes[k]| == Longest(episodes);
      }
    }
  }

  // An episode popped when it leaned on one tick and not on another.
  lemma {:induction false} LeaningBounds(rs: seq<Record>)
    ensures Leaning(rs) == |rs| <==> forall i :: 0 <= i < |rs| ==> rs[i].leaned
    ensures Leaning(rs) == 0 <==> forall i :: 0 <= i < |rs| ==> !rs[i].leaned
  {
    if rs != [] {
      LeaningBounds(rs[..|rs| - 1]);
    }
  }

  lemma PoppedMeansBoth(episode: seq<Record>)
    ensures KindOf(episode) == Popped <==> (exists i :: 0 <= i < |episode| && episode[i].leaned)
                                           && exists j :: 0 <= j < |episode| && !episode[j].leaned
    ensures KindOf(episode) == Always <==> forall i :: 0 <= i < |episode| ==> episode[i].leaned
    ensures KindOf(episode) == Never
       <==> episode != [] && forall i :: 0 <= i < |episode| ==> !episode[i].leaned
  {
    LeaningBounds(episode);
  }

  ghost function OfKind(episodes: seq<seq<Record>>, kind: Kind): set<nat> {
    set k | 0 <= k < |episodes| && KindOf(episodes[k]) == kind
  }

  // The count of a kind is the number of episodes that are of it.
  lemma {:induction false} KindsAreCounted(episodes: seq<seq<Record>>, kind: Kind)
    ensures CountKind(episodes, kind) == |OfKind(episodes, kind)|
  {
    hide KindOf;
    if episodes != [] {
      var last := |episodes| - 1;
      var init := episodes[..last];
      KindsAreCounted(init, kind);
      assert OfKind(episodes, kind) == OfKind(init, kind) + if KindOf(episodes[last]) == kind then {last} else {};
    }
  }

  // The records a family is counted from: those with one of its poses, each as
  // often as it was given.
  lemma FamilyHolds(rs: seq<Record>, poses: seq<string>, r: Record)
    ensures multiset(Filter(rs, InFamily(poses)))[r]
         == if r.pose.Some? && r.pose.value in poses then multiset(rs)[r] else 0
  {
    FilterCounts(rs, InFamily(poses), r);
  }

  const SAVE_POSES: seq<string> := ["keeper_spread", "keeper_central", "keeper_stretch", "keeper_tip", "keeper_dive"]
  const TIP_POSES: seq<string> := ["keeper_tip"]

  function Excluding(poses: seq<string>, excluded: seq<string>): (r: seq<string>)
    ensures forall p :: p in r <==> p in poses && p !in excluded
  {
    if poses == [] then []
    else (if poses[0] in excluded then [] else [poses[0]]) + Excluding(poses[1..], excluded)
  }

  // Frames of a family are those of a sub-family and those of the rest.
  lemma {:induction false} FamilySplits(rs: seq<Record>, poses: seq<string>, part: seq<string>)
    requires forall p :: p in part ==> p in poses
    ensures |Filter(rs, InFamily(poses))|
         == |Filter(rs, InFamily(Excluding(poses, part)))| + |Filter(rs, InFamily(part))|
    ensures Leaning(Filter(rs, InFamily(poses)))
         == Leaning(Filter(rs, InFamily(Excluding(poses, part)))) + Leaning(Filter(rs, InFamily(part)))
  {
    if rs != [] {
      FamilySplits(rs[..|rs| - 1], poses, part);
      var last := rs[|rs| - 1];
      hide Excluding;
      LeaningSnoc(Filter(rs[..|rs| - 1], InFamily(poses)), last);
      LeaningSnoc(Filter(rs[..|rs| - 1], InFamily(Excluding(poses, part))), last);
      LeaningSnoc(Filter(rs[..|rs| - 1], InFamily(part)), last);
      hide Leaning;
    }
  }

  lemma LeaningSnoc(rs: seq<Record>, r: Record)
    ensures Leaning(rs + [r]) == Leaning(rs) + if r.leaned then 1 else 0
  {
    assert (rs + [r])[..|rs|] == rs;
  }

  // The two readings of "save frames": all of them are those without the tip
  // and the tip's own.
  lemma SaveFramesSplit(rs: seq<Record>)
    ensures |Filter(rs, InFamily(SAVE_POSES))|
         == |Filter(rs, InFamily(Excluding(SAVE_POSES, TIP_POSES)))| + |Filter(rs, InFamily(TIP_POSES))|
  {
    FamilySplits(rs, SAVE_POSES, TIP_POSES);
  }
}
