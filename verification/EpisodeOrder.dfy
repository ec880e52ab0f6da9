// When the order of the records matters to the episodes of a count.
module EpisodeOrder {
  import opened Results
  import opened EpisodeCount
  import opened EpisodeProperties

  // Two records of one slot and tick are the same record.
  ghost predicate NoClash(rs: seq<Record>) {
    forall r, s :: r in rs && s in rs && r.slot == s.slot && r.tick == s.tick ==> r == s
  }

  function Family(records: seq<Record>, poses: seq<string>): seq<Record> {
    Filter(records, InFamily(poses))
  }

  // ----- without a clash the order does not matter -----

  lemma SlotsSame(a: seq<Record>, b: seq<Record>)
    requires multiset(a) == multiset(b)
    ensures Sort(Slots(a), Itself) == Sort(Slots(b), Itself)
  {
    SlotsFacts(a);
    SlotsFacts(b);
    SortSorts(Slots(a), Itself);
    SortSorts(Slots(b), Itself);
    hide Sort, Slots;
    forall slot: int ensures multiset(Slots(a))[slot] == multiset(Slots(b))[slot] {
      DistinctCounts(Slots(a), slot);
      DistinctCounts(Slots(b), slot);
      SameMembers(a, b, slot);
    }
    assert multiset(Slots(a)) == multiset(Slots(b));
    OneArrangement(Sort(Slots(a), Itself), Sort(Slots(b), Itself), Itself);
  }

  lemma SameMembers(a: seq<Record>, b: seq<Record>, slot: int)
    requires multiset(a) == multiset(b)
    ensures (exists r :: r in a && r.slot == slot) <==> (exists r :: r in b && r.slot == slot)
  {
    assert forall r :: r in a <==> r in multiset(a);
    assert forall r :: r in b <==> r in multiset(b);
  }

  lemma FilterSame(a: seq<Record>, b: seq<Record>, keep: Record -> bool)
    requires multiset(a) == multiset(b)
    ensures multiset(Filter(a, keep)) == multiset(Filter(b, keep))
  {
    var p, q := Filter(a, keep), Filter(b, keep);
    forall r: Record ensures multiset(p)[r] == multiset(q)[r] {
      FilterCounts(a, keep, r);
      FilterCounts(b, keep, r);
    }
  }

  lemma ColumnSame(a: seq<Record>, b: seq<Record>, slot: int)
    requires NoClash(a) && multiset(a) == multiset(b)
    ensures Column(a, slot) == Column(b, slot)
  {
    var p, q := Filter(a, AtSlot(slot)), Filter(b, AtSlot(slot));
    FilterSame(a, b, AtSlot(slot));
    SortSorts(p, TickOf);
    SortSorts(q, TickOf);
    ColumnFacts(a, slot);
    hide Sort, Filter;
    var c := Column(a, slot);
    forall i, j | 0 <= i < |c| && 0 <= j < |c| && TickOf(c[i]) == TickOf(c[j]) ensures c[i] == c[j] {
      assert c[i] in c && c[j] in c;
    }
    OneArrangement(c, Column(b, slot), TickOf);
  }

  lemma {:induction false} RunsSame(a: seq<Record>, b: seq<Record>, slots: seq<int>)
    requires NoClash(a) && multiset(a) == multiset(b)
    ensures RunsOfSlots(a, slots) == RunsOfSlots(b, slots)
  {
    hide NoClash;
    if slots != [] {
      RunsSame(a, b, slots[..|slots| - 1]);
      ColumnSame(a, b, slots[|slots| - 1]);
    }
  }

  function Leans(): Record -> bool {
    (r: Record) => r.leaned
  }

  lemma {:induction false} LeaningIsFilter(rs: seq<Record>)
    ensures Leaning(rs) == |Filter(rs, Leans())|
  {
    if rs != [] {
      LeaningIsFilter(rs[..|rs| - 1]);
    }
  }

  // Frames and leaning frames never depend on the order.
  lemma FramesSame(a: seq<Record>, b: seq<Record>, poses: seq<string>)
    requires multiset(a) == multiset(b)
    ensures |Family(a, poses)| == |Family(b, poses)| && Leaning(Family(a, poses)) == Leaning(Family(b, poses))
  {
    var p, q := Family(a, poses), Family(b, poses);
    FilterSame(a, b, InFamily(poses));
    FilterSame(p, q, Leans());
    LeaningIsFilter(p);
    LeaningIsFilter(q);
    hide Filter, Leaning;
    assert |p| == |multiset(p)| == |q|;
    assert |Filter(p, Leans())| == |multiset(Filter(p, Leans()))| == |Filter(q, Leans())|;
  }

  // ----- with a clash it does -----

  function AtTick(slot: int, tick: int): Record -> bool {
    (r: Record) => r.slot == slot && r.tick == tick
  }

  lemma FilterSnoc(rs: seq<Record>, r: Record, keep: Record -> bool)
    ensures Filter(rs + [r], keep) == Filter(rs, keep) + if keep(r) then [r] else []
  {
    assert (rs + [r])[..|rs|] == rs;
  }

  lemma {:induction false} FilterConcat(a: seq<Record>, b: seq<Record>, keep: Record -> bool)
    ensures Filter(a + b, keep) == Filter(a, keep) + Filter(b, keep)
    decreases b
  {
    if b == [] {
      assert a + b == a;
    } else {
      var init, last := b[..|b| - 1], b[|b| - 1];
      FilterConcat(a, init, keep);
      assert b == init + [last] && a + b == (a + init) + [last];
      FilterSnoc(a + init, last, keep);
      FilterSnoc(init, last, keep);
    }
  }

  lemma {:induction false} FilterAll(rs: seq<Record>, keep: Record -> bool)
    requires forall r :: r in rs ==> keep(r)
    ensures Filter(rs, keep) == rs
  {
    if rs != [] {
      FilterAll(rs[..|rs| - 1], keep);
      assert rs == rs[..|rs| - 1] + [rs[|rs| - 1]];
    }
  }

  // Sorting is stable: records of one slot and tick keep their order.
  lemma {:induction false} InsertStable(sorted: seq<Record>, x: Record, slot: int, tick: int)
    ensures Filter(Insert(sorted, x, TickOf), AtTick(slot, tick)) == Filter(sorted + [x], AtTick(slot, tick))
    decreases sorted
  {
    var keep := AtTick(slot, tick);
    if sorted != [] && TickOf(sorted[|sorted| - 1]) > TickOf(x) {
      var init, last := sorted[..|sorted| - 1], sorted[|sorted| - 1];
      assert sorted == init + [last];
      InsertStable(init, x, slot, tick);
      assert Insert(sorted, x, TickOf) == Insert(init, x, TickOf) + [last];
      FilterSnoc(Insert(init, x, TickOf), last, keep);
      FilterSnoc(init, x, keep);
      FilterSnoc(init, last, keep);
      FilterSnoc(sorted, x, keep);
    }
  }

  lemma {:induction false} SortStable(rs: seq<Record>, slot: int, tick: int)
    ensures Filter(Sort(rs, TickOf), AtTick(slot, tick)) == Filter(rs, AtTick(slot, tick))
    decreases rs
  {
    if rs != [] {
      var init, last := rs[..|rs| - 1], rs[|rs| - 1];
      assert rs == init + [last];
      SortStable(init, slot, tick);
      InsertStable(Sort(init, TickOf), last, slot, tick);
      FilterSnoc(Sort(init, TickOf), last, AtTick(slot, tick));
      FilterSnoc(init, last, AtTick(slot, tick));
    }
  }

  lemma {:induction false} FilterWithin(rs: seq<Record>, column: int, slot: int, tick: int)
    ensures Filter(Filter(rs, AtSlot(column)), AtTick(slot, tick))
         == if slot == column then Filter(rs, AtTick(slot, tick)) else []
  {
    if rs != [] {
      var init, last := rs[..|rs| - 1], rs[|rs| - 1];
      FilterWithin(init, column, slot, tick);
      FilterSnoc(Filter(init, AtSlot(column)), last, AtTick(slot, tick));
    }
  }

  lemma {:induction false} SlotsKeepTies(family: seq<Record>, slots: seq<int>, slot: int, tick: int)
    requires Distinct(slots)
    ensures Filter(Flatten(RunsOfSlots(family, slots)), AtTick(slot, tick))
         == if slot in slots then Filter(family, AtTick(slot, tick)) else []
  {
    if slots != [] {
      var init, last := slots[..|slots| - 1], slots[|slots| - 1];
      assert slots == init + [last] && last !in init;
      SlotsKeepTies(family, init, slot, tick);
      FlattenConcat(RunsOfSlots(family, init), RunsOfSlot(family, last));
      FlattenRuns(Column(family, last));
      FilterConcat(Flatten(RunsOfSlots(family, init)), Column(family, last), AtTick(slot, tick));
      SortStable(Filter(family, AtSlot(last)), slot, tick);
      FilterWithin(family, last, slot, tick);
    }
  }

  // Read one after another, the episodes show the records of one slot and tick
  // in the order they came in.
  lemma EpisodesKeepTies(family: seq<Record>, slot: int, tick: int)
    ensures Filter(Flatten(Episodes(family)), AtTick(slot, tick)) == Filter(family, AtTick(slot, tick))
  {
    SortedSlots(family);
    SlotsFacts(family);
    hide Sort, Slots;
    SlotsKeepTies(family, Sort(Slots(family), Itself), slot, tick);
    var tied := Filter(family, AtTick(slot, tick));
    if tied != [] {
      assert tied[0] in tied;
      FilterIn(family, AtTick(slot, tick), tied[0]);
    }
  }

  function Without(rs: seq<Record>, i: nat): (rest: seq<Record>)
    requires i < |rs|
    ensures multiset(rs) == multiset(rest) + multiset{rs[i]}
  {
    assert rs == rs[..i] + [rs[i]] + rs[i + 1..];
    rs[..i] + rs[i + 1..]
  }

  lemma Gather(r: Record, s: Record, rest: seq<Record>)
    ensures multiset([r, s] + rest) == multiset{r} + multiset{s} + multiset(rest)
  {
    assert [r, s] + rest == [r] + ([s] + rest);
  }

  lemma Position(rs: seq<Record>, r: Record) returns (i: nat)
    requires r in multiset(rs)
    ensures i < |rs| && rs[i] == r
  {
    i :| i < |rs| && rs[i] == r;
  }

  // An arrangement that starts with two given records.
  lemma StartingWith(rs: seq<Record>, r: Record, s: Record) returns (rest: seq<Record>)
    requires r in rs && s in rs && r != s
    ensures multiset([r, s] + rest) == multiset(rs) == multiset([s, r] + rest)
  {
    assert r in multiset(rs) && s in multiset(rs);
    var i := Position(rs, r);
    var most := Without(rs, i);
    hide Without;
    assert s in multiset(most);
    var j := Position(most, s);
    rest := Without(most, j);
    Gather(r, s, rest);
    Gather(s, r, rest);
  }

  lemma TiesShow(r: Record, s: Record, rest: seq<Record>, poses: seq<string>)
    requires InFamily(poses)(r) && InFamily(poses)(s) && r.slot == s.slot && r.tick == s.tick
    ensures var shown := Filter(Flatten(Episodes(Family([r, s] + rest, poses))), AtTick(r.slot, r.tick));
            shown != [] && shown[0] == r
  {
    var keep, family := AtTick(r.slot, r.tick), Family([r, s] + rest, poses);
    EpisodesKeepTies(family, r.slot, r.tick);
    hide Episodes, Flatten;
    FilterConcat([r, s], rest, InFamily(poses));
    FilterAll([r, s], InFamily(poses));
    FilterConcat([r, s], Family(rest, poses), keep);
    FilterAll([r, s], keep);
  }

  ghost predicate OrderDoesNotMatter(records: seq<Record>, poses: seq<string>) {
    forall b :: multiset(b) == multiset(records) ==> Episodes(Family(b, poses)) == Episodes(Family(records, poses))
  }

  // The episodes of a family are the same in every order of the records exactly
  // when no two different records of the family share a slot and a tick.
  lemma OrderMattersExactly(records: seq<Record>, poses: seq<string>)
    ensures OrderDoesNotMatter(records, poses) <==> NoClash(Family(records, poses))
  {
    var family := Family(records, poses);
    hide Episodes, Filter, Flatten, Sort, Slots;
    if NoClash(family) {
      forall b | multiset(b) == multiset(records) ensures Episodes(Family(b, poses)) == Episodes(family) {
        FilterSame(records, b, InFamily(poses));
        EpisodesSame(family, Family(b, poses));
      }
    } else {
      var r, s :| r in family && s in family && r.slot == s.slot && r.tick == s.tick && r != s;
      FilterIn(records, InFamily(poses), r);
      FilterIn(records, InFamily(poses), s);
      var rest := StartingWith(records, r, s);
      TiesShow(r, s, rest, poses);
      TiesShow(s, r, rest, poses);
      assert Episodes(Family([r, s] + rest, poses)) != Episodes(Family([s, r] + rest, poses));
    }
  }

  lemma EpisodesSame(a: seq<Record>, b: seq<Record>)
    requires NoClash(a) && multiset(a) == multiset(b)
    ensures Episodes(a) == Episodes(b)
  {
    hide Sort, Slots, RunsOfSlots, NoClash;
    SlotsSame(a, b);
    RunsSame(a, b, Sort(Slots(a), Itself));
  }

  // Records with unique slot and tick have no clash, nor has any family of them.
  lemma UniqueHasNoClash(records: seq<Record>, poses: seq<string>)
    requires Unique(records)
    ensures NoClash(Family(records, poses))
  {
    FilterUnique(records, InFamily(poses));
    hide Filter;
    var family := Family(records, poses);
    forall r, s | r in family && s in family && r.slot == s.slot && r.tick == s.tick ensures r == s {
      SameRecord(family, r, s);
    }
  }

  // ----- records already in order -----

  lemma {:induction false} SortedStays(rs: seq<Record>)
    requires Ascending(rs, TickOf)
    ensures Sort(rs, TickOf) == rs
  {
    if rs != [] {
      var init, last := rs[..|rs| - 1], rs[|rs| - 1];
      SortedStays(init);
      assert rs == init + [last];
      assert init != [] ==> TickOf(init[|init| - 1]) <= TickOf(last);
    }
  }

  lemma {:induction false} RunsOfSteps(rs: seq<Record>)
    requires Steps(rs)
    ensures Runs(rs) == [rs]
  {
    var init, last := rs[..|rs| - 1], rs[|rs| - 1];
    assert rs == init + [last];
    if init == [] {
      assert Runs(init) == [];
      ExtendFirst(last);
    } else {
      RunsOfSteps(init);
      assert [init] == [] + [init] && [rs] == [] + [rs];
      ExtendLast([], init, last);
    }
  }

  lemma RunsSnoc(rs: seq<Record>, r: Record)
    ensures Runs(rs + [r]) == Extend(Runs(rs), r)
  {
    assert (rs + [r])[..|rs|] == rs;
  }

  function Tip(tick: int, leaned: bool): Record {
    Record(tick, 0, Some("keeper_tip"), leaned)
  }

  predicate TipsOfOneSlot(rs: seq<Record>) {
    forall r :: r in rs ==> r.slot == 0 && r.pose == Some("keeper_tip")
  }
}
