// Counting episodes: one contiguous hold of a pose family by one roster slot.
// The method walks the records as the script does; the lemmas say that what it
// walks are exactly the maximal runs, whatever order the records came in.
module EpisodeCount {
  import opened Results

  datatype Record = Record(tick: int, slot: int, pose: Option<string>, leaned: bool)

  datatype FamilyCount = FamilyCount(
    frames: nat,
    leaned: nat,
    notLeaned: nat,
    total: nat,
    alwaysLeaning: nat,
    neverLeaning: nat,
    popped: nat,
    longest: nat)

  // ----- sorting by a key, stably -----

  function Insert<T>(sorted: seq<T>, x: T, key: T -> int): seq<T> {
    if sorted == [] || key(sorted[|sorted| - 1]) <= key(x) then sorted + [x]
    else Insert(sorted[..|sorted| - 1], x, key) + [sorted[|sorted| - 1]]
  }

  function Sort<T>(s: seq<T>, key: T -> int): seq<T> {
    if s == [] then [] else Insert(Sort(s[..|s| - 1], key), s[|s| - 1], key)
  }

  ghost predicate Ascending<T>(s: seq<T>, key: T -> int) {
    forall i, j :: 0 <= i < j < |s| ==> key(s[i]) <= key(s[j])
  }

  // Elements with the same key are the same element.
  ghost predicate KeysTell<T>(s: seq<T>, key: T -> int) {
    forall i, j :: 0 <= i < |s| && 0 <= j < |s| && key(s[i]) == key(s[j]) ==> s[i] == s[j]
  }

  ghost predicate KeysDiffer<T>(s: seq<T>, key: T -> int) {
    forall i, j :: 0 <= i < j < |s| ==> key(s[i]) != key(s[j])
  }

  lemma AppendAscending<T>(s: seq<T>, x: T, key: T -> int)
    requires Ascending(s, key) && forall y :: y in multiset(s) ==> key(y) <= key(x)
    ensures Ascending(s + [x], key)
  {
    forall i, j | 0 <= i < j < |s + [x]| ensures key((s + [x])[i]) <= key((s + [x])[j]) {
      assert s[i] in multiset(s);
    }
  }

  lemma LastIsLargest<T>(s: seq<T>, key: T -> int)
    requires Ascending(s, key) && s != []
    ensures forall y :: y in multiset(s) ==> key(y) <= key(s[|s| - 1])
  {
    forall y | y in multiset(s) ensures key(y) <= key(s[|s| - 1]) {
      var i :| 0 <= i < |s| && s[i] == y;
    }
  }

  lemma {:induction false} InsertSorts<T>(sorted: seq<T>, x: T, key: T -> int)
    requires Ascending(sorted, key)
    ensures Ascending(Insert(sorted, x, key), key)
    ensures multiset(Insert(sorted, x, key)) == multiset(sorted) + multiset{x}
    decreases sorted
  {
    if sorted == [] {
    } else if key(sorted[|sorted| - 1]) <= key(x) {
      LastIsLargest(sorted, key);
      AppendAscending(sorted, x, key);
    } else {
      var rest, last := sorted[..|sorted| - 1], sorted[|sorted| - 1];
      Prefixes(sorted, key);
      LastIsLargest(sorted, key);
      hide Ascending;
      InsertSorts(rest, x, key);
      var inserted := Insert(rest, x, key);
      assert Insert(sorted, x, key) == inserted + [last];
      hide Insert;
      forall y | y in multiset(inserted) ensures key(y) <= key(last) {
        assert y in multiset(rest) || y == x;
        assert y in multiset(rest) ==> y in multiset(sorted);
      }
      AppendAscending(inserted, last, key);
    }
  }

  lemma {:induction false} SortSorts<T>(s: seq<T>, key: T -> int)
    ensures Ascending(Sort(s, key), key)
    ensures multiset(Sort(s, key)) == multiset(s)
    decreases s
  {
    if s == [] {
      assert Ascending(Sort(s, key), key);
    } else {
      hide Ascending, Insert;
      SortSorts(s[..|s| - 1], key);
      InsertSorts(Sort(s[..|s| - 1], key), s[|s| - 1], key);
      assert s == s[..|s| - 1] + [s[|s| - 1]];
    }
  }

  lemma Prefixes<T>(s: seq<T>, key: T -> int)
    requires s != []
    ensures Ascending(s, key) ==> Ascending(s[..|s| - 1], key)
    ensures KeysTell(s, key) ==> KeysTell(s[..|s| - 1], key)
    ensures multiset(s) == multiset(s[..|s| - 1]) + multiset{s[|s| - 1]}
  {
    assert s == s[..|s| - 1] + [s[|s| - 1]];
  }

  lemma SameLast<T>(a: seq<T>, b: seq<T>, key: T -> int)
    requires a != [] && b != [] && Ascending(a, key) && Ascending(b, key) && KeysTell(a, key)
    requires multiset(a) == multiset(b)
    ensures a[|a| - 1] == b[|b| - 1]
  {
    var x, y := a[|a| - 1], b[|b| - 1];
    LastIsLargest(a, key);
    LastIsLargest(b, key);
    assert x in multiset(a) && y in multiset(b);
    assert key(x) == key(y);
    var i :| 0 <= i < |a| && a[i] == y;
  }

  // When keys tell elements apart there is only one ascending arrangement.
  lemma {:induction false} OneArrangement<T>(a: seq<T>, b: seq<T>, key: T -> int)
    requires Ascending(a, key) && Ascending(b, key) && KeysTell(a, key)
    requires multiset(a) == multiset(b)
    ensures a == b
    decreases a
  {
    hide Ascending, KeysTell;
    assert |a| == |multiset(a)| == |multiset(b)| == |b|;
    if a != [] {
      SameLast(a, b, key);
      Prefixes(a, key);
      Prefixes(b, key);
      var p, q, last := a[..|a| - 1], b[..|b| - 1], a[|a| - 1];
      assert multiset(p) == multiset(a) - multiset{last} && multiset(q) == multiset(b) - multiset{last};
      OneArrangement(p, q, key);
      assert a == p + [last] && b == q + [last];
    }
  }

  // ----- what is counted -----

  function Filter(rs: seq<Record>, keep: Record -> bool): seq<Record> {
    if rs == [] then []
    else
      var kept := Filter(rs[..|rs| - 1], keep);
      if keep(rs[|rs| - 1]) then kept + [rs[|rs| - 1]] else kept
  }

  function InFamily(poses: seq<string>): Record -> bool {
    (r: Record) => r.pose.Some? && r.pose.value in poses
  }

  function AtSlot(slot: int): Record -> bool {
    (r: Record) => r.slot == slot
  }

  function TickOf(r: Record): int {
    r.tick
  }

  function Itself(i: int): int {
    i
  }

  // The slots, as they first appear.
  function Slots(rs: seq<Record>): seq<int> {
    if rs == [] then []
    else
      var slots := Slots(rs[..|rs| - 1]);
      if rs[|rs| - 1].slot in slots then slots else slots + [rs[|rs| - 1].slot]
  }

  // A record one tick after the last one continues its run.
  predicate Continues(run: seq<Record>, r: Record) {
    run != [] && run[|run| - 1].tick + 1 == r.tick
  }

  // One more record continues the last run or opens a new one.
  function Extend(runs: seq<seq<Record>>, r: Record): seq<seq<Record>> {
    if runs != [] && Continues(runs[|runs| - 1], r) then runs[..|runs| - 1] + [runs[|runs| - 1] + [r]]
    else runs + [[r]]
  }

  // One slot's records cut into runs, wherever the tick does not go up by one.
  function Runs(rs: seq<Record>): seq<seq<Record>> {
    if rs == [] then [] else Extend(Runs(rs[..|rs| - 1]), rs[|rs| - 1])
  }

  function RunsOfSlot(rs: seq<Record>, slot: int): seq<seq<Record>> {
    Runs(Sort(Filter(rs, AtSlot(slot)), TickOf))
  }

  function RunsOfSlots(rs: seq<Record>, slots: seq<int>): seq<seq<Record>> {
    if slots == [] then []
    else RunsOfSlots(rs, slots[..|slots| - 1]) + RunsOfSlot(rs, slots[|slots| - 1])
  }

  function Episodes(rs: seq<Record>): seq<seq<Record>> {
    RunsOfSlots(rs, Sort(Slots(rs), Itself))
  }

  function Leaning(rs: seq<Record>): (n: nat)
    ensures n <= |rs|
  {
    if rs == [] then 0 else Leaning(rs[..|rs| - 1]) + if rs[|rs| - 1].leaned then 1 else 0
  }

  datatype Kind = Always | Never | Popped

  function KindOf(episode: seq<Record>): Kind {
    if Leaning(episode) == |episode| then Always else if Leaning(episode) == 0 then Never else Popped
  }

  function CountKind(episodes: seq<seq<Record>>, kind: Kind): nat {
    if episodes == [] then 0
    else CountKind(episodes[..|episodes| - 1], kind) + if KindOf(episodes[|episodes| - 1]) == kind then 1 else 0
  }

  function Longest(episodes: seq<seq<Record>>): nat {
    if episodes == [] then 0
    else
      var longest, last := Longest(episodes[..|episodes| - 1]), |episodes[|episodes| - 1]|;
      if last > longest then last else longest
  }

  // ----- the walk the script makes -----

  lemma ExtendLast(done: seq<seq<Record>>, run: seq<Record>, r: Record)
    ensures Extend(done + [run], r) == if Continues(run, r) then done + [run + [r]] else done + [run] + [[r]]
  {
    assert (done + [run])[..|done|] == done;
  }

  lemma ExtendFirst(r: Record)
    ensures Extend([], r) == [[r]]
  {
  }

  method CutRuns(items: seq<Record>, before: seq<seq<Record>>) returns (episodes: seq<seq<Record>>)
    ensures episodes == before + Runs(items)
  {
    episodes := before;
    var run: seq<Record> := [];
    ghost var done: seq<seq<Record>> := [];
    for i := 0 to |items|
      invariant episodes == before + done
      invariant i == 0 ==> Runs(items[..i]) == []
      invariant if i == 0 then run == [] && done == [] else run != [] && Runs(items[..i]) == done + [run]
    {
      assert items[..i + 1][..i] == items[..i];
      assert Runs(items[..i + 1]) == Extend(Runs(items[..i]), items[i]);
      ExtendFirst(items[i]);
      ExtendLast(done, run, items[i]);
      hide Runs, Extend;
      if |run| > 0 && items[i].tick != run[|run| - 1].tick + 1 {
        episodes := episodes + [run];
        done := done + [run];
        run := [];
      }
      run := run + [items[i]];
      assert |run| == 1 ==> run == [items[i]];
    }
    assert items[..|items|] == items;
    if |run| > 0 {
      episodes := episodes + [run];
    }
  }

  method CountFamily(records: seq<Record>, poses: seq<string>) returns (count: FamilyCount)
    ensures var family := Filter(records, InFamily(poses));
            var episodes := Episodes(family);
            && count.frames == |family| && count.leaned == Leaning(family)
            && count.leaned + count.notLeaned == count.frames
            && count.total == |episodes|
            && count.alwaysLeaning == CountKind(episodes, Always)
            && count.neverLeaning == CountKind(episodes, Never)
            && count.popped == CountKind(episodes, Popped)
            && count.alwaysLeaning + count.neverLeaning + count.popped == count.total
            && count.longest == Longest(episodes)
  {
    var subset: seq<Record> := [];
    for i := 0 to |records|
      invariant subset == Filter(records[..i], InFamily(poses))
    {
      assert records[..i + 1][..i] == records[..i];
      if records[i].pose.Some? && records[i].pose.value in poses {
        subset := subset + [records[i]];
      }
    }
    assert records[..|records|] == records;

    var episodes := CutAll(subset);

    var always, never, popped := CountKinds(episodes);
    var leaned := CountLeaning(subset);
    var longest := LongestOf(episodes);
    count := FamilyCount(|subset|, leaned, |subset| - leaned, |episodes|, always, never, popped, longest);
  }

  method CountKinds(episodes: seq<seq<Record>>) returns (always: nat, never: nat, popped: nat)
    ensures always == CountKind(episodes, Always) && never == CountKind(episodes, Never)
    ensures popped == CountKind(episodes, Popped) && always + never + popped == |episodes|
  {
    always, never, popped := 0, 0, 0;
    for i := 0 to |episodes|
      invariant always == CountKind(episodes[..i], Always) && never == CountKind(episodes[..i], Never)
      invariant popped == CountKind(episodes[..i], Popped) && always + never + popped == i
    {
      assert episodes[..i + 1][..i] == episodes[..i];
      var leaning := CountLeaning(episodes[i]);
      if leaning == |episodes[i]| {
        always := always + 1;
      } else if leaning == 0 {
        never := never + 1;
      } else {
        popped := popped + 1;
      }
    }
    assert episodes[..|episodes|] == episodes;
  }

  method CountLeaning(rs: seq<Record>) returns (leaning: nat)
    ensures leaning == Leaning(rs)
  {
    leaning := 0;
    for i := 0 to |rs|
      invariant leaning == Leaning(rs[..i])
    {
      assert rs[..i + 1][..i] == rs[..i];
      if rs[i].leaned {
        leaning := leaning + 1;
      }
    }
    assert rs[..|rs|] == rs;
  }

  method LongestOf(episodes: seq<seq<Record>>) returns (longest: nat)
    ensures longest == Longest(episodes)
  {
    longest := 0;
    for i := 0 to |episodes|
      invariant longest == Longest(episodes[..i])
    {
      assert episodes[..i + 1][..i] == episodes[..i];
      if |episodes[i]| > longest {
        longest := |episodes[i]|;
      }
    }
    assert episodes[..|episodes|] == episodes;
  }

  // The records of each slot, and the slots as they first appear.
  method GroupBySlot(subset: seq<Record>) returns (bySlot: map<int, seq<Record>>, slots: seq<int>)
    ensures slots == Slots(subset)
    ensures forall slot :: slot in slots ==> slot in bySlot && bySlot[slot] == Filter(subset, AtSlot(slot))
  {
    bySlot, slots := map[], [];
    for i := 0 to |subset|
      invariant slots == Slots(subset[..i])
      invariant forall slot :: slot in bySlot <==> slot in slots
      invariant forall slot :: slot in bySlot ==> bySlot[slot] == Filter(subset[..i], AtSlot(slot))
    {
      assert subset[..i + 1][..i] == subset[..i];
      var slot := subset[i].slot;
      if slot !in bySlot {
        NoneAtSlot(subset[..i], slot);
        slots := slots + [slot];
        bySlot := bySlot[slot := []];
      }
      bySlot := bySlot[slot := bySlot[slot] + [subset[i]]];
    }
    assert subset[..|subset|] == subset;
  }

  // Slot by slot in order, each slot's records cut in tick order.
  method CutAll(subset: seq<Record>) returns (episodes: seq<seq<Record>>)
    ensures episodes == Episodes(subset)
  {
    var bySlot, slots := GroupBySlot(subset);
    var ordered := Sort(slots, Itself);
    SortSorts(slots, Itself);
    hide Sort, Runs, Slots, Filter;
    episodes := [];
    for k := 0 to |ordered|
      invariant episodes == RunsOfSlots(subset, ordered[..k])
    {
      assert ordered[..k + 1][..k] == ordered[..k];
      assert ordered[k] in multiset(ordered);
      episodes := CutRuns(Sort(bySlot[ordered[k]], TickOf), episodes);
    }
    assert ordered[..|ordered|] == ordered;
  }

  lemma {:induction false} NoneAtSlot(rs: seq<Record>, slot: int)
    requires slot !in Slots(rs)
    ensures Filter(rs, AtSlot(slot)) == []
  {
    if rs != [] {
      NoneAtSlot(rs[..|rs| - 1], slot);
    }
  }
}
