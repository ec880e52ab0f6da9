// The exact condition under which the split into kinds does not depend on the
// order of the records.
module EpisodeSplit {
  import opened Results
  import opened EpisodeCount
  import opened EpisodeProperties
  import opened EpisodeOrder
  import opened EpisodeKinds

  function Past(slot: int, tick: int, d: int): Record -> bool {
    (r: Record) => r.slot == slot && if d == 1 then r.tick > tick else r.tick < tick
  }

  lemma {:induction false} FewerPast(rs: seq<Record>, slot: int, tick: int, d: int)
    requires d == 1 || d == -1
    ensures |Filter(rs, Past(slot, tick, d))|
         == |Filter(rs, Past(slot, tick + d, d))| + |Filter(rs, AtTick(slot, tick + d))|
  {
    if rs != [] {
      FewerPast(rs[..|rs| - 1], slot, tick, d);
    }
  }

  function AddToEach(held: set<Side>, leaned: bool): set<Side> {
    set k | k in held :: Held(Add(k, leaned))
  }

  function OneOfThem(next: seq<Record>): set<Side> {
    set r | r in next :: Held(Add(Empty, r.leaned))
  }

  // What can be held on one side of a tick, over all orders of the records: a
  // tick saved once adds its lean to what can lie beyond it, and a tick saved
  // more often cuts, so that any of its records can be the one next to us.
  ghost function Kinds(family: seq<Record>, slot: int, tick: int, d: int): set<Side>
    requires d == 1 || d == -1
    decreases |Filter(family, Past(slot, tick, d))|
  {
    var next := Filter(family, AtTick(slot, tick + d));
    FewerPast(family, slot, tick, d);
    if next == [] then {Empty}
    else if |next| == 1 then AddToEach(Kinds(family, slot, tick + d, d), next[0].leaned)
    else OneOfThem(next)
  }

  lemma KindsAre(family: seq<Record>, slot: int, tick: int, d: int)
    requires d == 1 || d == -1
    ensures var next := Filter(family, AtTick(slot, tick + d));
            && (next == [] ==> Kinds(family, slot, tick, d) == {Empty})
            && (|next| == 1 ==>
                 Kinds(family, slot, tick, d) == AddToEach(Kinds(family, slot, tick + d, d), next[0].leaned))
            && (|next| > 1 ==> Kinds(family, slot, tick, d) == OneOfThem(next))
  {
  }

  lemma Added(held: set<Side>, leaned: bool, k: Side)
    requires k in held
    ensures Held(Add(k, leaned)) in AddToEach(held, leaned)
  {
  }

  lemma AddedFrom(held: set<Side>, leaned: bool, k: Side) returns (beyond: Side)
    requires k in AddToEach(held, leaned)
    ensures beyond in held && k == Held(Add(beyond, leaned))
  {
    beyond :| beyond in held && k == Held(Add(beyond, leaned));
  }

  lemma WhichOfThem(next: seq<Record>, k: Side) returns (r: Record)
    requires k in OneOfThem(next)
    ensures r in next && k == Held(Add(Empty, r.leaned))
  {
    r :| r in next && k == Held(Add(Empty, r.leaned));
  }

  lemma AnyOfThem(next: seq<Record>, r: Record)
    requires r in next
    ensures Held(Add(Empty, r.leaned)) in OneOfThem(next)
  {
  }

  ghost predicate BothLeans(family: seq<Record>, slot: int, tick: int) {
    exists r, s :: r in Filter(family, AtTick(slot, tick)) && s in Filter(family, AtTick(slot, tick))
                   && r.leaned && !s.leaned
  }

  // Nothing to choose: one and the same kind on both sides, and nothing else on
  // that tick that could take a place next to it.
  ghost predicate NoChoice(family: seq<Record>, slot: int, tick: int) {
    var before, after := Kinds(family, slot, tick, -1), Kinds(family, slot, tick, 1);
    before == after && |before| == 1 && (before == {Empty} || |Filter(family, AtTick(slot, tick))| == 2)
  }

  ghost predicate NoChoices(family: seq<Record>) {
    forall slot, tick :: BothLeans(family, slot, tick) ==> NoChoice(family, slot, tick)
  }

  // ----- the conditions do not depend on the order -----

  lemma SameRecords(p: seq<Record>, q: seq<Record>)
    requires multiset(p) == multiset(q)
    ensures |p| == |q| && forall r :: r in p <==> r in q
  {
    assert |p| == |multiset(p)| == |multiset(q)|;
    forall r ensures r in p <==> r in q {
      assert r in multiset(p) <==> r in multiset(q);
    }
  }

  lemma {:induction false} KindsSame(a: seq<Record>, b: seq<Record>, slot: int, tick: int, d: int)
    requires d == 1 || d == -1
    requires forall t :: multiset(Filter(a, AtTick(slot, t))) == multiset(Filter(b, AtTick(slot, t)))
    ensures Kinds(a, slot, tick, d) == Kinds(b, slot, tick, d)
    decreases |Filter(a, Past(slot, tick, d))|
  {
    var p, q := Filter(a, AtTick(slot, tick + d)), Filter(b, AtTick(slot, tick + d));
    SameRecords(p, q);
    FewerPast(a, slot, tick, d);
    hide Filter, AddToEach;
    if |p| == 1 {
      KindsSame(a, b, slot, tick + d, d);
      assert p[0] in q;
    } else if p != [] {
      assert OneOfThem(p) == OneOfThem(q);
    }
  }

  lemma NoChoiceSame(a: seq<Record>, b: seq<Record>, slot: int, tick: int)
    requires forall t :: multiset(Filter(a, AtTick(slot, t))) == multiset(Filter(b, AtTick(slot, t)))
    ensures BothLeans(a, slot, tick) == BothLeans(b, slot, tick)
    ensures NoChoice(a, slot, tick) == NoChoice(b, slot, tick)
  {
    KindsSame(a, b, slot, tick, 1);
    KindsSame(a, b, slot, tick, -1);
    hide Filter, Kinds;
    SameRecords(Filter(a, AtTick(slot, tick)), Filter(b, AtTick(slot, tick)));
  }

  // ----- positions in a filter -----

  lemma TwoKept(c: seq<Record>, keep: Record -> bool, i: nat, j: nat)
    requires i < j < |c| && keep(c[i]) && keep(c[j])
    ensures |Filter(c, keep)| >= 2
  {
    assert c == c[..j] + c[j..];
    FilterConcat(c[..j], c[j..], keep);
    assert c[..j][i] == c[i] && c[j..][0] == c[j];
    FilterIn(c[..j], keep, c[i]);
    FilterIn(c[j..], keep, c[j]);
  }

  lemma ThreeKept(c: seq<Record>, keep: Record -> bool, i: nat, j: nat, k: nat)
    requires i < j < k < |c| && keep(c[i]) && keep(c[j]) && keep(c[k])
    ensures |Filter(c, keep)| >= 3
  {
    assert c == c[..k] + c[k..];
    FilterConcat(c[..k], c[k..], keep);
    TwoKept(c[..k], keep, i, j);
    assert c[k..][0] == c[k];
    FilterIn(c[k..], keep, c[k]);
  }

  lemma OneKept(c: seq<Record>, keep: Record -> bool, j: nat)
    requires j < |c| && keep(c[j]) && forall i :: 0 <= i < |c| && keep(c[i]) ==> i == j
    ensures Filter(c, keep) == [c[j]]
  {
    var p, q := c[..j], c[j + 1..];
    assert c == p + ([c[j]] + q);
    assert forall i :: 0 <= i < |q| ==> q[i] == c[j + 1 + i];
    hide Filter;
    NoneKept(p, keep);
    NoneKept(q, keep);
    FilterAll([c[j]], keep);
    FilterConcat(p, [c[j]] + q, keep);
    FilterConcat([c[j]], q, keep);
  }

  lemma {:induction false} NoneKept(c: seq<Record>, keep: Record -> bool)
    requires forall i :: 0 <= i < |c| ==> !keep(c[i])
    ensures Filter(c, keep) == []
  {
    if c != [] {
      NoneKept(c[..|c| - 1], keep);
    }
  }

  // ----- one slot's records -----

  ghost predicate Ordered(c: seq<Record>, slot: int) {
    Ascending(c, TickOf) && forall i :: 0 <= i < |c| ==> c[i].slot == slot
  }

  // The outermost record of its tick, on the side the direction points to.
  predicate Edge(c: seq<Record>, i: int, d: int) {
    0 <= i < |c| && (0 <= i + d < |c| ==> c[i + d].tick != c[i].tick)
  }

  lemma InOrder(c: seq<Record>, slot: int, i: int, j: int)
    requires Ordered(c, slot) && 0 <= i < |c| && 0 <= j < |c|
    ensures i <= j ==> c[i].tick <= c[j].tick
  {
    assert i < j ==> TickOf(c[i]) <= TickOf(c[j]);
  }

  // A record of the next tick is right next to the edge.
  lemma NextToEdge(c: seq<Record>, slot: int, i: int, d: int, n: int)
    requires (d == 1 || d == -1) && Ordered(c, slot) && Edge(c, i, d)
    requires 0 <= n < |c| && c[n].tick == c[i].tick + d
    ensures 0 <= i + d < |c| && c[i + d].tick == c[i].tick + d && (if d == 1 then i + d <= n else n <= i + d)
  {
    hide Ordered;
    InOrder(c, slot, n, i);
    InOrder(c, slot, i, n);
    if d == 1 {
      InOrder(c, slot, i, i + 1);
      InOrder(c, slot, i + 1, n);
    } else {
      InOrder(c, slot, i - 1, i);
      InOrder(c, slot, n, i - 1);
    }
  }

  lemma PositionOf(c: seq<Record>, slot: int, tick: int, r: Record) returns (n: nat)
    requires r in Filter(c, AtTick(slot, tick))
    ensures n < |c| && c[n] == r && r.tick == tick && r.slot == slot
  {
    FilterIn(c, AtTick(slot, tick), r);
    n :| n < |c| && c[n] == r;
  }

  lemma KeptAt(c: seq<Record>, slot: int, i: int)
    requires 0 <= i < |c| && Ordered(c, slot)
    ensures c[i] in Filter(c, AtTick(slot, c[i].tick))
  {
    FilterIn(c, AtTick(slot, c[i].tick), c[i]);
  }

  // Two on the next tick: what is held ends with the nearer one.
  lemma SoleOrCut(c: seq<Record>, slot: int, j: int, d: int)
    requires (d == 1 || d == -1) && Ordered(c, slot) && 0 <= j < |c|
    requires 0 <= j - d < |c| && c[j - d].tick == c[j].tick - d
    ensures Edge(c, j, d) <==> |Filter(c, AtTick(slot, c[j].tick))| == 1
  {
    var keep := AtTick(slot, c[j].tick);
    if Edge(c, j, d) {
      hide Ordered;
      forall i | 0 <= i < |c| && keep(c[i]) ensures i == j {
        InOrder(c, slot, i, j - d);
        InOrder(c, slot, j - d, i);
        if 0 <= j + d < |c| {
          InOrder(c, slot, i, j + d);
          InOrder(c, slot, j + d, i);
          InOrder(c, slot, j, j + d);
          InOrder(c, slot, j + d, j);
        }
      }
      OneKept(c, keep, j);
    } else {
      TwoKept(c, keep, if d == 1 then j else j - 1, if d == 1 then j + 1 else j);
    }
  }

  // What stands next to an edge.
  lemma NextTick(c: seq<Record>, slot: int, i: int, d: int)
    requires (d == 1 || d == -1) && Ordered(c, slot) && Edge(c, i, d)
    ensures var next, j := Filter(c, AtTick(slot, c[i].tick + d)), i + d;
            if next == [] then Walk(c, i, d) == Empty
            else && 0 <= j < |c| && c[j].tick == c[i].tick + d && c[j] in next
                 && (Edge(c, j, d) <==> |next| == 1)
  {
    var j, next := i + d, Filter(c, AtTick(slot, c[i].tick + d));
    hide Filter;
    if next == [] {
      if 0 <= j < |c| && c[j].tick == c[i].tick + d {
        KeptAt(c, slot, j);
      }
    } else {
      var n := PositionOf(c, slot, c[i].tick + d, next[0]);
      NextToEdge(c, slot, i, d, n);
      KeptAt(c, slot, j);
      SoleOrCut(c, slot, j, d);
    }
  }

  lemma OneStep(c: seq<Record>, i: int, d: int)
    requires (d == 1 || d == -1) && 0 <= i < |c| && 0 <= i + d < |c| && c[i + d].tick == c[i].tick + d
    ensures Walk(c, i, d) == Held(Add(Walk(c, i + d, d), c[i + d].leaned))
    ensures !Edge(c, i + d, d) ==> Walk(c, i, d) == Held(Add(Empty, c[i + d].leaned))
  {
    hide Add;
  }

  lemma OnlyOne(next: seq<Record>, r: Record)
    requires |next| == 1 && r in next
    ensures next[0] == r
  {
  }

  // One tick's step of what can be held.
  lemma StepIn(c: seq<Record>, slot: int, i: int, d: int)
    requires (d == 1 || d == -1) && 0 <= i < |c| && 0 <= i + d < |c| && c[i + d].tick == c[i].tick + d
    requires c[i + d] in Filter(c, AtTick(slot, c[i].tick + d))
    requires if Edge(c, i + d, d) then
               && |Filter(c, AtTick(slot, c[i].tick + d))| == 1
               && Walk(c, i + d, d) in Kinds(c, slot, c[i + d].tick, d)
             else |Filter(c, AtTick(slot, c[i].tick + d))| > 1
    ensures Walk(c, i, d) in Kinds(c, slot, c[i].tick, d)
  {
    var r, next := c[i + d], Filter(c, AtTick(slot, c[i].tick + d));
    hide Filter, Walk, AddToEach, OneOfThem, Add, Kinds, AtTick;
    KindsAre(c, slot, c[i].tick, d);
    OneStep(c, i, d);
    if |next| == 1 {
      OnlyOne(next, r);
      Added(Kinds(c, slot, r.tick, d), r.leaned, Walk(c, i + d, d));
    } else {
      AnyOfThem(next, r);
    }
  }

  // What is held on a side is one of the things that can be.
  lemma {:induction false} WalkIn(c: seq<Record>, slot: int, i: int, d: int)
    requires (d == 1 || d == -1) && Ordered(c, slot) && Edge(c, i, d)
    ensures Walk(c, i, d) in Kinds(c, slot, c[i].tick, d)
    decreases if d == 1 then |c| - i else i
  {
    hide Filter, Kinds, Walk, Ordered, AtTick;
    NextTick(c, slot, i, d);
    if Filter(c, AtTick(slot, c[i].tick + d)) == [] {
      KindsAre(c, slot, c[i].tick, d);
    } else {
      if Edge(c, i + d, d) {
        WalkIn(c, slot, i + d, d);
      }
      StepIn(c, slot, i, d);
    }
  }

  lemma SwappedArranges(c: seq<Record>, slot: int, i: nat, j: nat)
    requires Ordered(c, slot) && i < |c| && j < |c| && c[i].tick == c[j].tick
    ensures Ordered(Swapped(c, i, j), slot) && multiset(Swapped(c, i, j)) == multiset(c)
    ensures SameTicks(Swapped(c, i, j), c)
  {
    var s := Swapped(c, i, j);
    forall k | 0 <= k < |c| ensures s[k].tick == c[k].tick && s[k].slot == slot {
    }
    forall k, l | 0 <= k < l < |c| ensures TickOf(s[k]) <= TickOf(s[l]) {
      assert TickOf(c[k]) <= TickOf(c[l]);
    }
  }

  // The same records in tick order, with everything from here on, away from the
  // direction, left where it is.
  ghost predicate Rearranges(a: seq<Record>, c: seq<Record>, slot: int, i: int, d: int) {
    && Ordered(a, slot) && multiset(a) == multiset(c) && SameTicks(a, c)
    && forall k :: 0 <= k < |a| && k < |c| && (if d == 1 then k <= i else i <= k) ==> a[k] == c[k]
  }

  lemma RearrangesItself(c: seq<Record>, slot: int, i: int, d: int)
    requires Ordered(c, slot)
    ensures Rearranges(c, c, slot, i, d)
  {
  }

  lemma WiderFrame(a: seq<Record>, c: seq<Record>, slot: int, i: int, d: int)
    requires (d == 1 || d == -1) && 0 <= i < |c| && 0 <= i + d < |c| && Rearranges(a, c, slot, i + d, d)
    ensures Rearranges(a, c, slot, i, d) && |a| == |c| && a[i] == c[i] && a[i + d] == c[i + d]
  {
    hide Ordered;
  }

  // A record of the next tick brought next to the edge.
  lemma BringNext(c: seq<Record>, slot: int, i: int, d: int, r: Record) returns (a: seq<Record>)
    requires (d == 1 || d == -1) && Ordered(c, slot) && Edge(c, i, d)
    requires r in Filter(c, AtTick(slot, c[i].tick + d)) && |Filter(c, AtTick(slot, c[i].tick + d))| > 1
    ensures Rearranges(a, c, slot, i, d) && Walk(a, i, d) == Held(Add(Empty, r.leaned))
  {
    var j := i + d;
    NextTick(c, slot, i, d);
    var n := PositionOf(c, slot, c[i].tick + d, r);
    NextToEdge(c, slot, i, d, n);
    hide Filter, Walk, Ordered, AtTick;
    a := Swapped(c, j, n);
    SwappedArranges(c, slot, j, n);
    assert a[i] == c[i] && a[j] == r && !Edge(a, j, d);
    hide Swapped, Edge;
    OneStep(a, i, d);
  }

  // And each of the things that can be held is held in some order.
  lemma {:induction false} Realize(c: seq<Record>, slot: int, i: int, d: int, k: Side) returns (a: seq<Record>)
    requires (d == 1 || d == -1) && Ordered(c, slot) && Edge(c, i, d) && k in Kinds(c, slot, c[i].tick, d)
    ensures Rearranges(a, c, slot, i, d) && Walk(a, i, d) == k
    decreases if d == 1 then |c| - i else i
  {
    var j, next := i + d, Filter(c, AtTick(slot, c[i].tick + d));
    NextTick(c, slot, i, d);
    KindsAre(c, slot, c[i].tick, d);
    hide Filter, Kinds, Walk, Edge, Ordered, AtTick, Add, Rearranges, AddToEach, OneOfThem;
    if next == [] {
      a := c;
      RearrangesItself(c, slot, i, d);
    } else if |next| == 1 {
      assert next[0] == c[j];
      var beyond := AddedFrom(Kinds(c, slot, c[j].tick, d), c[j].leaned, k);
      a := Realize(c, slot, j, d, beyond);
      WiderFrame(a, c, slot, i, d);
      OneStep(a, i, d);
    } else {
      var r := WhichOfThem(next, k);
      a := BringNext(c, slot, i, d, r);
    }
  }

  lemma {:induction false} WalkFrame(a: seq<Record>, c: seq<Record>, i: int, d: int)
    requires (d == 1 || d == -1) && 0 <= i < |c| && |a| == |c|
    requires forall k :: 0 <= k < |c| && (if d == 1 then i <= k else k <= i) ==> a[k] == c[k]
    ensures Walk(a, i, d) == Walk(c, i, d)
    decreases if d == 1 then |c| - i else i
  {
    hide Add;
    var j := i + d;
    if 0 <= j < |c| && c[j].tick == c[i].tick + d {
      WalkFrame(a, c, j, d);
    }
  }

  // ----- one slot: every order gives the same kinds exactly when -----

  ghost predicate AllSame(c: seq<Record>, slot: int) {
    forall a :: Ordered(a, slot) && multiset(a) == multiset(c) ==> SameKinds(a, c)
  }

  ghost predicate NoChoicesAt(c: seq<Record>, slot: int) {
    forall tick :: BothLeans(c, slot, tick) ==> NoChoice(c, slot, tick)
  }

  lemma AllTiesEven(c: seq<Record>, slot: int, a: seq<Record>, i: nat)
    requires AllSame(c, slot) && Ordered(a, slot) && multiset(a) == multiset(c)
    requires i + 1 < |a| && a[i].tick == a[i + 1].tick
    ensures EvenTie(a, i)
  {
    SwappedArranges(a, slot, i, i + 1);
    hide KindsIn, Ordered, EvenTie, Swapped;
    assert SameKinds(a, c) && SameKinds(Swapped(a, i, i + 1), c);
    SwapExactly(a, i);
  }

  lemma {:induction false} EdgeFrom(c: seq<Record>, slot: int, n: int, d: int) returns (i: int)
    requires (d == 1 || d == -1) && Ordered(c, slot) && 0 <= n < |c|
    ensures Edge(c, i, d) && c[i].tick == c[n].tick && if d == 1 then n <= i else i <= n
    decreases if d == 1 then |c| - n else n
  {
    if Edge(c, n, d) {
      i := n;
    } else {
      i := EdgeFrom(c, slot, n + d, d);
    }
  }

  // The records of one tick stand together.
  lemma Group(c: seq<Record>, slot: int, n: nat) returns (l: nat, r: nat)
    requires Ordered(c, slot) && n < |c|
    ensures l <= n <= r < |c| && Edge(c, l, -1) && Edge(c, r, 1)
    ensures forall k :: 0 <= k < |c| ==> (c[k].tick == c[n].tick <==> l <= k <= r)
    ensures |Filter(c, AtTick(slot, c[n].tick))| == r - l + 1
  {
    l := EdgeFrom(c, slot, n, -1);
    r := EdgeFrom(c, slot, n, 1);
    var keep := AtTick(slot, c[n].tick);
    forall k | 0 <= k < |c| ensures c[k].tick == c[n].tick <==> l <= k <= r {
      InOrder(c, slot, l, k);
      InOrder(c, slot, k, r);
      if 0 < l {
        InOrder(c, slot, k, l - 1);
        InOrder(c, slot, l - 1, l);
      }
      if r + 1 < |c| {
        InOrder(c, slot, r + 1, k);
        InOrder(c, slot, r, r + 1);
      }
    }
    GroupCount(c, keep, l, r);
  }

  lemma GroupCount(c: seq<Record>, keep: Record -> bool, l: nat, r: nat)
    requires l <= r < |c| && forall k :: 0 <= k < |c| ==> (keep(c[k]) <==> l <= k <= r)
    ensures |Filter(c, keep)| == r - l + 1
  {
    var p, g, q := c[..l], c[l..r + 1], c[r + 1..];
    assert c == p + (g + q);
    forall x | x in g ensures keep(x) {
      var k :| 0 <= k < |g| && g[k] == x;
      assert x == c[l + k];
    }
    assert forall k :: 0 <= k < |q| ==> q[k] == c[r + 1 + k];
    hide Filter;
    NoneKept(p, keep);
    NoneKept(q, keep);
    FilterAll(g, keep);
    FilterConcat(p, g + q, keep);
    FilterConcat(g, q, keep);
  }

  lemma NothingHeld(c: seq<Record>, slot: int, i: int, d: int)
    requires (d == 1 || d == -1) && Ordered(c, slot) && Edge(c, i, d) && Walk(c, i, d) == Empty
    ensures Kinds(c, slot, c[i].tick, d) == {Empty}
  {
    var next := Filter(c, AtTick(slot, c[i].tick + d));
    hide Filter;
    if next != [] {
      var n := PositionOf(c, slot, c[i].tick + d, next[0]);
      NextToEdge(c, slot, i, d, n);
      assert false;
    }
  }

  // Three or more on a tick with both leans: the edge can be either of two
  // leans next to each other, and the other of them stands alone.
  lemma ManyHoldNothing(c: seq<Record>, slot: int, i: nat, n: nat, d: int)
    requires (d == 1 || d == -1) && Ordered(c, slot) && AllSame(c, slot) && Edge(c, i, d)
    requires 0 <= i - d < |c| && 0 <= i - d - d < |c| && c[i - d].tick == c[i - d - d].tick == c[i].tick
    requires n < |c| && c[n].tick == c[i].tick && c[n].leaned != c[i].leaned
    requires if d == 1 then n <= i else i <= n
    ensures Kinds(c, slot, c[i].tick, d) == {Empty}
  {
    var a := MovedNext(c, slot, i, n, d);
    hide Ordered, Kinds, Filter, Walk, EvenTie, Edge;
    AllTiesEven(c, slot, a, if d == 1 then i - 1 else i);
    hide AllSame;
    CutAcross(a, i, d);
    EmptySides(a, c, i, d);
    NothingHeld(c, slot, i, d);
  }

  lemma MovedNext(c: seq<Record>, slot: int, i: nat, n: nat, d: int) returns (a: seq<Record>)
    requires (d == 1 || d == -1) && Ordered(c, slot) && i < |c| && n < |c| && n != i
    requires 0 <= i - d < |c| && 0 <= i - d - d < |c| && c[i - d].tick == c[i - d - d].tick == c[i].tick == c[n].tick
    ensures Ordered(a, slot) && multiset(a) == multiset(c) && SameTicks(a, c)
    ensures a[i] == c[i] && a[i - d] == c[n] && a[i - d].tick == a[i - d - d].tick == a[i].tick
  {
    hide Swapped, Ordered;
    a := Swapped(c, i - d, n);
    SwappedArranges(c, slot, i - d, n);
    SwappedAt(c, i - d, n, i);
    SwappedAt(c, i - d, n, i - d);
    SwappedAt(c, i - d, n, i - d - d);
  }

  lemma SwappedAt(c: seq<Record>, i: nat, j: nat, k: nat)
    requires i < |c| && j < |c| && k < |c|
    ensures |Swapped(c, i, j)| == |c|
    ensures Swapped(c, i, j)[k] == if k == j then c[i] else if k == i then c[j] else c[k]
  {
  }

  lemma CutAcross(a: seq<Record>, i: nat, d: int)
    requires (d == 1 || d == -1) && i < |a| && 0 <= i - d < |a| && 0 <= i - d - d < |a|
    requires a[i - d].tick == a[i - d - d].tick && a[i - d].leaned != a[i].leaned
    requires EvenTie(a, if d == 1 then i - 1 else i)
    ensures Walk(a, i, d) == Empty
  {
    assert Walk(a, i - d, -d) == Empty;
  }

  lemma EmptySides(a: seq<Record>, c: seq<Record>, i: nat, d: int)
    requires (d == 1 || d == -1) && i < |c| && |a| == |c| && Edge(c, i, d) && Walk(a, i, d) == Empty && SameTicks(a, c)
    ensures Walk(c, i, d) == Empty
  {
  }

  // Exactly two: whatever can be held on one side is what is held on the other.
  lemma TwoHoldTheSame(c: seq<Record>, slot: int, l: nat, d: int, k: Side)
    requires (d == 1 || d == -1) && Ordered(c, slot) && AllSame(c, slot) && l + 1 < |c|
    requires c[l].tick == c[l + 1].tick && c[l].leaned != c[l + 1].leaned
    requires Edge(c, if d == 1 then l + 1 else l, d) && k in Kinds(c, slot, c[l].tick, d)
    ensures k == Walk(c, if d == 1 then l else l + 1, -d)
  {
    var a := Realize(c, slot, if d == 1 then l + 1 else l, d, k);
    hide Kinds, Filter, Add, Walk;
    assert a[l] == c[l] && a[l + 1] == c[l + 1];
    AllTiesEven(c, slot, a, l);
    WalkFrame(a, c, if d == 1 then l else l + 1, -d);
  }

  lemma KindsAreOneSide(c: seq<Record>, slot: int, l: nat, d: int)
    requires (d == 1 || d == -1) && Ordered(c, slot) && AllSame(c, slot) && l + 1 < |c|
    requires c[l].tick == c[l + 1].tick && c[l].leaned != c[l + 1].leaned && Edge(c, l, -1) && Edge(c, l + 1, 1)
    ensures Walk(c, l, -1) == Walk(c, l + 1, 1) && Kinds(c, slot, c[l].tick, d) == {Walk(c, l, -1)}
  {
    hide AllSame, Ordered, Edge, Walk, Kinds;
    WalkIn(c, slot, l, -1);
    WalkIn(c, slot, l + 1, 1);
    TwoHoldTheSame(c, slot, l, -1, Walk(c, l, -1));
    forall k | k in Kinds(c, slot, c[l].tick, d) ensures k == Walk(c, l, -1) {
      TwoHoldTheSame(c, slot, l, d, k);
    }
  }

  lemma SameLeavesNoChoice(c: seq<Record>, slot: int, tick: int)
    requires Ordered(c, slot) && AllSame(c, slot) && BothLeans(c, slot, tick)
    ensures NoChoice(c, slot, tick)
  {
    var x, y :| x in Filter(c, AtTick(slot, tick)) && y in Filter(c, AtTick(slot, tick)) && x.leaned && !y.leaned;
    var m := PositionOf(c, slot, tick, x);
    var n := PositionOf(c, slot, tick, y);
    hide AllSame, Ordered, Edge, Kinds, Filter;
    var l, r := Group(c, slot, m);
    if r == l + 1 {
      KindsAreOneSide(c, slot, l, -1);
      KindsAreOneSide(c, slot, l, 1);
    } else {
      ManyHoldNothing(c, slot, l, if c[m].leaned != c[l].leaned then m else n, -1);
      ManyHoldNothing(c, slot, r, if c[m].leaned != c[r].leaned then m else n, 1);
    }
  }

  lemma OneMember(s: set<Side>, x: Side, y: Side)
    requires |s| == 1 && x in s && y in s
    ensures x == y
  {
    assert |s - {x}| == 0;
    assert y in s - {x} || y == x;
  }

  lemma HeldAt(c: seq<Record>, slot: int, i: int, d: int)
    requires (d == 1 || d == -1) && Ordered(c, slot) && 0 <= i < |c|
    requires Kinds(c, slot, c[i].tick, d) == {Empty}
    ensures Walk(c, i, d) == Empty
  {
    if Edge(c, i, d) {
      hide Kinds;
      WalkIn(c, slot, i, d);
    }
  }

  lemma NoChoiceIsEven(c: seq<Record>, slot: int, i: nat)
    requires Ordered(c, slot) && NoChoicesAt(c, slot) && i + 1 < |c| && c[i].tick == c[i + 1].tick
    ensures EvenTie(c, i)
  {
    var tick := c[i].tick;
    KeptAt(c, slot, i);
    KeptAt(c, slot, i + 1);
    hide Kinds, Filter, Walk;
    if c[i].leaned != c[i + 1].leaned {
      assert BothLeans(c, slot, tick);
      var before := Kinds(c, slot, tick, -1);
      if before == {Empty} {
        HeldAt(c, slot, i, -1);
        HeldAt(c, slot, i + 1, 1);
      } else {
        OnlyTwo(c, slot, i);
        hide Ordered, NoChoicesAt, BothLeans, Edge;
        WalkIn(c, slot, i, -1);
        WalkIn(c, slot, i + 1, 1);
        OneMember(before, Walk(c, i, -1), Walk(c, i + 1, 1));
      }
    }
  }

  lemma OnlyTwo(c: seq<Record>, slot: int, i: nat)
    requires Ordered(c, slot) && i + 1 < |c| && c[i].tick == c[i + 1].tick
    requires |Filter(c, AtTick(slot, c[i].tick))| == 2
    ensures Edge(c, i, -1) && Edge(c, i + 1, 1)
  {
    if i > 0 && c[i - 1].tick == c[i].tick {
      ThreeKept(c, AtTick(slot, c[i].tick), i - 1, i, i + 1);
    }
    if i + 2 < |c| && c[i + 2].tick == c[i].tick {
      ThreeKept(c, AtTick(slot, c[i].tick), i, i + 1, i + 2);
    }
  }

  lemma InSuffix(a: seq<Record>, b: seq<Record>, n: nat) returns (m: nat)
    requires multiset(a) == multiset(b) && n < |a| && n <= |b| && a[..n] == b[..n]
    ensures n <= m < |b| && b[m] == a[n]
  {
    assert a == a[..n] + a[n..] && b == b[..n] + b[n..];
    assert multiset(a[n..]) == multiset(a) - multiset(a[..n]);
    assert multiset(b[n..]) == multiset(b) - multiset(b[..n]);
    assert a[n..][0] == a[n];
    assert a[n] in multiset(b[n..]);
    var k := Position(b[n..], a[n]);
    m := n + k;
  }

  lemma SwapOnce(c: seq<Record>, slot: int, b: seq<Record>, n: nat, m: nat) returns (s: seq<Record>)
    requires NoChoicesAt(c, slot) && Ordered(b, slot) && multiset(b) == multiset(c)
    requires n < m < |b| && b[m - 1].tick == b[m].tick
    ensures Ordered(s, slot) && multiset(s) == multiset(c) && SameKinds(s, b)
    ensures |s| == |b| && s[..n] == b[..n] && s[m - 1] == b[m]
  {
    hide Ordered, NoChoicesAt, SameKinds, EvenTie, SameTicks;
    s := Swapped(b, m - 1, m);
    assert s[..n] == b[..n] && s[m - 1] == b[m];
    hide Swapped;
    SwappedArranges(b, slot, m - 1, m);
    NoChoicesSame(c, b, slot);
    NoChoiceIsEven(b, slot, m - 1);
    SwapExactly(b, m - 1);
  }

  // Any order turns into any other by swapping neighbours of one tick.
  lemma {:induction false} SwapsKeepKinds(c: seq<Record>, slot: int, a: seq<Record>, b: seq<Record>, n: nat, m: nat)
    requires NoChoicesAt(c, slot) && Ordered(a, slot) && Ordered(b, slot)
    requires multiset(a) == multiset(b) == multiset(c)
    requires n <= |a| == |b| && a[..n] == b[..n] && (n < |a| ==> n <= m < |b| && b[m] == a[n])
    ensures SameKinds(a, b)
    decreases |a| - n, m
  {
    hide Ordered, NoChoicesAt, SameKinds;
    if n == |a| {
      assert a == a[..n] == b[..n] == b;
      KindsOfItself(a);
    } else if m == n {
      assert a[..n + 1] == a[..n] + [a[n]];
      assert b[..n + 1] == b[..n] + [b[n]];
      var next := 0;
      if n + 1 < |a| {
        next := InSuffix(a, b, n + 1);
      }
      SwapsKeepKinds(c, slot, a, b, n + 1, next);
    } else {
      TiedBefore(slot, a, b, n, m);
      var s := SwapOnce(c, slot, b, n, m);
      SwapsKeepKinds(c, slot, a, s, n, m - 1);
      KindsChain(a, s, b);
    }
  }

  lemma KindsOfItself(a: seq<Record>)
    ensures SameKinds(a, a)
  {
  }

  lemma KindsChain(a: seq<Record>, s: seq<Record>, b: seq<Record>)
    requires SameKinds(a, s) && SameKinds(s, b)
    ensures SameKinds(a, b)
  {
    hide KindsIn;
    forall kind ensures KindsIn(a, kind) == KindsIn(b, kind) {
      assert KindsIn(a, kind) == KindsIn(s, kind) == KindsIn(b, kind);
    }
  }

  lemma TiedBefore(slot: int, a: seq<Record>, b: seq<Record>, n: nat, m: nat)
    requires Ordered(a, slot) && Ordered(b, slot) && multiset(a) == multiset(b)
    requires n < m < |b| == |a| && b[m] == a[n]
    ensures b[m - 1].tick == b[m].tick
  {
    ArrangedTicks(a, b);
    hide Ordered;
    assert a[n].tick == b[n].tick;
    InOrder(b, slot, n, m - 1);
    InOrder(b, slot, m - 1, m);
  }

  lemma NoChoicesSame(a: seq<Record>, b: seq<Record>, slot: int)
    requires multiset(a) == multiset(b) && NoChoicesAt(a, slot)
    ensures NoChoicesAt(b, slot)
  {
    forall t: int ensures multiset(Filter(a, AtTick(slot, t))) == multiset(Filter(b, AtTick(slot, t))) {
      FilterSame(a, b, AtTick(slot, t));
    }
    hide Filter, BothLeans, NoChoice;
    forall tick | BothLeans(b, slot, tick) ensures NoChoice(b, slot, tick) {
      NoChoiceSame(a, b, slot, tick);
    }
  }

  // One slot's runs are of the same kinds in every order exactly when there is
  // nothing to choose at any tick with both leans.
  lemma AllSameExactly(c: seq<Record>, slot: int)
    requires Ordered(c, slot)
    ensures AllSame(c, slot) <==> NoChoicesAt(c, slot)
  {
    hide Ordered, BothLeans, NoChoice;
    if NoChoicesAt(c, slot) {
      hide NoChoicesAt, SameKinds;
      forall a | Ordered(a, slot) && multiset(a) == multiset(c) ensures SameKinds(a, c) {
        assert |a| == |multiset(a)| == |multiset(c)| == |c|;
        var m := 0;
        if 0 < |a| {
          m := InSuffix(a, c, 0);
        }
        SwapsKeepKinds(c, slot, a, c, 0, m);
      }
    }
    if AllSame(c, slot) {
      hide AllSame;
      forall tick | BothLeans(c, slot, tick) ensures NoChoice(c, slot, tick) {
        SameLeavesNoChoice(c, slot, tick);
      }
    }
  }

  // ----- all slots -----

  ghost predicate OrderKeepsKinds(records: seq<Record>, poses: seq<string>) {
    forall b, kind :: multiset(b) == multiset(records) ==>
      CountKind(Episodes(Family(b, poses)), kind) == CountKind(Episodes(Family(records, poses)), kind)
  }

  lemma ColumnIsOrdered(family: seq<Record>, slot: int)
    ensures Ordered(Column(family, slot), slot)
    ensures NoChoicesAt(Column(family, slot), slot)
       <==> forall tick :: BothLeans(family, slot, tick) ==> NoChoice(family, slot, tick)
  {
    var c := Column(family, slot);
    ColumnFacts(family, slot);
    SortSorts(Filter(family, AtSlot(slot)), TickOf);
    forall t: int ensures Filter(c, AtTick(slot, t)) == Filter(family, AtTick(slot, t)) {
      SortStable(Filter(family, AtSlot(slot)), slot, t);
      FilterWithin(family, slot, slot, t);
    }
    hide Filter, BothLeans, NoChoice, Sort;
    forall tick ensures BothLeans(family, slot, tick) == BothLeans(c, slot, tick)
                     && NoChoice(family, slot, tick) == NoChoice(c, slot, tick)
    {
      NoChoiceSame(family, c, slot, tick);
    }
  }

  // Two families that differ in one slot's order only: their counts differ as
  // that slot's do.
  lemma {:induction false} SlotsDifference(p: seq<Record>, q: seq<Record>, slots: seq<int>, slot: int, kind: Kind)
    requires Distinct(slots) && forall s :: s in slots && s != slot ==> SameKinds(Column(p, s), Column(q, s))
    ensures CountKind(RunsOfSlots(p, slots), kind) - CountKind(RunsOfSlots(q, slots), kind)
         == if slot in slots then KindsIn(Column(p, slot), kind) - KindsIn(Column(q, slot), kind) else 0
  {
    if slots != [] {
      var init, last := slots[..|slots| - 1], slots[|slots| - 1];
      assert slots == init + [last] && last !in init;
      assert last != slot ==> KindsIn(Column(p, last), kind) == KindsIn(Column(q, last), kind);
      hide SameKinds, Sort, Filter, Runs, CountKind;
      SlotsDifference(p, q, init, slot, kind);
      CountConcat(RunsOfSlots(p, init), RunsOfSlot(p, last), kind);
      CountConcat(RunsOfSlots(q, init), RunsOfSlot(q, last), kind);
    }
  }

  lemma FamiliesSameKinds(p: seq<Record>, q: seq<Record>, slot: int, kind: Kind)
    requires multiset(p) == multiset(q)
    requires forall s :: s != slot ==> SameKinds(Column(p, s), Column(q, s))
    ensures CountKind(Episodes(p), kind) - CountKind(Episodes(q), kind)
         == if slot in Slots(q) then KindsIn(Column(p, slot), kind) - KindsIn(Column(q, slot), kind) else 0
  {
    SlotsSame(p, q);
    SortedSlots(q);
    hide Sort, Slots, Filter, RunsOfSlots, CountKind, SameKinds, KindsIn, Column;
    SlotsDifference(p, q, Sort(Slots(q), Itself), slot, kind);
  }

  function Elsewhere(slot: int, poses: seq<string>): Record -> bool {
    (r: Record) => !(InFamily(poses)(r) && r.slot == slot)
  }

  // An order of the records that gives one slot a chosen order.
  lemma ChosenColumn(records: seq<Record>, poses: seq<string>, slot: int, a: seq<Record>, rest: seq<Record>)
    requires Ordered(a, slot) && multiset(a) == multiset(Column(Family(records, poses), slot))
    requires rest == Filter(records, Elsewhere(slot, poses))
    ensures multiset(a + rest) == multiset(records)
    ensures Column(Family(a + rest, poses), slot) == a
    ensures forall s :: s != slot ==> Column(Family(a + rest, poses), s) == Column(Family(rest, poses), s)
  {
    var family := Family(records, poses);
    ColumnFacts(family, slot);
    hide Sort;
    forall r: Record ensures multiset(a + rest)[r] == multiset(records)[r] {
      FilterCounts(records, Elsewhere(slot, poses), r);
      FilterCounts(family, AtSlot(slot), r);
      FilterCounts(records, InFamily(poses), r);
    }
    forall r | r in a ensures InFamily(poses)(r) {
      assert r in multiset(a) && r in multiset(Column(family, slot)) && r in Column(family, slot);
      FilterIn(records, InFamily(poses), r);
    }
    FilterAll(a, InFamily(poses));
    FilterConcat(a, rest, InFamily(poses));
    var others := Family(rest, poses);
    forall i | 0 <= i < |others| ensures !AtSlot(slot)(others[i]) {
      FilterIn(rest, InFamily(poses), others[i]);
      FilterIn(records, Elsewhere(slot, poses), others[i]);
    }
    hide Filter;
    ColumnsApart(a, others, slot);
  }

  lemma ColumnsApart(a: seq<Record>, others: seq<Record>, slot: int)
    requires Ordered(a, slot) && forall i :: 0 <= i < |others| ==> others[i].slot != slot
    ensures Column(a + others, slot) == a
    ensures forall s :: s != slot ==> Column(a + others, s) == Column(others, s)
  {
    FilterConcat(a, others, AtSlot(slot));
    FilterAll(a, AtSlot(slot));
    NoneKept(others, AtSlot(slot));
    assert a + [] == a;
    SortedStays(a);
    forall s | s != slot ensures Column(a + others, s) == Column(others, s) {
      FilterConcat(a, others, AtSlot(s));
      NoneKept(a, AtSlot(s));
      assert [] + Filter(others, AtSlot(s)) == Filter(others, AtSlot(s));
    }
  }

  lemma NoChoicesKeepKinds(records: seq<Record>, poses: seq<string>, b: seq<Record>, kind: Kind)
    requires NoChoices(Family(records, poses)) && multiset(b) == multiset(records)
    ensures CountKind(Episodes(Family(b, poses)), kind) == CountKind(Episodes(Family(records, poses)), kind)
  {
    var p, q := Family(b, poses), Family(records, poses);
    FilterSame(b, records, InFamily(poses));
    hide Filter, Column, SameKinds, AllSame, Ordered, BothLeans, NoChoice, NoChoicesAt, Episodes, CountKind, KindsIn;
    forall s ensures SameKinds(Column(p, s), Column(q, s)) {
      ColumnIsOrdered(p, s);
      ColumnIsOrdered(q, s);
      AllSameExactly(Column(q, s), s);
      ColumnsArrange(q, p, s);
      InstantiateSame(Column(q, s), s, Column(p, s));
    }
    FamiliesSameKinds(p, q, 0, kind);
    SameKindsAt(Column(p, 0), Column(q, 0), kind);
  }

  lemma InstantiateSame(c: seq<Record>, slot: int, a: seq<Record>)
    requires AllSame(c, slot) && Ordered(a, slot) && multiset(a) == multiset(c)
    ensures SameKinds(a, c)
  {
  }

  lemma SameKindsAt(a: seq<Record>, b: seq<Record>, kind: Kind)
    requires SameKinds(a, b)
    ensures KindsIn(a, kind) == KindsIn(b, kind)
  {
  }

  // The kinds an order of the records gives one slot decide the whole count.
  lemma ChosenOrderCounts(records: seq<Record>, poses: seq<string>, slot: int, a: seq<Record>, kind: Kind)
    returns (b: seq<Record>)
    requires Ordered(a, slot) && multiset(a) == multiset(Column(Family(records, poses), slot))
    requires slot in Slots(Family(records, poses))
    requires KindsIn(a, kind) != KindsIn(Column(Family(records, poses), slot), kind)
    ensures multiset(b) == multiset(records)
    ensures CountKind(Episodes(Family(b, poses)), kind) != CountKind(Episodes(Family(records, poses)), kind)
  {
    var family, rest := Family(records, poses), Filter(records, Elsewhere(slot, poses));
    var c := Column(family, slot);
    ColumnIsOrdered(family, slot);
    hide NoChoice, BothLeans, Ordered, Filter, Column, KindsIn, SameKinds, Episodes, CountKind, Slots;
    ChosenColumn(records, poses, slot, a, rest);
    ChosenColumn(records, poses, slot, c, rest);
    var p, q := Family(a + rest, poses), Family(c + rest, poses);
    forall s | s != slot ensures SameKinds(Column(p, s), Column(q, s)) {
      KindsOfItself(Column(p, s));
    }
    FilterSame(a + rest, records, InFamily(poses));
    FilterSame(c + rest, records, InFamily(poses));
    SameSlots(q, family, slot);
    FamiliesSameKinds(p, q, slot, kind);
    b := if CountKind(Episodes(p), kind) != CountKind(Episodes(family), kind) then a + rest else c + rest;
  }

  lemma SameSlots(a: seq<Record>, b: seq<Record>, slot: int)
    requires multiset(a) == multiset(b)
    ensures slot in Slots(a) <==> slot in Slots(b)
  {
    SlotsFacts(a);
    SlotsFacts(b);
    SameMembers(a, b, slot);
  }

  // No order of the records changes how many episodes of a family always lean,
  // never lean or pop, exactly when no tick that a slot was saved with both
  // leans leaves a choice.
  lemma KindsDependExactly(records: seq<Record>, poses: seq<string>)
    ensures OrderKeepsKinds(records, poses) <==> NoChoices(Family(records, poses))
  {
    var family := Family(records, poses);
    hide Filter, Column, KindsIn, SameKinds, Ordered, BothLeans, NoChoice, Episodes, CountKind, Slots;
    if NoChoices(family) {
      hide NoChoices;
      forall b, kind | multiset(b) == multiset(records)
        ensures CountKind(Episodes(Family(b, poses)), kind) == CountKind(Episodes(family), kind)
      {
        NoChoicesKeepKinds(records, poses, b, kind);
      }
    } else {
      var slot, tick :| BothLeans(family, slot, tick) && !NoChoice(family, slot, tick);
      var a, kind := AChoice(family, slot, tick);
      var b := ChosenOrderCounts(records, poses, slot, a, kind);
    }
  }

  lemma AChoice(family: seq<Record>, slot: int, tick: int) returns (a: seq<Record>, kind: Kind)
    requires BothLeans(family, slot, tick) && !NoChoice(family, slot, tick)
    ensures slot in Slots(family) && Ordered(a, slot) && multiset(a) == multiset(Column(family, slot))
    ensures KindsIn(a, kind) != KindsIn(Column(family, slot), kind)
  {
    var r :| r in Filter(family, AtTick(slot, tick)) && r.leaned;
    FilterIn(family, AtTick(slot, tick), r);
    SlotsFacts(family);
    hide Filter, Column, KindsIn, Ordered, BothLeans, NoChoice, Slots;
    var c := Column(family, slot);
    ColumnIsOrdered(family, slot);
    AllSameExactly(c, slot);
    a :| Ordered(a, slot) && multiset(a) == multiset(c) && !SameKinds(a, c);
    kind :| KindsIn(a, kind) != KindsIn(c, kind);
  }

  // So nothing a count reports depends on the order when the records of one
  // slot and tick agree on the lean.
  lemma AgreeingRecordsCountTheSame(records: seq<Record>, poses: seq<string>)
    requires forall r, s :: r in Family(records, poses) && s in Family(records, poses) ==>
               r.slot == s.slot && r.tick == s.tick ==> r.leaned == s.leaned
    ensures OrderKeepsKinds(records, poses)
  {
    var family := Family(records, poses);
    forall slot, tick ensures !BothLeans(family, slot, tick) {
      forall r | r in Filter(family, AtTick(slot, tick)) ensures r in family && r.slot == slot && r.tick == tick {
        FilterIn(family, AtTick(slot, tick), r);
      }
    }
    hide Filter, BothLeans, NoChoice;
    KindsDependExactly(records, poses);
  }

  lemma TiedTips(rs: seq<Record>)
    requires |rs| == 3 && rs[0] == Tip(1, true) && rs[1] == Tip(1, false) && rs[2] == Tip(2, true)
    ensures BothLeans(rs, 0, 1) && !NoChoice(rs, 0, 1)
  {
    NoneKept(rs, AtTick(0, 0));
    NoneKept(rs, AtTick(0, 3));
    OneKept(rs, AtTick(0, 2), 2);
    FilterIn(rs, AtTick(0, 1), rs[0]);
    FilterIn(rs, AtTick(0, 1), rs[1]);
    hide Filter;
    assert Kinds(rs, 0, 1, -1) == {Empty} && Kinds(rs, 0, 2, 1) == {Empty};
    assert Held(Add(Empty, true)) in Kinds(rs, 0, 1, 1);
  }

  // With such a clash they can: of two tips of one tick, the one that leans
  // joins the next tick's episode or stands alone.
  lemma ClashesCanChangeTheCount()
    ensures exists records :: |records| == 3 && !OrderKeepsKinds(records, TIP_POSES)
  {
    var tips := [Tip(1, true), Tip(1, false), Tip(2, true)];
    TiedTips(tips);
    FilterAll(tips, InFamily(TIP_POSES));
    hide Filter, BothLeans, NoChoice, OrderKeepsKinds;
    KindsDependExactly(tips, TIP_POSES);
  }
}
