// What a pump, an operation and a run keep, each proved from its parts: the
// books balance, the line stays in order, and nothing falls behind the clock.
module DriverKeeps {
  import opened Results
  import opened DriverSteps
  import opened DriverRelations
  import opened DriverMoves

  // Every packet sent is due that many ticks after it was sent.
  ghost predicate Dated(d: Net) {
    |d.sentAt| == |d.sent| && forall i :: 0 <= i < |d.sent| ==> d.sent[i].deliverAt == d.sentAt[i] + d.latencyTicks
  }

  ghost predicate Settled(d: Net) {
    Wired(d) && Balances(d, |d.queue|) && Dated(d)
  }

  lemma DatedOn(co: Coordinator, d: Net, packets: seq<Packet>, e: Net)
    requires Dated(d) && Moves(co, d, packets, e)
    ensures Dated(e)
  {
    hide Lives, Resolves, Balances, SameLinks, SameNodes, OnlyCloses, SenderOpen;
    var added :| Sends(d, e, added);
    forall i | 0 <= i < |e.sent| ensures e.sent[i].deliverAt == e.sentAt[i] + e.latencyTicks {
      if i >= |d.sent| {
        assert Stamped(d, added[i - |d.sent|]);
      } else {
        assert e.sentAt[i] == d.sentAt[i];
      }
    }
  }

  function PacketsOf(rs: seq<Resolution>): seq<Packet> {
    seq(|rs|, i requires 0 <= i < |rs| => rs[i].packet)
  }

  ghost predicate Sorted(queue: seq<Packet>) {
    forall i, j :: 0 <= i < j < |queue| ==> queue[i].deliverAt <= queue[j].deliverAt
  }

  // One global first-in first-out line: what was resolved, then what waits.
  ghost predicate InOrder(d: Net) {
    && PacketsOf(d.resolved) + d.queue == d.sent && Sorted(d.queue)
    && forall i :: 0 <= i < |d.queue| ==> d.queue[i].deliverAt <= d.clock + d.latencyTicks
  }

  // Nothing was resolved early or late, and nothing waiting is overdue: all of
  // it is due `slack` ticks from now or later.
  ghost predicate Punctual(d: Net, slack: int) {
    && (forall i :: 0 <= i < |d.resolved| ==> d.resolved[i].at == d.resolved[i].packet.deliverAt)
    && (forall i :: 0 <= i < |d.queue| ==> d.queue[i].deliverAt >= d.clock + slack)
  }

  // What an operation, or any part of one that leaves no packet due, keeps.
  ghost predicate Keeps(co: Coordinator, d: Net, e: Net, replaying: bool) {
    Settled(d) ==>
      && Settled(e) && Later(co, d, e)
      && (!replaying && InOrder(d) ==> InOrder(e))
      && (d.latencyTicks >= 1 && Punctual(d, 1) ==> Punctual(e, 1))
  }

  lemma KeepsCompose(co: Coordinator, a: Net, b: Net, c: Net, replaying: bool)
    requires Keeps(co, a, b, replaying) && Keeps(co, b, c, replaying)
    ensures Keeps(co, a, c, replaying)
  {
    hide Settled, Lives, InOrder, Punctual, SameLinks, SameNodes, OnlyCloses, Welcome, SenderOpen;
    if Settled(a) {
      LaterCompose(co, a, b, c);
    }
  }

  lemma MovesKeeps(co: Coordinator, d: Net, e: Net)
    requires Moves(co, d, [], e)
    ensures Keeps(co, d, e, false) && Keeps(co, d, e, true)
  {
    hide Lives, Welcome, Stamped, SameLinks, SameNodes, OnlyCloses, Later, Wired, KnownLink, Dated, Dates;
    if Settled(d) {
      assert Wired(e) && Dated(e) by {
        WiredOn(co, d, [], e);
        DatedOn(co, d, [], e);
      }
      assert Later(co, d, e) by {
        MovesIsLater(co, d, [], e);
      }
      MovesOrder(co, d, [], e);
    }
  }

  // Resolving the head of the line, in order, leaves the rest in line.
  lemma MovesOrder(co: Coordinator, d: Net, packets: seq<Packet>, e: Net)
    requires Moves(co, d, packets, e)
    ensures PacketsOf(d.resolved) + packets + d.queue == d.sent && Sorted(d.queue)
            && (forall i :: 0 <= i < |d.queue| ==> d.queue[i].deliverAt <= d.clock + d.latencyTicks)
            ==> InOrder(e)
    ensures d.latencyTicks >= 1 && Punctual(d, 1)
            && (forall i :: 0 <= i < |packets| ==> packets[i].deliverAt == d.clock)
            ==> Punctual(e, 1)
  {
    hide Lives, Welcome, SenderOpen, SameLinks, SameNodes, OnlyCloses, Balances;
    var added :| Sends(d, e, added);
    var news :| Resolves(co, d, e, packets, news);
    assert PacketsOf(e.resolved) == PacketsOf(d.resolved) + packets;
    assert forall i :: 0 <= i < |added| ==> Stamped(d, added[i]);
    if PacketsOf(d.resolved) + packets + d.queue == d.sent {
      assert PacketsOf(e.resolved) + e.queue == PacketsOf(d.resolved) + packets + d.queue + added;
    }
  }

  // ----- pump -----

  lemma {:induction false} DueParts(queue: seq<Packet>, clock: int)
    ensures |Due(queue, clock, true)| + |Due(queue, clock, false)| == |queue|
    ensures forall p :: p in Due(queue, clock, true) ==> p in queue && p.deliverAt <= clock
    ensures forall p :: p in Due(queue, clock, false) ==> p in queue && p.deliverAt > clock
  {
    if queue != [] {
      DueParts(queue[..|queue| - 1], clock);
    }
  }

  lemma {:induction false} DueNone(queue: seq<Packet>, clock: int)
    requires forall i :: 0 <= i < |queue| ==> queue[i].deliverAt > clock
    ensures Due(queue, clock, true) == [] && Due(queue, clock, false) == queue
  {
    if queue != [] {
      DueNone(queue[..|queue| - 1], clock);
    }
  }

  // A sorted queue is cut in two, not shuffled.
  lemma {:induction false} DueIsPrefix(queue: seq<Packet>, clock: int)
    requires Sorted(queue)
    ensures queue == Due(queue, clock, true) + Due(queue, clock, false)
  {
    if queue != [] {
      var rest, last := queue[..|queue| - 1], queue[|queue| - 1];
      DueIsPrefix(rest, clock);
      var due, later := Due(rest, clock, true), Due(rest, clock, false);
      assert queue == rest + [last] && rest == due + later;
      if last.deliverAt <= clock {
        DueAll(rest, clock);
        assert later == [] && due == rest;
        assert Due(queue, clock, true) == due + [last];
      } else {
        assert Due(queue, clock, false) == later + [last];
        assert due + (later + [last]) == (due + later) + [last];
      }
    }
  }

  lemma PendingSorted(queue: seq<Packet>, clock: int)
    requires Sorted(queue)
    ensures Sorted(Due(queue, clock, false))
  {
    DueIsPrefix(queue, clock);
    var due, later := Due(queue, clock, true), Due(queue, clock, false);
    hide Due;
    forall i, j | 0 <= i < j < |later| ensures later[i].deliverAt <= later[j].deliverAt {
      assert later[i] == queue[|due| + i] && later[j] == queue[|due| + j];
    }
  }

  lemma {:induction false} DueAll(queue: seq<Packet>, clock: int)
    requires forall i :: 0 <= i < |queue| ==> queue[i].deliverAt <= clock
    ensures Due(queue, clock, true) == queue && Due(queue, clock, false) == []
  {
    if queue != [] {
      DueAll(queue[..|queue| - 1], clock);
    }
  }

  function Taken(d: Net): Net {
    d.(queue := Due(d.queue, d.clock, false))
  }

  lemma TakenLater(co: Coordinator, d: Net)
    ensures Later(co, d, Taken(d))
  {
    LivesSame(co, d, Taken(d));
  }

  // What any number of a pump's rounds keeps.
  ghost predicate Pumped(co: Coordinator, d: Net, e: Net) {
    && Settled(e) && Later(co, d, e) && e.clock == d.clock && e.latencyTicks == d.latencyTicks
    && (InOrder(d) ==> InOrder(e))
    && (d.latencyTicks >= 1 && Punctual(d, 0) ==> Punctual(e, 0) && Punctual(e, 1))
  }

  // Taking what is due leaves a net that can deliver it.
  lemma TakenIsWired(d: Net)
    requires Wired(d)
    ensures Wired(Taken(d)) && AllLinked(d.links, Due(d.queue, d.clock, true))
  {
    var due, later := Due(d.queue, d.clock, true), Due(d.queue, d.clock, false);
    DueParts(d.queue, d.clock);
    hide Due;
    forall i | 0 <= i < |due| ensures KnownLink(d.links, due[i]) {
      assert due[i] in due;
    }
    forall i | 0 <= i < |later| ensures KnownLink(d.links, later[i]) {
      assert later[i] in later;
    }
  }

  // One round of a pump: what is due is resolved, at once and in order.
  lemma RoundMoves(co: Coordinator, d: Net)
    requires Settled(d)
    ensures var r := DeliverAll(co, Taken(d), Due(d.queue, d.clock, true));
            r.Some? && Moves(co, Taken(d), Due(d.queue, d.clock, true), r.value) && Settled(r.value)
  {
    var due, t := Due(d.queue, d.clock, true), Taken(d);
    TakenIsWired(d);
    DueParts(d.queue, d.clock);
    assert Dated(t) && Balances(t, |d.queue|) && |t.queue| + |due| == |d.queue|;
    hide Due, Wired, AllLinked, DeliverAll, Dated, Balances, KnownLink, Taken;
    DeliverAllMoves(co, t, due);
    var e := DeliverAll(co, t, due).value;
    WiredOn(co, t, due, e);
    DatedOn(co, t, due, e);
    hide Lives, Sends, Dates, Resolves, SameShape;
    assert Balances(e, |e.queue|);
  }

  lemma TakenInOrder(d: Net)
    requires InOrder(d)
    ensures var due, t := Due(d.queue, d.clock, true), Taken(d);
            && PacketsOf(d.resolved) + due + t.queue == d.sent && Sorted(t.queue)
            && forall i :: 0 <= i < |t.queue| ==> t.queue[i].deliverAt <= d.clock + d.latencyTicks
  {
    DueIsPrefix(d.queue, d.clock);
    PendingSorted(d.queue, d.clock);
    DueParts(d.queue, d.clock);
    var due, t := Due(d.queue, d.clock, true), Taken(d);
    hide Due, Sorted, PacketsOf;
    assert PacketsOf(d.resolved) + due + t.queue == PacketsOf(d.resolved) + (due + t.queue);
    forall i | 0 <= i < |t.queue| ensures t.queue[i].deliverAt <= d.clock + d.latencyTicks {
      assert t.queue[i] in t.queue;
    }
  }

  lemma TakenPunctual(d: Net)
    requires Punctual(d, 0)
    ensures Punctual(Taken(d), 1)
    ensures forall i :: 0 <= i < |Due(d.queue, d.clock, true)| ==> Due(d.queue, d.clock, true)[i].deliverAt == d.clock
  {
    var due, later := Due(d.queue, d.clock, true), Due(d.queue, d.clock, false);
    DueParts(d.queue, d.clock);
    hide Due;
    forall i | 0 <= i < |due| ensures due[i].deliverAt == d.clock {
      assert due[i] in due;
    }
    forall i | 0 <= i < |later| ensures later[i].deliverAt >= d.clock + 1 {
      assert later[i] in later;
    }
  }

  lemma RoundKeeps(co: Coordinator, d: Net)
    requires Settled(d)
    ensures DeliverAll(co, Taken(d), Due(d.queue, d.clock, true)).Some?
    ensures Pumped(co, d, DeliverAll(co, Taken(d), Due(d.queue, d.clock, true)).value)
  {
    var due, t := Due(d.queue, d.clock, true), Taken(d);
    RoundMoves(co, d);
    var e := DeliverAll(co, t, due).value;
    TakenLater(co, d);
    assert t.resolved == d.resolved && t.sent == d.sent && t.clock == d.clock && t.latencyTicks == d.latencyTicks;
    hide Settled, Due, DeliverAll, Later, Lives, Taken;
    MovesIsLater(co, t, due, e);
    LaterCompose(co, d, t, e);
    MovesOrder(co, t, due, e);
    SameClock(co, t, due, e);
    hide Moves, PacketsOf, Sorted;
    if InOrder(d) {
      TakenInOrder(d);
    }
    hide InOrder;
    if Punctual(d, 0) {
      TakenPunctual(d);
      hide Punctual;
      PunctualSooner(e);
    }
  }

  lemma SameClock(co: Coordinator, d: Net, packets: seq<Packet>, e: Net)
    requires Moves(co, d, packets, e)
    ensures e.clock == d.clock && e.latencyTicks == d.latencyTicks
  {
  }

  lemma PunctualSooner(d: Net)
    ensures Punctual(d, 1) ==> Punctual(d, 0)
  {
  }

  lemma PumpIdle(co: Coordinator, d: Net, rounds: nat)
    requires rounds > 0 && Punctual(d, 1)
    ensures Pump(co, d, rounds) == Some(d)
  {
    DueNone(d.queue, d.clock);
  }

  lemma PumpedCompose(co: Coordinator, a: Net, b: Net, c: Net)
    requires Pumped(co, a, b) && Pumped(co, b, c)
    ensures Pumped(co, a, c)
  {
    hide Settled, Later, InOrder, Punctual;
    LaterCompose(co, a, b, c);
  }

  lemma PumpedPunctual(co: Coordinator, d: Net, e: Net)
    requires Pumped(co, d, e) && d.latencyTicks >= 1 && Punctual(d, 0)
    ensures Punctual(e, 1)
  {
  }

  lemma PumpedSettled(co: Coordinator, d: Net, e: Net)
    requires Pumped(co, d, e)
    ensures Settled(e)
  {
  }

  lemma PumpUnfold(co: Coordinator, d: Net, rounds: nat)
    requires rounds > 0 && DeliverAll(co, Taken(d), Due(d.queue, d.clock, true)).Some?
    ensures var e := DeliverAll(co, Taken(d), Due(d.queue, d.clock, true)).value;
            Pump(co, d, rounds) == if Due(d.queue, d.clock, true) == [] then Some(e) else Pump(co, e, rounds - 1)
  {
  }

  lemma PumpNoRounds(co: Coordinator, d: Net)
    ensures Pump(co, d, 0) == None
  {
  }

  lemma {:induction false} PumpKeeps(co: Coordinator, d: Net, rounds: nat)
    requires Settled(d)
    ensures Pump(co, d, rounds).Some? ==> Pumped(co, d, Pump(co, d, rounds).value)
    decreases rounds
  {
    hide *;
    PumpNoRounds(co, d);
    if rounds > 0 {
      var due, t := Due(d.queue, d.clock, true), Taken(d);
      RoundKeeps(co, d);
      PumpUnfold(co, d, rounds);
      var e := DeliverAll(co, t, due).value;
      if due != [] {
        PumpedSettled(co, d, e);
        PumpKeeps(co, e, rounds - 1);
        if Pump(co, d, rounds).Some? {
          PumpedCompose(co, d, e, Pump(co, d, rounds).value);
        }
      }
    }
  }

  // With a latency of at least one tick, two rounds are always enough.
  lemma PumpSettles(co: Coordinator, d: Net, rounds: nat)
    requires Settled(d) && d.latencyTicks >= 1 && Punctual(d, 0) && rounds >= 2
    ensures Pump(co, d, rounds).Some?
  {
    hide *;
    RoundKeeps(co, d);
    PumpUnfold(co, d, rounds);
    var e := DeliverAll(co, Taken(d), Due(d.queue, d.clock, true)).value;
    PumpedPunctual(co, d, e);
    PumpIdle(co, e, rounds - 1);
  }

  // ----- operations -----

  lemma PumpIsKept(co: Coordinator, d: Net)
    ensures var p := Pump(co, d, MAX_PUMP_ROUNDS);
            && (p.Some? ==> Keeps(co, d, p.value, false) && Keeps(co, d, p.value, true))
            && (Settled(d) && d.latencyTicks >= 1 && Punctual(d, 1) ==> p.Some?)
  {
    hide Pump, Later, Settled, InOrder;
    if Settled(d) {
      PumpKeeps(co, d, MAX_PUMP_ROUNDS);
      if d.latencyTicks >= 1 && Punctual(d, 1) {
        PumpSettles(co, d, MAX_PUMP_ROUNDS);
      }
    }
  }

  // The result of an operation keeps what it should, and is there at all when
  // the latency is at least one tick and the caller named peers it knows.
  ghost predicate Sound(co: Coordinator, d: Net, r: Option<Net>, replaying: bool, known: bool) {
    && (r.Some? ==> Keeps(co, d, r.value, replaying))
    && (known && Settled(d) && d.latencyTicks >= 1 && Punctual(d, 1) ==> r.Some?)
  }

  lemma KeepsPunctual(co: Coordinator, d: Net, e: Net, replaying: bool)
    requires Keeps(co, d, e, replaying) && Settled(d) && d.latencyTicks >= 1 && Punctual(d, 1)
    ensures Settled(e) && e.latencyTicks == d.latencyTicks && Punctual(e, 1)
  {
    hide Punctual, InOrder, Settled;
  }

  // Work that cannot fail, then a pump.
  lemma ThenPump(co: Coordinator, d: Net, e: Net)
    requires Keeps(co, d, e, false)
    ensures Sound(co, d, Pump(co, e, MAX_PUMP_ROUNDS), false, true)
  {
    hide Pump, Keeps, Settled, Punctual;
    PumpIsKept(co, e);
    var p := Pump(co, e, MAX_PUMP_ROUNDS);
    if p.Some? {
      KeepsCompose(co, d, e, p.value, false);
    }
    if Settled(d) && d.latencyTicks >= 1 && Punctual(d, 1) {
      KeepsPunctual(co, d, e, false);
    }
  }

  lemma ClockLater(co: Coordinator, d: Net)
    requires Settled(d)
    ensures var e := d.(clock := d.clock + 1);
            Settled(e) && Later(co, d, e) && (InOrder(d) ==> InOrder(e)) && (Punctual(d, 1) ==> Punctual(e, 0))
  {
    LivesSame(co, d, d.(clock := d.clock + 1));
  }

  lemma FirstHalfTick(co: Coordinator, d: Net)
    ensures Sound(co, d, Pump(co, d.(clock := d.clock + 1), MAX_PUMP_ROUNDS), false, true)
  {
    hide Pump, Later, InOrder, Settled, Punctual;
    if Settled(d) {
      var e := d.(clock := d.clock + 1);
      ClockLater(co, d);
      PumpKeeps(co, e, MAX_PUMP_ROUNDS);
      var p := Pump(co, e, MAX_PUMP_ROUNDS);
      if p.Some? {
        LaterCompose(co, d, e, p.value);
      }
      if d.latencyTicks >= 1 && Punctual(d, 1) {
        PumpSettles(co, e, MAX_PUMP_ROUNDS);
      }
    }
  }

  lemma TickOnceSound(co: Coordinator, d: Net)
    ensures Sound(co, d, TickOnce(co, d), false, true)
  {
    hide Pump, Keeps, Settled, Punctual;
    FirstHalfTick(co, d);
    var first := Pump(co, d.(clock := d.clock + 1), MAX_PUMP_ROUNDS);
    if first.Some? {
      TickNodesMoves(co, first.value, 0);
      var ticked := TickNodes(co, first.value, 0);
      MovesKeeps(co, first.value, ticked);
      KeepsCompose(co, d, first.value, ticked, false);
      ThenPump(co, d, ticked);
    }
  }

  lemma {:induction false} TickManySound(co: Coordinator, d: Net, count: int)
    ensures Sound(co, d, TickMany(co, d, count), false, true)
    decreases count
  {
    hide TickOnce, Keeps, Settled, Punctual;
    if count <= 0 {
      MovesRefl(co, d);
      MovesKeeps(co, d, d);
    } else {
      TickOnceSound(co, d);
      var next := TickOnce(co, d);
      if next.Some? {
        TickManySound(co, next.value, count - 1);
        var last := TickMany(co, next.value, count - 1);
        if last.Some? {
          KeepsCompose(co, d, next.value, last.value, false);
        }
        if Settled(d) && d.latencyTicks >= 1 && Punctual(d, 1) {
          KeepsPunctual(co, d, next.value, false);
        }
      }
    }
  }

  // An injected message advances its sender's counter and goes out.
  lemma InjectMoves(co: Coordinator, d: Net, n: nat, counted: Net, message: ControlMessage, actions: seq<Action>)
    requires n < |d.nodes|
    requires message.sender == d.nodes[n].peerId && message.sequence == d.nodes[n].state.sequence
    requires counted == d.(nodes := d.nodes[n := d.nodes[n].(state :=
                             d.nodes[n].state.(sequence := message.sequence + 1))])
    requires Messages(actions) == [message]
    ensures Moves(co, d, [], Apply(co, counted, n, actions))
  {
    var e := Apply(co, counted, n, actions);
    var outcome := (counted.nodes[n].state, actions);
    ApplyActs(co, counted, n, actions);
    hide Messages, Apply;
    assert SelfNamed(d.nodes) ==> Follows(d.nodes[n].state, outcome);
    assert SameNodes(d.nodes, counted.nodes);
    hide Numbering, Acts, SelfNamed, Follows, Lives, Moves, SameNodes;
    InjectedLives(co, d, n, counted, e, outcome);
    TakenMoves(co, d, counted, e);
  }

  lemma InjectedLives(co: Coordinator, d: Net, n: nat, counted: Net, e: Net, outcome: (CoordinatorState, seq<Action>))
    requires n < |d.nodes| && outcome.0 == d.nodes[n].state.(sequence := outcome.0.sequence)
    requires counted == d.(nodes := d.nodes[n := d.nodes[n].(state := outcome.0)])
    requires SelfNamed(d.nodes) ==> Follows(d.nodes[n].state, outcome)
    requires Acts(counted, e) && e.transcript == d.transcript + Messages(outcome.1)
    ensures Lives(co, d, e)
  {
    hide Sends, Numbering, Messages, SelfNamed, Follows, Dates, OnlyCloses, SameLinks;
    if Numbering(co) && SelfNamed(d.nodes) {
      TurnNumbered(d, e, n, outcome);
    }
  }

  lemma OneMessage(targets: seq<LinkId>, message: ControlMessage)
    ensures Messages([Send(targets, message)]) == [message]
  {
  }

  lemma InjectSound(co: Coordinator, d: Net, fromPeer: PeerId, toPeer: PeerId, payload: Payload)
    ensures Sound(co, d, Inject(co, d, fromPeer, toPeer, payload), false, NodeIndex(d.nodes, fromPeer).Some?)
  {
    hide Pump, Moves, Keeps, Settled, Punctual, Apply;
    var index := NodeIndex(d.nodes, fromPeer);
    if index.Some? {
      var n := index.value;
      var node := d.nodes[n];
      var guest := if node.role == HostRole then toPeer else fromPeer;
      var message := ControlMessage(fromPeer, node.state.sequence, payload);
      var counted := d.(nodes := d.nodes[n := node.(state := node.state.(sequence := node.state.sequence + 1))]);
      var actions := [Send([LinkIdOf(guest)], message)];
      OneMessage([LinkIdOf(guest)], message);
      var e := Apply(co, counted, n, actions);
      InjectMoves(co, d, n, counted, message, actions);
      MovesKeeps(co, d, e);
      ThenPump(co, d, e);
    }
  }

  // The guest link a message between these two peers travels on.
  function LinkBetween(d: Net, fromPeer: PeerId, toPeer: PeerId): LinkId
    requires NodeIndex(d.nodes, fromPeer).Some?
  {
    LinkIdOf(if d.nodes[NodeIndex(d.nodes, fromPeer).value].role == HostRole then toPeer else fromPeer)
  }

  ghost predicate ReplayKnown(d: Net, fromPeer: PeerId, toPeer: PeerId) {
    NodeIndex(d.nodes, fromPeer).Some? && LinkIndex(d.links, LinkBetween(d, fromPeer, toPeer)).Some?
  }

  lemma PushedKeeps(co: Coordinator, d: Net, packet: Packet)
    requires Settled(d) && KnownLink(d.links, packet) && packet.deliverAt == d.clock
    ensures var e := d.(queue := d.queue + [packet], offered := d.offered + 1);
            Settled(e) && Later(co, d, e) && (Punctual(d, 1) ==> Punctual(e, 0))
  {
    LivesSame(co, d, d.(queue := d.queue + [packet], offered := d.offered + 1));
  }

  lemma {:induction false} DeliverAllSplit(co: Coordinator, d: Net, a: seq<Packet>, b: seq<Packet>)
    requires DeliverAll(co, d, a).Some?
    ensures DeliverAll(co, d, a + b) == DeliverAll(co, DeliverAll(co, d, a).value, b)
    decreases a
  {
    hide Deliver, DeliverAll;
    if a == [] {
      DeliverNothing(co, d);
      assert a + b == b;
    } else {
      assert (a + b)[0] == a[0] && (a + b)[1..] == a[1..] + b;
      DeliverAllStep(co, d, a);
      DeliverAllStep(co, d, a + b);
      DeliverAllSplit(co, Deliver(co, d, a[0]).value, a[1..], b);
    }
  }

  lemma DueSnoc(queue: seq<Packet>, packet: Packet, clock: int)
    requires packet.deliverAt <= clock
    ensures Due(queue + [packet], clock, true) == Due(queue, clock, true) + [packet]
    ensures Due(queue + [packet], clock, false) == Due(queue, clock, false)
  {
    assert (queue + [packet])[..|queue|] == queue;
  }

  // A due packet on a link nobody knows is a panic, not a drop.
  lemma StrayPacketPanics(co: Coordinator, d: Net, packet: Packet, rounds: nat)
    requires Settled(d) && !KnownLink(d.links, packet) && packet.deliverAt <= d.clock
    ensures Pump(co, d.(queue := d.queue + [packet], offered := d.offered + 1), rounds) == None
  {
    var e := d.(queue := d.queue + [packet], offered := d.offered + 1);
    var due, t := Due(d.queue, d.clock, true), Taken(d).(offered := d.offered + 1);
    DueSnoc(d.queue, packet, d.clock);
    assert Taken(e) == t;
    TakenIsWired(d);
    hide Due, Taken, Settled, Deliver, DeliverAll, LinkIndex, AllLinked;
    assert Wired(t) by {
      hide KnownLink;
    }
    DeliverAllMoves(co, t, due);
    DeliverAllSplit(co, t, due, [packet]);
    var next := DeliverAll(co, t, due).value;
    hide Wired, Lives, Sends, Dates, Resolves, Balances;
    LinkIndexSame(t.links, next.links, packet.linkId);
    StrayFails(co, next, packet);
    PumpFails(co, e, rounds);
  }

  lemma StrayFails(co: Coordinator, d: Net, packet: Packet)
    requires LinkIndex(d.links, packet.linkId).None?
    ensures DeliverAll(co, d, [packet]) == None
  {
    assert Deliver(co, d, packet) == None;
  }

  lemma PumpFails(co: Coordinator, d: Net, rounds: nat)
    requires DeliverAll(co, Taken(d), Due(d.queue, d.clock, true)) == None && Due(d.queue, d.clock, true) != []
    ensures Pump(co, d, rounds) == None
  {
    hide DeliverAll, Due;
  }

  lemma ReplaySound(co: Coordinator, d: Net, fromPeer: PeerId, toPeer: PeerId, wire: Wire)
    ensures Sound(co, d, Replay(co, d, fromPeer, toPeer, wire), true, ReplayKnown(d, fromPeer, toPeer))
  {
    hide Pump, Later, InOrder, Settled, Punctual;
    var index := NodeIndex(d.nodes, fromPeer);
    if index.Some? && Settled(d) {
      var packet := Packet(LinkBetween(d, fromPeer, toPeer), d.nodes[index.value].role == GuestRole, wire, d.clock);
      var e := d.(queue := d.queue + [packet], offered := d.offered + 1);
      if KnownLink(d.links, packet) {
        PushedKeeps(co, d, packet);
        PumpKeeps(co, e, MAX_PUMP_ROUNDS);
        var p := Pump(co, e, MAX_PUMP_ROUNDS);
        if p.Some? {
          LaterCompose(co, d, e, p.value);
        }
        if d.latencyTicks >= 1 && Punctual(d, 1) {
          PumpSettles(co, e, MAX_PUMP_ROUNDS);
        }
      } else {
        StrayPacketPanics(co, d, packet, MAX_PUMP_ROUNDS);
      }
    }
  }

  lemma CloseMoves(co: Coordinator, d: Net, i: nat)
    requires i < |d.links|
    ensures Moves(co, d, [], CloseBoth(d, i))
  {
    hide Lives, Stamped;
    LivesSame(co, d, CloseBoth(d, i));
    assert Sends(d, CloseBoth(d, i), []);
    assert Resolves(co, d, CloseBoth(d, i), [], []);
  }

  lemma DropLinkSound(co: Coordinator, d: Net, guest: PeerId, code: Option<string>)
    ensures Sound(co, d, DropLink(co, d, guest, code), false,
                  LinkIndex(d.links, LinkIdOf(guest)).Some? && |d.nodes| > 0)
  {
    hide Pump, Moves, Keeps, Settled, Punctual, LoseLink, CloseBoth;
    var index := LinkIndex(d.links, LinkIdOf(guest));
    if index.Some? {
      var event := LinkLost(LinkIdOf(guest), code);
      var d0 := CloseBoth(d, index.value);
      CloseMoves(co, d, index.value);
      LoseLinkMoves(co, d0, guest, event);
      var d1 := LoseLink(co, d0, guest, event).value;
      MovesThen(co, d, d0, d1);
      if |d1.nodes| > 0 {
        LoseLinkMoves(co, d1, d1.nodes[0].peerId, event);
        var d2 := LoseLink(co, d1, d1.nodes[0].peerId, event).value;
        MovesThen(co, d, d1, d2);
        MovesKeeps(co, d, d2);
        ThenPump(co, d, d2);
      }
      SameSize(co, d, d1);
    }
  }

  lemma SameSize(co: Coordinator, d: Net, e: Net)
    requires Moves(co, d, [], e)
    ensures |e.nodes| == |d.nodes|
  {
  }

  // An operation that names only peers and links the driver has.
  ghost predicate Known(d: Net, op: Op) {
    match op
    case SendOp(peer, _) => NodeIndex(d.nodes, peer).Some?
    case PumpOp => true
    case TickOp(_) => true
    case ConnectAllOp => true
    case InjectOp(fromPeer, _, _) => NodeIndex(d.nodes, fromPeer).Some?
    case ReplayOp(fromPeer, toPeer, _) => ReplayKnown(d, fromPeer, toPeer)
    case DropLinkOp(guest, _) => LinkIndex(d.links, LinkIdOf(guest)).Some? && |d.nodes| > 0
  }

  lemma PerformSound(co: Coordinator, d: Net, op: Op)
    ensures Sound(co, d, Perform(co, d, op), op.ReplayOp?, Known(d, op))
  {
    hide Pump, Moves, Keeps, Settled, Punctual, SendEvent, TickMany, ConnectFrom, Inject, Replay, DropLink;
    match op
    case SendOp(peer, event) =>
      SendMoves(co, d, peer, event);
      if SendEvent(co, d, peer, event).Some? {
        MovesKeeps(co, d, SendEvent(co, d, peer, event).value);
      }
    case PumpOp => PumpIsKept(co, d);
    case TickOp(count) => TickManySound(co, d, count);
    case ConnectAllOp =>
      ConnectMoves(co, d, 1);
      MovesKeeps(co, d, ConnectFrom(co, d, 1).value);
      ThenPump(co, d, ConnectFrom(co, d, 1).value);
    case InjectOp(fromPeer, toPeer, payload) => InjectSound(co, d, fromPeer, toPeer, payload);
    case ReplayOp(fromPeer, toPeer, wire) => ReplaySound(co, d, fromPeer, toPeer, wire);
    case DropLinkOp(guest, code) => DropLinkSound(co, d, guest, code);
  }

  // ----- runs -----

  ghost predicate NoReplay(ops: seq<Op>) {
    forall i :: 0 <= i < |ops| ==> !ops[i].ReplayOp?
  }

  ghost predicate AllKnown(d: Net, ops: seq<Op>) {
    forall i :: 0 <= i < |ops| ==> Known(d, ops[i])
  }

  lemma KnownSame(d: Net, e: Net, op: Op)
    requires SameShape(d, e)
    ensures Known(d, op) == Known(e, op)
  {
    match op
    case SendOp(peer, _) => NodeIndexSame(d.nodes, e.nodes, peer);
    case PumpOp =>
    case TickOp(_) =>
    case ConnectAllOp =>
    case InjectOp(fromPeer, _, _) => NodeIndexSame(d.nodes, e.nodes, fromPeer);
    case ReplayOp(fromPeer, toPeer, _) =>
      NodeIndexSame(d.nodes, e.nodes, fromPeer);
      if NodeIndex(d.nodes, fromPeer).Some? {
        LinkIndexSame(d.links, e.links, LinkBetween(d, fromPeer, toPeer));
      }
    case DropLinkOp(guest, _) => LinkIndexSame(d.links, e.links, LinkIdOf(guest));
  }

  lemma KeepsWeaker(co: Coordinator, d: Net, e: Net)
    requires Keeps(co, d, e, false)
    ensures Keeps(co, d, e, true)
  {
    hide Settled, Later, InOrder, Punctual;
  }

  lemma KnownOn(co: Coordinator, d: Net, e: Net, replaying: bool, ops: seq<Op>)
    requires Settled(d) && Keeps(co, d, e, replaying) && AllKnown(d, ops)
    ensures AllKnown(e, ops)
  {
    hide Known, SameLinks, SameNodes, OnlyCloses, Lives, Settled, InOrder, Punctual;
    forall i | 0 <= i < |ops| ensures Known(e, ops[i]) {
      KnownSame(d, e, ops[i]);
    }
  }

  lemma RunFirst(co: Coordinator, d: Net, ops: seq<Op>)
    requires ops != []
    ensures Run(co, d, ops)
         == match Perform(co, d, ops[0]) case None => None case Some(next) => Run(co, next, ops[1..])
    ensures NoReplay(ops) <==> !ops[0].ReplayOp? && NoReplay(ops[1..])
    ensures AllKnown(d, ops) ==> Known(d, ops[0]) && AllKnown(d, ops[1..])
  {
    hide Perform, Known;
    if !ops[0].ReplayOp? && NoReplay(ops[1..]) {
      forall i | 0 <= i < |ops| ensures !ops[i].ReplayOp? {
        if i > 0 {
          assert ops[i] == ops[1..][i - 1];
        }
      }
    }
  }

  lemma NoOps(co: Coordinator, d: Net)
    ensures Run(co, d, []) == Some(d) && Keeps(co, d, d, true) && Keeps(co, d, d, false)
  {
    MovesRefl(co, d);
    MovesKeeps(co, d, d);
  }

  lemma {:induction false} RunSound(co: Coordinator, d: Net, ops: seq<Op>)
    ensures Sound(co, d, Run(co, d, ops), !NoReplay(ops), AllKnown(d, ops))
    decreases ops
  {
    hide Run, Perform, Keeps, Settled, Punctual, Known, AllKnown, NoReplay;
    if ops == [] {
      NoOps(co, d);
    } else {
      RunFirst(co, d, ops);
      PerformSound(co, d, ops[0]);
      var next := Perform(co, d, ops[0]);
      if next.Some? {
        var e := next.value;
        RunSound(co, e, ops[1..]);
        var last := Run(co, e, ops[1..]);
        if last.Some? {
          RunCompose(co, d, e, last.value, ops[0].ReplayOp?, !NoReplay(ops[1..]), !NoReplay(ops));
        }
        if AllKnown(d, ops) && Settled(d) && d.latencyTicks >= 1 && Punctual(d, 1) {
          KeepsPunctual(co, d, e, ops[0].ReplayOp?);
          KnownOn(co, d, e, ops[0].ReplayOp?, ops[1..]);
        }
      }
    }
  }

  lemma RunCompose(co: Coordinator, a: Net, b: Net, c: Net, first: bool, second: bool, both: bool)
    requires Keeps(co, a, b, first) && Keeps(co, b, c, second) && (first || second ==> both)
    ensures Keeps(co, a, c, both)
  {
    hide Keeps;
    if both {
      if !first { KeepsWeaker(co, a, b); }
      if !second { KeepsWeaker(co, b, c); }
    }
    KeepsCompose(co, a, b, c, both);
  }
}
