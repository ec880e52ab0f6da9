// What every run of a new driver does to its nodes and its links: each node hears
// exactly what it is told and what is delivered to it, ends close exactly when
// asked for, and a packet is dropped only at a closed end or a node that ended.
module DriverEnds {
  import opened Results
  import opened DriverSteps
  import opened DriverRelations
  import opened DriverMoves
  import opened DriverKeeps
  import opened DriverProperties
  import opened DriverStory
  import opened DriverTelling
  import opened DriverRuns

  lemma NewNetIsProper(latency: int, host: CoordinatorState, guests: seq<CoordinatorState>)
    requires Seated(host, guests)
    ensures Proper(NewNet(latency, host, guests))
  {
    NewNetIsSound(latency, host, guests);
  }

  lemma LinkOfGuest(d: Net, i: nat)
    requires i < |d.links| && forall j :: 0 <= j < i ==> d.links[j].id != d.links[i].id
    ensures LinkIndex(d.links, d.links[i].id) == Some(i)
  {
    FirstWithId(d.links, i);
  }

  lemma {:induction false} FirstWithId(links: seq<Link>, i: nat)
    requires i < |links| && forall j :: 0 <= j < i ==> links[j].id != links[i].id
    ensures LinkIndex(links, links[i].id) == Some(i)
  {
    if i > 0 {
      FirstWithId(links[1..], i - 1);
    }
  }

  lemma NewLink(latency: int, host: CoordinatorState, guests: seq<CoordinatorState>, i: nat)
    requires Seated(host, guests) && i < |guests|
    ensures var d := NewNet(latency, host, guests);
            && |d.links| == |guests|
            && d.links[i] == Link(LinkIdOf(guests[i].peerId), guests[i].peerId, true, true)
            && LinkIndex(d.links, LinkIdOf(guests[i].peerId)) == Some(i)
  {
    var d := NewNet(latency, host, guests);
    forall j | 0 <= j < i ensures d.links[j].id != d.links[i].id {
      LinkNamesDiffer(guests[j].peerId, guests[i].peerId);
    }
    LinkOfGuest(d, i);
  }

  // ----- what a node heard, and which ends closed -----

  // Told in the order of the operations, and handed exactly the wires delivered
  // to it, in order; its state and its announcements follow from that alone, and
  // it hears nothing from a link it has closed.
  ghost predicate Heeds(co: Coordinator, d: Net, ops: seq<Op>, e: Net, n: nat, heard: seq<Heard>)
    requires n < |d.nodes| == |e.nodes|
  {
    && ToldOf(heard) == RunTold(co, d, ops, n)
    && ReceivedOf(heard) == DeliveredTo(d, n, e.resolved)
    && e.nodes[n] == Grown(co, d.nodes[n], heard)
    && HushedAt(co, d, n, heard)
  }

  // Open unless the link was dropped or a node on that side asked to close it.
  ghost predicate OpenUntilClosed(co: Coordinator, d: Net, ops: seq<Op>, e: Net, lists: Lists, i: nat)
    requires i < |d.links| == |e.links| && 0 < |lists| == |d.nodes|
  {
    var id, link := d.links[i].id, e.links[i];
    && link.id == id && link.guestPeerId == d.links[i].guestPeerId
    && (link.hostOpen <==> id !in Cut(ops) && Close(id) !in Acted(co, d.nodes[0], lists[0]))
    && (link.guestOpen
        <==> id !in Cut(ops) && forall n :: 0 < n < |lists| ==> Close(id) !in Acted(co, d.nodes[n], lists[n]))
  }

  ghost predicate Account(co: Coordinator, d: Net, ops: seq<Op>, e: Net, lists: Lists) {
    && 0 < |lists| == |d.nodes| == |e.nodes| && |d.links| == |e.links|
    && (forall n :: 0 <= n < |lists| ==> Heeds(co, d, ops, e, n, lists[n]))
    && (forall i :: 0 <= i < |d.links| ==> OpenUntilClosed(co, d, ops, e, lists, i))
    && e.offered == AllOffers(co, d.nodes, lists) + Replays(ops)
  }

  // After any run every node has heard exactly the events its operations tell it
  // and the wires delivered to it; everything else follows from that.
  lemma EveryNodeHears(co: Coordinator, latency: int, host: CoordinatorState, guests: seq<CoordinatorState>,
                       ops: seq<Op>, e: Net)
    requires Seated(host, guests) && After(co, latency, host, guests, ops) == Some(e)
    ensures e.clock == Ticks(ops)
    ensures exists lists :: Account(co, NewNet(latency, host, guests), ops, e, lists)
  {
    var d := NewNet(latency, host, guests);
    NewNetIsProper(latency, host, guests);
    assert d.clock == 0 && d.resolved == [] && d.offered == 0 && |d.links| == |guests| && |d.nodes| == |guests| + 1;
    RunGoes(co, d, ops);
    hide Run, NewNet, Tale, Tells, RunTolds, Cut, Replays, Ticks, Proper;
    var lists :| Tale(co, d, e, lists, Cut(ops), Replays(ops)) && Tells(lists, RunTolds(co, d, ops));
    forall i | 0 <= i < |d.links|
      ensures LinkIndex(d.links, d.links[i].id) == Some(i) && d.links[i].hostOpen && d.links[i].guestOpen
    {
      NewLink(latency, host, guests, i);
    }
    hide LinkIndex, Seated;
    TaleIsAccount(co, d, ops, e, lists);
  }

  lemma TaleIsAccount(co: Coordinator, d: Net, ops: seq<Op>, e: Net, lists: Lists)
    requires Proper(d) && d.resolved == [] && d.offered == 0
    requires Tale(co, d, e, lists, Cut(ops), Replays(ops)) && Tells(lists, RunTolds(co, d, ops))
    requires forall i :: 0 <= i < |d.links| ==>
               LinkIndex(d.links, d.links[i].id) == Some(i) && d.links[i].hostOpen && d.links[i].guestOpen
    ensures Account(co, d, ops, e, lists)
  {
    assert 0 < |lists| == |d.nodes| == |e.nodes| && |d.links| == |e.links|;
    hide LinkIndex, Cut, Replays;
    forall n | 0 <= n < |lists| ensures Heeds(co, d, ops, e, n, lists[n]) {
      TaleOfNode(co, d, ops, e, lists, n);
    }
    forall i | 0 <= i < |d.links| ensures OpenUntilClosed(co, d, ops, e, lists, i) {
      TaleOfLink(co, d, ops, e, lists, i);
    }
    hide *;
    assert d.offered == 0;
  }

  lemma TaleOfNode(co: Coordinator, d: Net, ops: seq<Op>, e: Net, lists: Lists, n: nat)
    requires Proper(d) && d.resolved == [] && n < |d.nodes|
    requires Tale(co, d, e, lists, Cut(ops), Replays(ops)) && Tells(lists, RunTolds(co, d, ops))
    ensures |d.nodes| == |e.nodes| == |lists| && Heeds(co, d, ops, e, n, lists[n])
  {
    hide EndsTell, OffersTell, Endings, Proper, Grown, HushedAt, DeliveredTo, ToldOf, ReceivedOf, RunTold;
    assert e.resolved[0..] == e.resolved;
  }

  lemma TaleOfLink(co: Coordinator, d: Net, ops: seq<Op>, e: Net, lists: Lists, i: nat)
    requires Proper(d) && i < |d.links| && d.links[i].hostOpen && d.links[i].guestOpen
    requires LinkIndex(d.links, d.links[i].id) == Some(i) && |lists| == |d.nodes|
    requires EndsTell(co, d, e, lists, Cut(ops))
    ensures |d.links| == |e.links| && OpenUntilClosed(co, d, ops, e, lists, i)
  {
    hide LinkIndex, Cut, Acted;
    var id := d.links[i].id;
    assert EndTells(co, d.nodes, d.links[i], e.links[i], lists, Cut(ops));
    assert forall n :: 0 <= n < |d.nodes| ==> (d.nodes[n].role == HostRole <==> n == 0);
    assert Closed(co, d.nodes, lists, HostRole, id) <==> Close(id) in Acted(co, d.nodes[0], lists[0]);
    assert Closed(co, d.nodes, lists, GuestRole, id)
      <==> exists n :: 0 < n < |lists| && Close(id) in Acted(co, d.nodes[n], lists[n]);
  }

  // ----- closed ends -----

  // Nothing more is delivered at this end of the link, or sent from it.
  ghost predicate Silent(d: Net, e: Net, linkId: LinkId, side: Role) {
    && d.resolved <= e.resolved && d.sent <= e.sent
    && (forall j :: |d.resolved| <= j < |e.resolved| && e.resolved[j].delivered ==>
          !(e.resolved[j].packet.linkId == linkId && e.resolved[j].packet.toHost == (side == HostRole)))
    && (forall j :: |d.sent| <= j < |e.sent| ==>
          !(e.sent[j].linkId == linkId && e.sent[j].toHost == (side == GuestRole)))
  }

  // From any moment of a run on, a closed end takes and gives nothing.
  lemma NothingAfterClosing(co: Coordinator, latency: int, host: CoordinatorState, guests: seq<CoordinatorState>,
                            before: seq<Op>, d: Net, after: seq<Op>, e: Net, linkId: LinkId, i: nat)
    requires After(co, latency, host, guests, before) == Some(d) && Run(co, d, after) == Some(e)
    requires LinkIndex(d.links, linkId) == Some(i)
    ensures !d.links[i].hostOpen ==> Silent(d, e, linkId, HostRole)
    ensures !d.links[i].guestOpen ==> Silent(d, e, linkId, GuestRole)
  {
    ClosedEndsStaySilent(co, latency, host, guests, before, d, after, e);
    hide Run, After, LinkIndex, EndsForGood, TargetTerminal;
  }

  ghost predicate FinalFor(co: Coordinator, start: Net, before: seq<Op>, d: Net, e: Net, lists: Lists,
                           linkId: LinkId, n: nat)
    requires n < |lists| == |start.nodes|
  {
    linkId in Cut(before) || Close(linkId) in Acted(co, start.nodes[n], lists[n]) ==>
      Silent(d, e, linkId, if n == 0 then HostRole else GuestRole)
  }

  // So once a node has asked for its end to be closed, or the link was dropped,
  // nothing more reaches that end or leaves it, whatever happens after.
  lemma ClosingIsFinal(co: Coordinator, latency: int, host: CoordinatorState, guests: seq<CoordinatorState>,
                       before: seq<Op>, d: Net, after: seq<Op>, e: Net)
    requires Seated(host, guests)
    requires After(co, latency, host, guests, before) == Some(d) && Run(co, d, after) == Some(e)
    ensures exists lists ::
              && Account(co, NewNet(latency, host, guests), before, d, lists)
              && forall i, n :: 0 <= i < |guests| && 0 <= n < |lists| ==>
                   FinalFor(co, NewNet(latency, host, guests), before, d, e, lists, LinkIdOf(guests[i].peerId), n)
  {
    var start := NewNet(latency, host, guests);
    EveryNodeHears(co, latency, host, guests, before, d);
    assert |start.links| == |guests|;
    hide Account, NewNet, Run, Seated, After, Acted, Cut, LinkIdOf, Silent;
    var lists :| Account(co, start, before, d, lists);
    forall i, n | 0 <= i < |guests| && 0 <= n < |lists|
      ensures FinalFor(co, start, before, d, e, lists, LinkIdOf(guests[i].peerId), n)
    {
      NewLink(latency, host, guests, i);
      ReachedLink(co, start, d, i, before, lists);
      NothingAfterClosing(co, latency, host, guests, before, d, after, e, start.links[i].id, i);
      SilentOnceAsked(co, start, before, d, e, lists, i, n);
    }
  }

  lemma SilentOnceAsked(co: Coordinator, start: Net, before: seq<Op>, d: Net, e: Net, lists: Lists, i: nat, n: nat)
    requires Account(co, start, before, d, lists) && i < |start.links| && n < |lists|
    requires !d.links[i].hostOpen ==> Silent(d, e, start.links[i].id, HostRole)
    requires !d.links[i].guestOpen ==> Silent(d, e, start.links[i].id, GuestRole)
    ensures FinalFor(co, start, before, d, e, lists, start.links[i].id, n)
  {
    hide Heeds, Acted, Cut, Silent;
    assert OpenUntilClosed(co, start, before, d, lists, i);
  }

  lemma ReachedLink(co: Coordinator, start: Net, d: Net, i: nat, ops: seq<Op>, lists: Lists)
    requires Account(co, start, ops, d, lists) && i < |start.links|
    requires LinkIndex(start.links, start.links[i].id) == Some(i)
    ensures |d.links| == |start.links| && |lists| == |start.nodes|
    ensures LinkIndex(d.links, start.links[i].id) == Some(i)
  {
    hide Acted, Cut, Heeds, LinkIndex;
    forall j | 0 <= j < |start.links|
      ensures start.links[j].id == d.links[j].id && start.links[j].guestPeerId == d.links[j].guestPeerId
    {
      assert OpenUntilClosed(co, start, ops, d, lists, j);
    }
    LinkIndexSame(start.links, d.links, start.links[i].id);
  }

  // ----- open ends -----

  // When terminal states last, a packet for an end that is still open and a node
  // that is still running was delivered, whenever it came due.
  lemma OpenEndsReceive(co: Coordinator, latency: int, host: CoordinatorState, guests: seq<CoordinatorState>,
                        ops: seq<Op>, e: Net, j: nat, i: nat)
    requires Seated(host, guests) && EndsForGood(co)
    requires After(co, latency, host, guests, ops) == Some(e)
    requires j < |e.resolved| && i < |guests| && e.resolved[j].packet.linkId == LinkIdOf(guests[i].peerId)
    ensures |e.links| == |guests| && |e.nodes| == |guests| + 1
    ensures if e.resolved[j].packet.toHost then
              e.links[i].hostOpen && !co.isTerminal(e.nodes[0].state) ==> e.resolved[j].delivered
            else
              e.links[i].guestOpen && !co.isTerminal(e.nodes[i + 1].state) ==> e.resolved[j].delivered
  {
    var d := NewNet(latency, host, guests);
    NewNetIsProper(latency, host, guests);
    NewLink(latency, host, guests, i);
    assert d.nodes[i + 1].peerId == d.links[i].guestPeerId && d.resolved == [] && |d.nodes| == |guests| + 1;
    hide *;
    assert After(co, latency, host, guests, ops) == Run(co, d, ops) by { AfterIsRun(co, latency, host, guests, ops); }
    OpenEndReceives(co, d, ops, e, j, i);
  }

  lemma AfterIsRun(co: Coordinator, latency: int, host: CoordinatorState, guests: seq<CoordinatorState>, ops: seq<Op>)
    ensures After(co, latency, host, guests, ops) == Run(co, NewNet(latency, host, guests), ops)
  {
    hide Run, NewNet;
  }

  lemma OpenEndReceives(co: Coordinator, d: Net, ops: seq<Op>, e: Net, j: nat, i: nat)
    requires Proper(d) && EndsForGood(co) && Run(co, d, ops) == Some(e) && d.resolved == [] && j < |e.resolved|
    requires i < |d.links| && |d.nodes| == |d.links| + 1 && d.nodes[i + 1].peerId == d.links[i].guestPeerId
    requires LinkIndex(d.links, e.resolved[j].packet.linkId) == Some(i)
    ensures |e.links| == |d.links| && |e.nodes| == |d.nodes|
    ensures if e.resolved[j].packet.toHost then
              e.links[i].hostOpen && !co.isTerminal(e.nodes[0].state) ==> e.resolved[j].delivered
            else
              e.links[i].guestOpen && !co.isTerminal(e.nodes[i + 1].state) ==> e.resolved[j].delivered
  {
    hide *;
    RunGoes(co, d, ops);
    var told, cut, replays, ticks := RunTolds(co, d, ops), Cut(ops), Replays(ops), Ticks(ops);
    GoesSame(co, d, e, told, cut, replays, ticks);
    GoesRefuses(co, d, e, told, cut, replays, ticks);
    SameSizes(d, e);
    ReceiverIs(d, e, e.resolved[j].packet, i);
    RefusedWhy(co, d, e, j, i, if e.resolved[j].packet.toHost then 0 else i + 1);
  }

  lemma SameSizes(d: Net, e: Net)
    requires SameNodes(d.nodes, e.nodes) && SameLinks(d.links, e.links)
    ensures |e.nodes| == |d.nodes| && |e.links| == |d.links|
  {
  }

  lemma GoesRefuses(co: Coordinator, d: Net, e: Net, told: Lists, cut: set<LinkId>, replays: nat, ticks: int)
    requires Goes(co, d, e, told, cut, replays, ticks) && EndsForGood(co)
    ensures Refuses(co, d, e)
  {
    hide NodesTell, EndsTell, WiresTell, OffersTell, Hushed, Tells, EndsForGood, Refuses;
  }

  lemma RefusedWhy(co: Coordinator, d: Net, e: Net, j: nat, i: nat, n: nat)
    requires Refuses(co, d, e) && d.resolved == [] && j < |e.resolved| && i < |e.links| && n < |e.nodes|
    requires LinkIndex(e.links, e.resolved[j].packet.linkId) == Some(i)
    requires Addressee(e.links, e.nodes, e.resolved[j].packet) == Some(n)
    ensures !e.resolved[j].delivered ==>
              || (if e.resolved[j].packet.toHost then !e.links[i].hostOpen else !e.links[i].guestOpen)
              || co.isTerminal(e.nodes[n].state)
  {
    hide LinkIndex, Addressee;
  }

  lemma ReceiverIs(d: Net, e: Net, packet: Packet, i: nat)
    requires Proper(d) && SameNodes(d.nodes, e.nodes) && SameLinks(d.links, e.links)
    requires LinkIndex(d.links, packet.linkId) == Some(i) && i + 1 < |d.nodes|
    requires d.nodes[i + 1].peerId == d.links[i].guestPeerId
    ensures LinkIndex(e.links, packet.linkId) == Some(i)
    ensures Addressee(e.links, e.nodes, packet) == Some(if packet.toHost then 0 else i + 1)
  {
    AddresseeSame(d, e, packet);
    LinkIndexSame(d.links, e.links, packet.linkId);
    IndexOfName(d.nodes, 0);
    IndexOfName(d.nodes, i + 1);
    hide NodeIndex, LinkIndex;
  }

  // One packet: delivered exactly when the end it arrives at is open and the
  // node there is still running, and dropped otherwise.
  lemma DeliveredExactly(co: Coordinator, d: Net, packet: Packet, e: Net, i: nat, n: nat)
    requires Deliver(co, d, packet) == Some(e)
    requires LinkIndex(d.links, packet.linkId) == Some(i)
    requires NodeIndex(d.nodes, if packet.toHost then HOST_PEER_ID else d.links[i].guestPeerId) == Some(n)
    ensures e.delivered == d.delivered + 1 <==>
              (if packet.toHost then d.links[i].hostOpen else d.links[i].guestOpen) && !co.isTerminal(d.nodes[n].state)
    ensures e.delivered == d.delivered || e.delivered == d.delivered + 1
  {
    hide React, NodeIndex, LinkIndex;
    if ReceiverOpen(d.links, packet) && !co.isTerminal(d.nodes[n].state) {
      var counted := d.(delivered := d.delivered + 1, resolved := d.resolved + [Resolution(packet, d.clock, true)]);
      ReactionReaches(co, counted, n, co.receive(d.nodes[n].state, packet.linkId, packet.wire));
    }
  }

  // One target of one message: queued with its deadline exactly when the link
  // exists and the sender's own end of it is open, and dropped otherwise.
  lemma QueuedExactly(co: Coordinator, d: Net, n: nat, linkId: LinkId, message: ControlMessage)
    requires n < |d.nodes|
    ensures var e := Enqueue(co, d, n, linkId, message); var index := LinkIndex(d.links, linkId);
            if index.Some? && (if d.nodes[n].role == HostRole then d.links[index.value].hostOpen
                               else d.links[index.value].guestOpen)
            then e.dropped == d.dropped && e.queue == d.queue
                   + [Packet(linkId, d.nodes[n].role == GuestRole, co.encode(message), d.clock + d.latencyTicks)]
            else e.queue == d.queue && e.dropped == d.dropped + 1
  {
  }

  // ----- one tick -----

  // Every node hears what is delivered meanwhile, in order, then the tick, and
  // nothing else.
  ghost predicate TickLast(co: Coordinator, d: Net, e: Net) {
    && e.clock == d.clock + 1 && |e.nodes| == |d.nodes| && d.resolved <= e.resolved
    && forall n :: 0 <= n < |d.nodes| ==>
         e.nodes[n] == Grown(co, d.nodes[n], DeliveredTo(d, n, e.resolved[|d.resolved|..]) + [Told(Tick)])
  }

  // With a latency of at least one tick, a tick comes after all that is due then.
  lemma TickComesLast(co: Coordinator, latency: int, host: CoordinatorState, guests: seq<CoordinatorState>,
                      ops: seq<Op>, d: Net, e: Net)
    requires latency >= 1 && After(co, latency, host, guests, ops) == Some(d) && TickOnce(co, d) == Some(e)
    ensures TickLast(co, d, e)
  {
    ReachedIsSound(co, latency, host, guests, ops, d);
    TickParts(co, d);
    hide *;
    var first := Pump(co, d.(clock := d.clock + 1), MAX_PUMP_ROUNDS).value;
    FirstPump(co, d, first);
    SecondPump(co, first, TickNodes(co, first, 0));
    TickIsHeard(co, d, first, e);
  }

  lemma TickParts(co: Coordinator, d: Net)
    requires TickOnce(co, d).Some?
    ensures var p := Pump(co, d.(clock := d.clock + 1), MAX_PUMP_ROUNDS);
            p.Some? && TickOnce(co, d) == Pump(co, TickNodes(co, p.value, 0), MAX_PUMP_ROUNDS)
  {
    hide Pump, TickNodes;
  }

  lemma FirstPump(co: Coordinator, d: Net, first: Net)
    requires Settled(d) && Punctual(d, 1) && d.latencyTicks >= 1
    requires Pump(co, d.(clock := d.clock + 1), MAX_PUMP_ROUNDS) == Some(first)
    ensures Settled(first) && Punctual(first, 1) && first.latencyTicks >= 1
    ensures Goes(co, d, first, Nothing(|d.nodes|), {}, 0, 1)
  {
    var later := d.(clock := d.clock + 1);
    ClockLater(co, d);
    assert later.latencyTicks >= 1;
    hide Pump, Settled, Punctual, Goes, InOrder, Later;
    PumpKeeps(co, later, MAX_PUMP_ROUNDS);
    SameGoes(co, d, later);
    PumpedAfter(co, d, later, Nothing(|d.nodes|), {}, 0, 1);
  }

  lemma SecondPump(co: Coordinator, first: Net, ticked: Net)
    requires Settled(first) && Punctual(first, 1) && first.latencyTicks >= 1 && ticked == TickNodes(co, first, 0)
    ensures Pump(co, ticked, MAX_PUMP_ROUNDS) == Some(ticked) && ticked.resolved == first.resolved
    ensures Goes(co, first, ticked, Rest(|first.nodes|, 0, Told(Tick)), {}, 0, 0)
  {
    assert MAX_PUMP_ROUNDS > 0;
    hide *;
    TickNodesMoves(co, first, 0);
    TickNodesGoes(co, first, 0);
    MovesKeeps(co, first, ticked);
    KeepsPunctual(co, first, ticked, false);
    PumpIdle(co, ticked, MAX_PUMP_ROUNDS);
    NothingResolved(co, first, ticked);
  }

  lemma NothingResolved(co: Coordinator, d: Net, e: Net)
    requires Moves(co, d, [], e)
    ensures e.resolved == d.resolved
  {
    hide Lives, SameShape, Balances, Sends, Dates, Welcome;
    var news :| Resolves(co, d, e, [], news);
  }

  lemma {:induction false} AllReceived(heard: seq<Heard>)
    requires ToldOf(heard) == []
    ensures ReceivedOf(heard) == heard
  {
    if heard != [] {
      var init, last := heard[..|heard| - 1], heard[|heard| - 1];
      assert heard == init + [last];
      assert |ToldOf(heard)| == |ToldOf(init)| + if last.Received? then 0 else 1;
      AllReceived(init);
    }
  }

  lemma {:induction false} AllTold(heard: seq<Heard>)
    requires ReceivedOf(heard) == []
    ensures ToldOf(heard) == heard
  {
    if heard != [] {
      var init, last := heard[..|heard| - 1], heard[|heard| - 1];
      assert heard == init + [last];
      assert |ReceivedOf(heard)| == |ReceivedOf(init)| + if last.Received? then 1 else 0;
      AllTold(init);
    }
  }

  lemma TickIsHeard(co: Coordinator, d: Net, first: Net, e: Net)
    requires Goes(co, d, first, Nothing(|d.nodes|), {}, 0, 1) && e.resolved == first.resolved
    requires Goes(co, first, e, Rest(|first.nodes|, 0, Told(Tick)), {}, 0, 0)
    ensures TickLast(co, d, e)
  {
    hide EndsTell, OffersTell, Hushed, Endings, Grown, DeliveredTo, ToldOf, ReceivedOf;
    var x :| Tale(co, d, first, x, {}, 0) && Tells(x, Nothing(|d.nodes|));
    var y :| Tale(co, first, e, y, {}, 0) && Tells(y, Rest(|first.nodes|, 0, Told(Tick)));
    forall n | 0 <= n < |d.nodes|
      ensures e.nodes[n]
           == Grown(co, d.nodes[n], DeliveredTo(d, n, e.resolved[|d.resolved|..]) + [Told(Tick)])
    {
      assert e.resolved[|first.resolved|..] == [];
      NoneDelivered(first, n);
      AllReceived(x[n]);
      AllTold(y[n]);
      GrownTwice(co, d.nodes[n], x[n], y[n]);
    }
  }

  lemma NoneDelivered(d: Net, n: nat)
    ensures DeliveredTo(d, n, []) == []
  {
  }

  // ----- injections -----

  lemma ReachedIsSettled(co: Coordinator, latency: int, host: CoordinatorState, guests: seq<CoordinatorState>,
                         ops: seq<Op>, d: Net)
    requires Seated(host, guests) && After(co, latency, host, guests, ops) == Some(d)
    ensures Settled(d) && Proper(d) && d.latencyTicks == latency
  {
    var start := NewNet(latency, host, guests);
    NewNetIsProper(latency, host, guests);
    NewNetIsSound(latency, host, guests);
    LatencyIsKept(latency, host, guests);
    RunSound(co, start, ops);
    hide Run, NewNet, Settled, Proper, InOrder, Punctual, SameLinks, SameNodes, Lives;
    ProperStays(start, d);
  }

  // The message is next in the transcript, and next in the line on this link if
  // the sender's own end of it is open; otherwise it is dropped.
  ghost predicate GoesOut(co: Coordinator, d: Net, n: nat, linkId: LinkId, message: ControlMessage, e: Net) {
    var index := LinkIndex(d.links, linkId);
    && d.transcript + [message] <= e.transcript
    && if index.Some? && (if n == 0 then d.links[index.value].hostOpen else d.links[index.value].guestOpen) then
         d.sent + [Packet(linkId, n > 0, co.encode(message), d.clock + d.latencyTicks)] <= e.sent
       else e.dropped > d.dropped
  }

  lemma InjectionReacts(co: Coordinator, d: Net, n: nat, linkId: LinkId, message: ControlMessage)
    requires n < |d.nodes| && d.nodes[n].role == (if n == 0 then HostRole else GuestRole)
    ensures GoesOut(co, d, n, linkId, message,
                    React(co, d, n, Answer(co, d.nodes[n].state, Injected(linkId, message))))
  {
    var state := Answer(co, d.nodes[n].state, Injected(linkId, message)).0;
    var taken := d.(nodes := d.nodes[n := d.nodes[n].(state := state)]);
    var written := taken.(transcript := d.transcript + [message]);
    var sent := Enqueue(co, written, n, linkId, message);
    assert FanOut(co, sent, n, [], message) == sent;
    assert FanOut(co, written, n, [linkId], message) == sent;
    assert Apply(co, sent, n, []) == sent;
    assert Apply(co, taken, n, [Send([linkId], message)]) == sent;
  }

  lemma InjectionKeeps(co: Coordinator, d: Net, n: nat, fromPeer: PeerId, toPeer: PeerId, payload: Payload)
    requires n < |d.nodes| && fromPeer == d.nodes[n].peerId && Settled(d)
    ensures Settled(React(co, d, n, Answer(co, d.nodes[n].state, Injection(d, n, fromPeer, toPeer, payload))))
  {
    var h := Injection(d, n, fromPeer, toPeer, payload);
    var actions := [Send([h.linkId], h.message)];
    var counted := d.(nodes := d.nodes[n := d.nodes[n].(state := Answer(co, d.nodes[n].state, h).0)]);
    OneMessage([h.linkId], h.message);
    assert React(co, d, n, Answer(co, d.nodes[n].state, h)) == Apply(co, counted, n, actions);
    hide Moves, Settled, Apply, React, Messages, Injection;
    InjectMoves(co, d, n, counted, h.message, actions);
    MovesKeeps(co, d, Apply(co, counted, n, actions));
  }

  lemma InjectionOf(d: Net, n: nat, toPeer: PeerId, payload: Payload)
    requires Proper(d) && n < |d.nodes|
    ensures Injection(d, n, d.nodes[n].peerId, toPeer, payload)
         == Injected(LinkIdOf(if n == 0 then toPeer else d.nodes[n].peerId),
                     ControlMessage(d.nodes[n].peerId, d.nodes[n].state.sequence, payload))
  {
    hide LinkIdOf;
  }

  // A pump only adds to what was written, sent and dropped.
  lemma PumpAdds(co: Coordinator, d: Net)
    requires Settled(d) && Pump(co, d, MAX_PUMP_ROUNDS).Some?
    ensures Adds(d, Pump(co, d, MAX_PUMP_ROUNDS).value)
  {
    PumpKeeps(co, d, MAX_PUMP_ROUNDS);
    PumpGoes(co, d, MAX_PUMP_ROUNDS);
    hide Pump, Settled, InOrder, Punctual, SameShape, NodesTell, EndsTell, WiresTell, Hushed, Endings, Tells;
  }

  ghost predicate Adds(d: Net, e: Net) {
    d.transcript <= e.transcript && d.sent <= e.sent && d.dropped <= e.dropped
  }

  lemma GoesOutStill(co: Coordinator, d: Net, n: nat, linkId: LinkId, message: ControlMessage, s: Net, e: Net)
    requires GoesOut(co, d, n, linkId, message, s) && Adds(s, e)
    ensures GoesOut(co, d, n, linkId, message, e)
  {
    hide LinkIndex;
  }

  // An injected message goes out under its sender's number on the named peer's
  // link: a guest's to the host, the host's to that guest.
  lemma InjectionGoesOut(co: Coordinator, latency: int, host: CoordinatorState, guests: seq<CoordinatorState>,
                         ops: seq<Op>, d: Net, n: nat, toPeer: PeerId, payload: Payload, e: Net)
    requires Seated(host, guests) && After(co, latency, host, guests, ops) == Some(d) && n < |d.nodes|
    requires Inject(co, d, d.nodes[n].peerId, toPeer, payload) == Some(e)
    ensures GoesOut(co, d, n, LinkIdOf(if n == 0 then toPeer else d.nodes[n].peerId),
                    ControlMessage(d.nodes[n].peerId, d.nodes[n].state.sequence, payload), e)
  {
    var fromPeer := d.nodes[n].peerId;
    ReachedIsSettled(co, latency, host, guests, ops, d);
    IndexOfName(d.nodes, n);
    InjectIsTold(co, d, fromPeer, toPeer, payload, n);
    InjectionOf(d, n, toPeer, payload);
    var h := Injection(d, n, fromPeer, toPeer, payload);
    InjectionReacts(co, d, n, h.linkId, h.message);
    var s := React(co, d, n, Answer(co, d.nodes[n].state, h));
    hide *;
    InjectionKeeps(co, d, n, fromPeer, toPeer, payload);
    PumpAdds(co, s);
    GoesOutStill(co, d, n, h.linkId, h.message, s, e);
  }
}
