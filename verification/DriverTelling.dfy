// The story of each driver function, up to whole runs: exactly which events each
// node is told, which wires reach it, which ends close and how much is offered.
module DriverTelling {
  import opened Results
  import opened DriverSteps
  import opened DriverRelations
  import opened DriverStory

  // ----- carrying out actions -----

  lemma {:induction false} FanOutOffers(co: Coordinator, d: Net, n: nat, targets: seq<LinkId>, message: ControlMessage)
    requires n < |d.nodes|
    ensures var e := FanOut(co, d, n, targets, message);
            && e.nodes == d.nodes && e.links == d.links && e.resolved == d.resolved && e.clock == d.clock
            && e.offered == d.offered + |targets| && d.dropped <= e.dropped
    decreases targets
  {
    if targets != [] {
      FanOutOffers(co, Enqueue(co, d, n, targets[0], message), n, targets[1..], message);
    }
  }

  // These actions of a node on this side close exactly its own ends.
  ghost predicate Shuts(was: seq<Link>, side: Role, actions: seq<Action>, now: seq<Link>) {
    SameLinks(was, now)
    && forall i :: 0 <= i < |was| && LinkIndex(was, was[i].id) == Some(i) ==> ShutsEnds(was[i], side, actions, now[i])
  }

  ghost predicate ShutsEnds(was: Link, side: Role, actions: seq<Action>, now: Link) {
    && (now.hostOpen <==> was.hostOpen && !(side == HostRole && Close(was.id) in actions))
    && (now.guestOpen <==> was.guestOpen && !(side == GuestRole && Close(was.id) in actions))
  }

  lemma ShutsThen(a: seq<Link>, b: seq<Link>, c: seq<Link>, side: Role, first: seq<Action>, second: seq<Action>)
    requires Shuts(a, side, first, b) && Shuts(b, side, second, c)
    ensures Shuts(a, side, first + second, c)
  {
    hide LinkIndex;
    forall i | 0 <= i < |a| && LinkIndex(a, a[i].id) == Some(i) ensures ShutsEnds(a[i], side, first + second, c[i]) {
      LinkIndexSame(a, b, a[i].id);
      assert ShutsEnds(a[i], side, first, b[i]) && ShutsEnds(b[i], side, second, c[i]);
    }
  }

  ghost predicate Carried(d: Net, n: nat, actions: seq<Action>, e: Net)
    requires n < |d.nodes|
  {
    && e.nodes == d.nodes[n := Marked(d.nodes[n], d.nodes[n].state, actions)]
    && Shuts(d.links, d.nodes[n].role, actions, e.links)
    && e.resolved == d.resolved && e.clock == d.clock
    && e.offered == d.offered + Offers(actions) && d.dropped <= e.dropped
  }

  lemma ApplyOneCarries(co: Coordinator, d: Net, n: nat, action: Action)
    requires n < |d.nodes|
    ensures Carried(d, n, [action], ApplyOne(co, d, n, action))
  {
    LastOne(action);
    OffersOne(action);
    hide LastReason, LastStart, Offers;
    var e := ApplyOne(co, d, n, action);
    assert Shuts(d.links, d.nodes[n].role, [action], e.links) by {
      if action.Send? {
        FanOutOffers(co, d.(transcript := d.transcript + [action.message]), n, action.targets, action.message);
      }
    }
    hide Shuts;
    if action.Send? {
      FanOutOffers(co, d.(transcript := d.transcript + [action.message]), n, action.targets, action.message);
    }
  }

  lemma MarkedTwice(node: Node, a: seq<Action>, b: seq<Action>)
    ensures var state := node.state; Marked(Marked(node, state, a), state, b) == Marked(node, state, a + b)
  {
    LastConcat(a, b);
    hide LastReason, LastStart;
  }

  lemma CarriedThen(a: Net, b: Net, c: Net, n: nat, first: seq<Action>, second: seq<Action>)
    requires n < |a.nodes| == |b.nodes| && Carried(a, n, first, b) && Carried(b, n, second, c)
    ensures Carried(a, n, first + second, c)
  {
    MarkedTwice(a.nodes[n], first, second);
    OffersConcat(first, second);
    assert b.nodes[n].role == a.nodes[n].role && b.nodes[n].state == a.nodes[n].state;
    ShutsThen(a.links, b.links, c.links, a.nodes[n].role, first, second);
    hide Marked, Shuts, Offers;
  }

  lemma ApplyNone(co: Coordinator, d: Net, n: nat)
    requires n < |d.nodes|
    ensures Carried(d, n, [], Apply(co, d, n, []))
  {
  }

  lemma ApplyFirst(co: Coordinator, d: Net, n: nat, actions: seq<Action>)
    requires n < |d.nodes| && actions != []
    ensures Apply(co, d, n, actions) == Apply(co, ApplyOne(co, d, n, actions[0]), n, actions[1..])
  {
    hide ApplyOne;
  }

  lemma {:induction false} ApplyCarries(co: Coordinator, d: Net, n: nat, actions: seq<Action>)
    requires n < |d.nodes|
    ensures Carried(d, n, actions, Apply(co, d, n, actions))
    decreases actions
  {
    hide *;
    if actions == [] {
      ApplyNone(co, d, n);
    } else {
      ApplyFirst(co, d, n, actions);
      var next := ApplyOne(co, d, n, actions[0]);
      ApplyOneCarries(co, d, n, actions[0]);
      ApplyCarries(co, next, n, actions[1..]);
      CarriedThen(d, next, Apply(co, d, n, actions), n, [actions[0]], actions[1..]);
      assert [actions[0]] + actions[1..] == actions;
    }
  }

  // ----- one node hears one thing -----

  lemma OnlyClosed(co: Coordinator, nodes: seq<Node>, n: nat, h: Heard, side: Role, id: LinkId)
    requires n < |nodes|
    ensures Closed(co, nodes, Only(|nodes|, n, h), side, id)
       <==> nodes[n].role == side && Close(id) in Answer(co, nodes[n].state, h).1
  {
    var lists := Only(|nodes|, n, h);
    FoldOne(co, nodes[n].state, h);
    forall m | 0 <= m < |nodes| && m != n ensures Acted(co, nodes[m], lists[m]) == [] {
      GrownNot(co, nodes[m]);
    }
    assert Acted(co, nodes[n], lists[n]) == Answer(co, nodes[n].state, h).1;
    hide Acted, Answer;
  }

  // What a reaction does to everything but the wires.
  ghost predicate Reacted(co: Coordinator, d: Net, e: Net, lists: Lists) {
    && NodesTell(co, d, e, lists) && EndsTell(co, d, e, lists, {}) && OffersTell(co, d, e, lists, 0)
    && e.resolved == d.resolved && e.clock == d.clock
  }

  lemma ReactNodes(co: Coordinator, d: Net, e: Net, n: nat, h: Heard)
    requires n < |d.nodes|
    requires var (state, actions) := Answer(co, d.nodes[n].state, h);
             e.nodes == d.nodes[n := Marked(d.nodes[n], state, actions)]
    ensures NodesTell(co, d, e, Only(|d.nodes|, n, h))
  {
    FoldOne(co, d.nodes[n].state, h);
    forall m | 0 <= m < |d.nodes| && m != n ensures e.nodes[m] == Grown(co, d.nodes[m], []) {
      GrownNot(co, d.nodes[m]);
    }
    hide Answer, Fold, Marked;
  }

  lemma ReactEnds(co: Coordinator, d: Net, e: Net, n: nat, h: Heard)
    requires n < |d.nodes| && Shuts(d.links, d.nodes[n].role, Answer(co, d.nodes[n].state, h).1, e.links)
    ensures EndsTell(co, d, e, Only(|d.nodes|, n, h), {})
  {
    hide LinkIndex, Answer, Closed, Only;
    forall i | 0 <= i < |d.links| && LinkIndex(d.links, d.links[i].id) == Some(i)
      ensures EndTells(co, d.nodes, d.links[i], e.links[i], Only(|d.nodes|, n, h), {})
    {
      OnlyClosed(co, d.nodes, n, h, HostRole, d.links[i].id);
      OnlyClosed(co, d.nodes, n, h, GuestRole, d.links[i].id);
    }
  }

  lemma ReactHears(co: Coordinator, d: Net, n: nat, h: Heard)
    requires n < |d.nodes|
    ensures Reacted(co, d, React(co, d, n, Answer(co, d.nodes[n].state, h)), Only(|d.nodes|, n, h))
  {
    var (state, actions) := Answer(co, d.nodes[n].state, h);
    var taken := d.(nodes := d.nodes[n := d.nodes[n].(state := state)]);
    var e := React(co, d, n, (state, actions));
    assert e == Apply(co, taken, n, actions);
    hide Apply, React, Answer;
    ApplyCarries(co, taken, n, actions);
    assert e.nodes == d.nodes[n := Marked(d.nodes[n], state, actions)];
    hide Marked, Shuts;
    ReactNodes(co, d, e, n, h);
    ReactEnds(co, d, e, n, h);
    OnlyOffers(co, d.nodes, n, h);
    hide NodesTell, EndsTell, AllOffers, Only;
  }

  // ----- stretches of work and what they tell -----

  // Between d and e each node is told exactly this; these links are cut, so many
  // packets are replayed and so many ticks go by.
  ghost predicate Goes(co: Coordinator, d: Net, e: Net, told: Lists, cut: set<LinkId>, replays: nat, ticks: int) {
    e.clock == d.clock + ticks && exists lists :: Tale(co, d, e, lists, cut, replays) && Tells(lists, told)
  }

  lemma TellsJoin(x: Lists, y: Lists, told: Lists, more: Lists)
    requires |x| == |y| && Tells(x, told) && Tells(y, more)
    ensures Tells(Join(x, y), Join(told, more))
  {
    hide ToldOf;
    forall n | 0 <= n < |x| ensures ToldOf(Join(x, y)[n]) == Join(told, more)[n] {
      PartsConcat(x[n], y[n]);
    }
  }

  lemma GoesThen(co: Coordinator, a: Net, b: Net, c: Net, told: Lists, more: Lists,
                 s: set<LinkId>, t: set<LinkId>, p: nat, q: nat, i: int, j: int)
    requires Goes(co, a, b, told, s, p, i) && Goes(co, b, c, more, t, q, j)
    ensures |told| == |more| && Goes(co, a, c, Join(told, more), s + t, p + q, i + j)
  {
    hide Tale, Tells, Join;
    var x :| Tale(co, a, b, x, s, p) && Tells(x, told);
    var y :| Tale(co, b, c, y, t, q) && Tells(y, more);
    TaleJoin(co, a, b, c, x, y, s, t, p, q);
    assert |x| == |told| && |y| == |more| by {
      SizeTold(x, told);
      SizeTold(y, more);
    }
    TellsJoin(x, y, told, more);
  }

  lemma SizeTold(x: Lists, told: Lists)
    requires Tells(x, told)
    ensures |x| == |told|
  {
  }

  lemma GoesSame(co: Coordinator, d: Net, e: Net, told: Lists, cut: set<LinkId>, replays: nat, ticks: int)
    requires Goes(co, d, e, told, cut, replays, ticks)
    ensures |told| == |d.nodes| == |e.nodes| && SameNodes(d.nodes, e.nodes) && SameLinks(d.links, e.links)
  {
    hide WiresTell, OffersTell, Endings;
    var x :| Tale(co, d, e, x, cut, replays) && Tells(x, told);
    SamePeers(co, d, e, x);
  }

  lemma StillNodes(co: Coordinator, d: Net, e: Net)
    requires e.nodes == d.nodes
    ensures NodesTell(co, d, e, Nothing(|d.nodes|))
    ensures AllOffers(co, d.nodes, Nothing(|d.nodes|)) == 0
  {
    NoOffers(co, d.nodes);
    hide Grown;
    forall n | 0 <= n < |d.nodes| ensures e.nodes[n] == Grown(co, d.nodes[n], []) {
      GrownNot(co, d.nodes[n]);
    }
  }

  lemma NothingCloses(co: Coordinator, nodes: seq<Node>, side: Role, id: LinkId)
    ensures !Closed(co, nodes, Nothing(|nodes|), side, id)
  {
    forall n | 0 <= n < |nodes| ensures Acted(co, nodes[n], Nothing(|nodes|)[n]) == [] {
      GrownNot(co, nodes[n]);
    }
  }

  lemma NothingTold(size: nat)
    ensures Tells(Nothing(size), Nothing(size))
  {
  }

  lemma NothingHeard(co: Coordinator, d: Net)
    ensures Hushed(co, d, Nothing(|d.nodes|))
  {
    hide MayHear, Proper;
  }

  lemma JoinNothing(told: Lists)
    ensures Join(Nothing(|told|), told) == told && Join(told, Nothing(|told|)) == told
  {
    forall n | 0 <= n < |told| ensures Join(Nothing(|told|), told)[n] == Join(told, Nothing(|told|))[n] == told[n] {
      assert [] + told[n] == told[n] && told[n] + [] == told[n];
    }
  }

  ghost predicate EndsSame(was: seq<Link>, now: seq<Link>, cut: set<LinkId>) {
    SameLinks(was, now)
    && forall i :: 0 <= i < |was| && LinkIndex(was, was[i].id) == Some(i) ==>
         && (now[i].hostOpen <==> was[i].hostOpen && was[i].id !in cut)
         && (now[i].guestOpen <==> was[i].guestOpen && was[i].id !in cut)
  }

  lemma StillEnds(co: Coordinator, d: Net, e: Net, cut: set<LinkId>)
    requires EndsSame(d.links, e.links, cut)
    ensures EndsTell(co, d, e, Nothing(|d.nodes|), cut)
  {
    hide LinkIndex, Closed;
    forall i | 0 <= i < |d.links| && LinkIndex(d.links, d.links[i].id) == Some(i)
      ensures EndTells(co, d.nodes, d.links[i], e.links[i], Nothing(|d.nodes|), cut)
    {
      NothingCloses(co, d.nodes, HostRole, d.links[i].id);
      NothingCloses(co, d.nodes, GuestRole, d.links[i].id);
    }
  }

  // Nobody hears anything: the clock moves, the queue changes, ends are cut.
  lemma StillGoes(co: Coordinator, d: Net, e: Net, cut: set<LinkId>, replays: nat)
    requires e.nodes == d.nodes && e.resolved == d.resolved && EndsSame(d.links, e.links, cut)
    requires e.offered == d.offered + replays && e.dropped == d.dropped
    ensures Goes(co, d, e, Nothing(|d.nodes|), cut, replays, e.clock - d.clock)
  {
    var lists := Nothing(|d.nodes|);
    StillNodes(co, d, e);
    StillEnds(co, d, e, cut);
    NothingTold(|d.nodes|);
    NothingHeard(co, d);
    hide NodesTell, EndsTell, Tells, EndsSame, AllOffers, Hushed;
    assert e.resolved[|d.resolved|..] == [];
    assert Tale(co, d, e, lists, cut, replays);
  }

  lemma SameGoes(co: Coordinator, d: Net, e: Net)
    requires e.nodes == d.nodes && e.resolved == d.resolved && e.links == d.links
    requires e.offered == d.offered && e.dropped == d.dropped
    ensures Goes(co, d, e, Nothing(|d.nodes|), {}, 0, e.clock - d.clock)
  {
    hide Goes;
    StillGoes(co, d, e, {}, 0);
  }

  lemma OnlyTold(co: Coordinator, d: Net, e: Net, n: nat, h: Heard)
    requires n < |d.nodes| && !h.Received? && e.resolved == d.resolved
    ensures var lists := Only(|d.nodes|, n, h);
            Tells(lists, lists) && WiresTell(d, e, lists) && Hushed(co, d, lists)
  {
    PartsOfOne(h);
    assert e.resolved[|d.resolved|..] == [];
    hide MayHear;
  }

  // A node is told an event, or a message is injected in its name.
  lemma TellGoes(co: Coordinator, d: Net, n: nat, h: Heard)
    requires n < |d.nodes| && !h.Received?
    ensures Goes(co, d, React(co, d, n, Answer(co, d.nodes[n].state, h)), Only(|d.nodes|, n, h), {}, 0, 0)
  {
    var e := React(co, d, n, Answer(co, d.nodes[n].state, h));
    var lists := Only(|d.nodes|, n, h);
    ReactHears(co, d, n, h);
    hide React, EndsTell, OffersTell, Only, Endings, WiresTell, Hushed, Tells, NodesTell;
    TellKeepsEndings(co, d, e, n, h);
    OnlyTold(co, d, e, n, h);
    assert Tale(co, d, e, lists, {}, 0);
  }

  lemma TellKeepsEndings(co: Coordinator, d: Net, e: Net, n: nat, h: Heard)
    requires n < |d.nodes| && !h.Received? && NodesTell(co, d, e, Only(|d.nodes|, n, h)) && e.resolved == d.resolved
    ensures Endings(co, d, e)
  {
    FoldOne(co, d.nodes[n].state, h);
    forall m | 0 <= m < |d.nodes| && m != n ensures e.nodes[m] == d.nodes[m] {
      GrownNot(co, d.nodes[m]);
    }
    assert e.nodes[n].state == Answer(co, d.nodes[n].state, h).0;
    hide Fold, NodesTell;
  }

  // ----- deliveries -----

  lemma OneDelivered(d: Net, m: nat, r: Resolution)
    ensures DeliveredTo(d, m, [r])
         == if r.delivered && Addressee(d.links, d.nodes, r.packet) == Some(m)
            then [Received(r.packet.linkId, r.packet.wire)] else []
  {
    hide Addressee;
    assert [r][..0] == [];
  }

  lemma RefusedWires(d: Net, e: Net, r: Resolution)
    requires e.resolved == d.resolved + [r] && !r.delivered
    ensures WiresTell(d, e, Nothing(|d.nodes|))
  {
    hide Addressee;
    assert e.resolved[|d.resolved|..] == [r];
    forall m: nat ensures DeliveredTo(d, m, [r]) == [] {
      OneDelivered(d, m, r);
    }
  }

  lemma RefusedGoes(co: Coordinator, d: Net, packet: Packet, e: Net)
    requires Addressee(d.links, d.nodes, packet).Some?
    requires EndShut(d.links, packet) || EndedNode(co, d, packet)
    requires e == d.(dropped := d.dropped + 1, resolved := d.resolved + [Resolution(packet, d.clock, false)])
    ensures Goes(co, d, e, Nothing(|d.nodes|), {}, 0, 0)
  {
    var lists := Nothing(|d.nodes|);
    StillNodes(co, d, e);
    StillEnds(co, d, e, {});
    NothingTold(|d.nodes|);
    RefusedWires(d, e, Resolution(packet, d.clock, false));
    SameEnding(co, d, e, packet);
    NothingHeard(co, d);
    assert StaysTerminal(co, d, e);
    hide NodesTell, EndsTell, Tells, AllOffers, Hushed, EndShut, EndedNode, Addressee, WiresTell, EndsForGood;
    hide StaysTerminal;
    assert Refuses(co, d, e);
    assert Tale(co, d, e, lists, {}, 0);
  }

  lemma SameEnding(co: Coordinator, d: Net, e: Net, packet: Packet)
    requires e.nodes == d.nodes && e.links == d.links
    ensures EndedNode(co, e, packet) == EndedNode(co, d, packet)
  {
  }

  // Everything but the wires is told of the net before the packet was counted too.
  lemma CountedTells(co: Coordinator, d: Net, counted: Net, e: Net, lists: Lists)
    requires Reacted(co, counted, e, lists) && counted.nodes == d.nodes && counted.links == d.links
    requires counted.offered == d.offered && counted.dropped == d.dropped
    ensures NodesTell(co, d, e, lists) && EndsTell(co, d, e, lists, {}) && OffersTell(co, d, e, lists, 0)
  {
    hide LinkIndex, Closed, AllOffers, Grown;
  }

  lemma OnlyOneMoved(co: Coordinator, d: Net, e: Net, n: nat, h: Heard)
    requires n < |d.nodes| && !co.isTerminal(d.nodes[n].state) && NodesTell(co, d, e, Only(|d.nodes|, n, h))
    ensures StaysTerminal(co, d, e)
  {
    forall m | 0 <= m < |d.nodes| && m != n ensures e.nodes[m] == d.nodes[m] {
      GrownNot(co, d.nodes[m]);
    }
    hide Grown;
  }

  lemma OnlyReceived(size: nat, n: nat, linkId: LinkId, wire: Wire)
    requires n < size
    ensures var h := Received(linkId, wire);
            && Tells(Only(size, n, h), Nothing(size))
            && forall m :: 0 <= m < size ==> ReceivedOf(Only(size, n, h)[m]) == if m == n then [h] else []
  {
    PartsOfOne(Received(linkId, wire));
  }

  lemma DeliveredWires(d: Net, e: Net, n: nat, r: Resolution)
    requires n < |d.nodes| && e.resolved == d.resolved + [r] && r.delivered
    requires Addressee(d.links, d.nodes, r.packet) == Some(n)
    ensures WiresTell(d, e, Only(|d.nodes|, n, Received(r.packet.linkId, r.packet.wire)))
    ensures Tells(Only(|d.nodes|, n, Received(r.packet.linkId, r.packet.wire)), Nothing(|d.nodes|))
  {
    var h := Received(r.packet.linkId, r.packet.wire);
    assert e.resolved[|d.resolved|..] == [r];
    hide Addressee, DeliveredTo, ReceivedOf, Only, Tells;
    OnlyReceived(|d.nodes|, n, r.packet.linkId, r.packet.wire);
    forall m | 0 <= m < |d.nodes| ensures ReceivedOf(Only(|d.nodes|, n, h)[m]) == DeliveredTo(d, m, [r]) {
      OneDelivered(d, m, r);
    }
  }

  lemma DeliveredHushes(co: Coordinator, d: Net, packet: Packet, n: nat)
    requires n < |d.nodes| && Addressee(d.links, d.nodes, packet) == Some(n) && ReceiverOpen(d.links, packet)
    ensures Hushed(co, d, Only(|d.nodes|, n, Received(packet.linkId, packet.wire)))
  {
    if Proper(d) {
      var h := Received(packet.linkId, packet.wire);
      assert [h][..0] == [];
      GrownNot(co, d.nodes[n]);
      hide NodeIndex, LinkIndex, Acted;
      assert MayHear(co, d, n, [], packet.linkId);
    }
  }

  lemma DeliveredGoes(co: Coordinator, d: Net, packet: Packet, n: nat, counted: Net)
    requires n < |d.nodes| && Addressee(d.links, d.nodes, packet) == Some(n) && !co.isTerminal(d.nodes[n].state)
    requires ReceiverOpen(d.links, packet)
    requires counted == d.(delivered := d.delivered + 1, resolved := d.resolved + [Resolution(packet, d.clock, true)])
    ensures var h := Received(packet.linkId, packet.wire);
            Goes(co, d, React(co, counted, n, Answer(co, d.nodes[n].state, h)), Nothing(|d.nodes|), {}, 0, 0)
  {
    var h := Received(packet.linkId, packet.wire);
    var e := React(co, counted, n, Answer(co, d.nodes[n].state, h));
    var lists := Only(|d.nodes|, n, h);
    ReactHears(co, counted, n, h);
    assert e.resolved == d.resolved + [Resolution(packet, d.clock, true)] && e.clock == d.clock;
    hide NodesTell, EndsTell, OffersTell, WiresTell, StaysTerminal, Only, React, Answer, Addressee, EndsForGood, Tells;
    hide Hushed, ReceiverOpen;
    DeliveredHushes(co, d, packet, n);
    CountedTells(co, d, counted, e, lists);
    OnlyOneMoved(co, d, e, n, h);
    DeliveredWires(d, e, n, Resolution(packet, d.clock, true));
    assert Refuses(co, d, e);
    assert Tale(co, d, e, lists, {}, 0);
  }

  lemma DeliverGoes(co: Coordinator, d: Net, packet: Packet)
    requires Deliver(co, d, packet).Some?
    ensures Goes(co, d, Deliver(co, d, packet).value, Nothing(|d.nodes|), {}, 0, 0)
  {
    hide Goes, React, NodeIndex, LinkIndex;
    var n := NodeIndex(d.nodes, TargetOf(d.links, packet).value).value;
    assert Addressee(d.links, d.nodes, packet) == Some(n);
    if ReceiverOpen(d.links, packet) && !co.isTerminal(d.nodes[n].state) {
      var counted := d.(delivered := d.delivered + 1, resolved := d.resolved + [Resolution(packet, d.clock, true)]);
      DeliveredGoes(co, d, packet, n, counted);
    } else {
      RefusedGoes(co, d, packet, Deliver(co, d, packet).value);
    }
  }

  // Two stretches in which nobody is told anything.
  lemma QuietThen(co: Coordinator, a: Net, b: Net, c: Net, i: int, j: int)
    requires Goes(co, a, b, Nothing(|a.nodes|), {}, 0, i) && Goes(co, b, c, Nothing(|b.nodes|), {}, 0, j)
    ensures Goes(co, a, c, Nothing(|a.nodes|), {}, 0, i + j)
  {
    GoesSame(co, a, b, Nothing(|a.nodes|), {}, 0, i);
    JoinNothing(Nothing(|a.nodes|));
    hide Goes, Join;
    GoesThen(co, a, b, c, Nothing(|a.nodes|), Nothing(|a.nodes|), {}, {}, 0, 0, i, j);
    var none: set<LinkId> := {};
    assert none + none == none;
  }

  lemma DeliverAllFirst(co: Coordinator, d: Net, packets: seq<Packet>)
    requires packets != []
    ensures DeliverAll(co, d, packets)
         == match Deliver(co, d, packets[0]) case None => None case Some(next) => DeliverAll(co, next, packets[1..])
  {
    hide Deliver;
  }

  lemma DeliverNone(co: Coordinator, d: Net)
    ensures DeliverAll(co, d, []) == Some(d)
  {
  }

  lemma {:induction false} DeliverAllGoes(co: Coordinator, d: Net, packets: seq<Packet>)
    requires DeliverAll(co, d, packets).Some?
    ensures Goes(co, d, DeliverAll(co, d, packets).value, Nothing(|d.nodes|), {}, 0, 0)
    decreases packets
  {
    hide *;
    if packets == [] {
      DeliverNone(co, d);
      SameGoes(co, d, d);
    } else {
      DeliverAllFirst(co, d, packets);
      var next := Deliver(co, d, packets[0]).value;
      DeliverGoes(co, d, packets[0]);
      DeliverAllGoes(co, next, packets[1..]);
      QuietThen(co, d, next, DeliverAll(co, d, packets).value, 0, 0);
    }
  }

  lemma PumpStep(co: Coordinator, d: Net, rounds: nat)
    requires Pump(co, d, rounds).Some?
    ensures rounds > 0
    ensures var taken := d.(queue := Due(d.queue, d.clock, false)); var due := Due(d.queue, d.clock, true);
            && (due == [] ==> Pump(co, d, rounds) == Some(taken))
            && (due != [] ==>
                  && DeliverAll(co, taken, due).Some?
                  && Pump(co, d, rounds) == Pump(co, DeliverAll(co, taken, due).value, rounds - 1))
  {
  }

  lemma {:induction false} PumpGoes(co: Coordinator, d: Net, rounds: nat)
    requires Pump(co, d, rounds).Some?
    ensures Goes(co, d, Pump(co, d, rounds).value, Nothing(|d.nodes|), {}, 0, 0)
    decreases rounds
  {
    hide *;
    PumpStep(co, d, rounds);
    var taken := d.(queue := Due(d.queue, d.clock, false));
    SameGoes(co, d, taken);
    if Due(d.queue, d.clock, true) != [] {
      DeliverAllGoes(co, taken, Due(d.queue, d.clock, true));
      var next := DeliverAll(co, taken, Due(d.queue, d.clock, true)).value;
      QuietThen(co, d, taken, next, 0, 0);
      PumpGoes(co, next, rounds - 1);
      QuietThen(co, d, next, Pump(co, d, rounds).value, 0, 0);
    }
  }
}
