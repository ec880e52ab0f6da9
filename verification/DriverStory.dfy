// What the nodes of a net hear, node by node: the events they are told, the
// wires delivered to them and the messages injected in their name. What is heard
// fixes a node's state, what it has announced, and which ends of links it closed.
module DriverStory {
  import opened Results
  import opened DriverSteps
  import opened DriverRelations

  datatype Heard =
    | Told(event: Event)
    | Received(linkId: LinkId, wire: Wire)
    | Injected(linkId: LinkId, message: ControlMessage)

  function Answer(co: Coordinator, s: CoordinatorState, h: Heard): (CoordinatorState, seq<Action>) {
    match h
    case Told(event) => co.step(s, event)
    case Received(linkId, wire) => co.receive(s, linkId, wire)
    case Injected(linkId, message) => (s.(sequence := s.sequence + 1), [Send([linkId], message)])
  }

  // The state a coordinator reaches and everything it asked for on the way.
  function Fold(co: Coordinator, s: CoordinatorState, heard: seq<Heard>): (CoordinatorState, seq<Action>) {
    if heard == [] then (s, [])
    else
      var before := Fold(co, s, heard[..|heard| - 1]);
      var last := Answer(co, before.0, heard[|heard| - 1]);
      (last.0, before.1 + last.1)
  }

  lemma {:induction false} FoldConcat(co: Coordinator, s: CoordinatorState, a: seq<Heard>, b: seq<Heard>)
    ensures var first := Fold(co, s, a); var second := Fold(co, first.0, b);
            Fold(co, s, a + b) == (second.0, first.1 + second.1)
    decreases |b|
  {
    hide Answer;
    if b == [] {
      assert a + b == a;
      var actions := Fold(co, s, a).1;
      assert actions + [] == actions;
    } else {
      var init, h := b[..|b| - 1], b[|b| - 1];
      assert (a + b)[..|a + b| - 1] == a + init;
      FoldConcat(co, s, a, init);
      var first := Fold(co, s, a);
      var second := Fold(co, first.0, init);
      var last := Answer(co, second.0, h);
      assert Fold(co, s, a + b) == (last.0, first.1 + second.1 + last.1);
      assert first.1 + second.1 + last.1 == first.1 + (second.1 + last.1);
    }
  }

  lemma FoldOne(co: Coordinator, s: CoordinatorState, h: Heard)
    ensures Fold(co, s, [h]) == Answer(co, s, h)
  {
    hide Answer;
    assert [h][..0] == [];
    var none: seq<Action> := [];
    assert none + Answer(co, s, h).1 == Answer(co, s, h).1;
  }

  // ----- what a node has announced -----

  function LastReason(actions: seq<Action>): Option<string> {
    if actions == [] then None
    else if actions[|actions| - 1].Terminate? then Some(actions[|actions| - 1].reason)
    else LastReason(actions[..|actions| - 1])
  }

  function LastStart(actions: seq<Action>): Option<int> {
    if actions == [] then None
    else if actions[|actions| - 1].StartMatch? then Some(actions[|actions| - 1].firstInputTick)
    else LastStart(actions[..|actions| - 1])
  }

  lemma {:induction false} LastConcat(a: seq<Action>, b: seq<Action>)
    ensures LastReason(a + b) == if LastReason(b).Some? then LastReason(b) else LastReason(a)
    ensures LastStart(a + b) == if LastStart(b).Some? then LastStart(b) else LastStart(a)
    decreases |b|
  {
    if b == [] {
      assert a + b == a;
    } else {
      assert (a + b)[..|a + b| - 1] == a + b[..|b| - 1];
      LastConcat(a, b[..|b| - 1]);
    }
  }

  lemma LastOne(action: Action)
    ensures LastReason([action]) == if action.Terminate? then Some(action.reason) else None
    ensures LastStart([action]) == if action.StartMatch? then Some(action.firstInputTick) else None
  {
    assert [action][..0] == [];
  }

  // The node with this state after carrying out these actions.
  function Marked(node: Node, state: CoordinatorState, actions: seq<Action>): Node {
    Node(node.peerId, node.role, state,
         node.started || LastStart(actions).Some?,
         if LastStart(actions).Some? then LastStart(actions) else node.firstInputTick,
         if LastReason(actions).Some? then LastReason(actions) else node.terminal)
  }

  function Acted(co: Coordinator, node: Node, heard: seq<Heard>): seq<Action> {
    Fold(co, node.state, heard).1
  }

  function Grown(co: Coordinator, node: Node, heard: seq<Heard>): Node {
    Marked(node, Fold(co, node.state, heard).0, Acted(co, node, heard))
  }

  lemma GrownTwice(co: Coordinator, node: Node, a: seq<Heard>, b: seq<Heard>)
    ensures Grown(co, Grown(co, node, a), b) == Grown(co, node, a + b)
    ensures Acted(co, node, a + b) == Acted(co, node, a) + Acted(co, Grown(co, node, a), b)
  {
    FoldConcat(co, node.state, a, b);
    LastConcat(Acted(co, node, a), Acted(co, Grown(co, node, a), b));
    hide Fold, LastReason, LastStart;
  }

  lemma GrownNot(co: Coordinator, node: Node)
    ensures Grown(co, node, []) == node && Acted(co, node, []) == []
  {
  }

  // ----- one list per node -----

  type Lists = seq<seq<Heard>>

  function Nothing(size: nat): (r: Lists)
    ensures |r| == size
  {
    seq(size, _ => [])
  }

  function Only(size: nat, n: nat, h: Heard): (r: Lists)
    requires n < size
    ensures |r| == size
  {
    Nothing(size)[n := [h]]
  }

  function Join(a: Lists, b: Lists): (r: Lists)
    requires |a| == |b|
    ensures |r| == |a| && forall n :: 0 <= n < |a| ==> r[n] == a[n] + b[n]
  {
    seq(|a|, n requires 0 <= n < |a| => a[n] + b[n])
  }

  function ToldOf(heard: seq<Heard>): seq<Heard> {
    if heard == [] then []
    else ToldOf(heard[..|heard| - 1]) + if heard[|heard| - 1].Received? then [] else [heard[|heard| - 1]]
  }

  function ReceivedOf(heard: seq<Heard>): seq<Heard> {
    if heard == [] then []
    else ReceivedOf(heard[..|heard| - 1]) + if heard[|heard| - 1].Received? then [heard[|heard| - 1]] else []
  }

  lemma {:induction false} PartsConcat(a: seq<Heard>, b: seq<Heard>)
    ensures ToldOf(a + b) == ToldOf(a) + ToldOf(b)
    ensures ReceivedOf(a + b) == ReceivedOf(a) + ReceivedOf(b)
    decreases |b|
  {
    if b == [] {
      assert a + b == a;
    } else {
      assert (a + b)[..|a + b| - 1] == a + b[..|b| - 1];
      PartsConcat(a, b[..|b| - 1]);
    }
  }

  lemma PartsOfOne(h: Heard)
    ensures ToldOf([h]) == if h.Received? then [] else [h]
    ensures ReceivedOf([h]) == if h.Received? then [h] else []
  {
    assert [h][..0] == [];
  }

  ghost predicate Tells(lists: Lists, told: Lists) {
    |lists| == |told| && forall n :: 0 <= n < |lists| ==> ToldOf(lists[n]) == told[n]
  }

  // ----- where a packet goes -----

  function Addressee(links: seq<Link>, nodes: seq<Node>, packet: Packet): Option<nat> {
    match LinkIndex(links, packet.linkId)
    case None => None
    case Some(i) => NodeIndex(nodes, if packet.toHost then HOST_PEER_ID else links[i].guestPeerId)
  }

  lemma AddresseeSame(d: Net, e: Net, packet: Packet)
    requires SameLinks(d.links, e.links) && SameNodes(d.nodes, e.nodes)
    ensures Addressee(d.links, d.nodes, packet) == Addressee(e.links, e.nodes, packet)
  {
    LinkIndexSame(d.links, e.links, packet.linkId);
    var index := LinkIndex(d.links, packet.linkId);
    if index.Some? {
      NodeIndexSame(d.nodes, e.nodes, if packet.toHost then HOST_PEER_ID else d.links[index.value].guestPeerId);
    }
  }

  // The wires delivered to node n, in order.
  function DeliveredTo(d: Net, n: nat, rs: seq<Resolution>): seq<Heard> {
    if rs == [] then []
    else
      var last := rs[|rs| - 1];
      DeliveredTo(d, n, rs[..|rs| - 1])
      + if last.delivered && Addressee(d.links, d.nodes, last.packet) == Some(n)
        then [Received(last.packet.linkId, last.packet.wire)] else []
  }

  lemma {:induction false} DeliveredConcat(d: Net, n: nat, a: seq<Resolution>, b: seq<Resolution>)
    ensures DeliveredTo(d, n, a + b) == DeliveredTo(d, n, a) + DeliveredTo(d, n, b)
    decreases |b|
  {
    hide Addressee;
    if b == [] {
      assert a + b == a;
    } else {
      assert (a + b)[..|a + b| - 1] == a + b[..|b| - 1];
      DeliveredConcat(d, n, a, b[..|b| - 1]);
    }
  }

  lemma {:induction false} DeliveredSame(d: Net, e: Net, n: nat, rs: seq<Resolution>)
    requires SameLinks(d.links, e.links) && SameNodes(d.nodes, e.nodes)
    ensures DeliveredTo(d, n, rs) == DeliveredTo(e, n, rs)
  {
    hide Addressee, SameLinks, SameNodes;
    if rs != [] {
      DeliveredSame(d, e, n, rs[..|rs| - 1]);
      AddresseeSame(d, e, rs[|rs| - 1].packet);
    }
  }

  // ----- offers -----

  function Offers(actions: seq<Action>): nat {
    if actions == [] then 0
    else
      var last := actions[|actions| - 1];
      Offers(actions[..|actions| - 1]) + if last.Send? then |last.targets| else 0
  }

  lemma {:induction false} OffersConcat(a: seq<Action>, b: seq<Action>)
    ensures Offers(a + b) == Offers(a) + Offers(b)
    decreases |b|
  {
    if b == [] {
      assert a + b == a;
    } else {
      assert (a + b)[..|a + b| - 1] == a + b[..|b| - 1];
      OffersConcat(a, b[..|b| - 1]);
    }
  }

  lemma OffersOne(action: Action)
    ensures Offers([action]) == if action.Send? then |action.targets| else 0
  {
    assert [action][..0] == [];
  }

  // What all nodes together offered for sending, message by target.
  function AllOffers(co: Coordinator, nodes: seq<Node>, lists: Lists): nat
    requires |nodes| == |lists|
  {
    if nodes == [] then 0
    else
      var last := |nodes| - 1;
      AllOffers(co, nodes[..last], lists[..last]) + Offers(Acted(co, nodes[last], lists[last]))
  }

  lemma {:induction false} OffersJoin(co: Coordinator, a: seq<Node>, x: Lists, b: seq<Node>, y: Lists)
    requires |a| == |x| == |b| == |y| && forall n :: 0 <= n < |a| ==> b[n] == Grown(co, a[n], x[n])
    ensures AllOffers(co, a, Join(x, y)) == AllOffers(co, a, x) + AllOffers(co, b, y)
    decreases |a|
  {
    hide Grown, Acted, Offers;
    if a != [] {
      var last := |a| - 1;
      OffersJoin(co, a[..last], x[..last], b[..last], y[..last]);
      assert Join(x, y)[..last] == Join(x[..last], y[..last]);
      GrownTwice(co, a[last], x[last], y[last]);
      OffersConcat(Acted(co, a[last], x[last]), Acted(co, b[last], y[last]));
    }
  }

  lemma {:induction false} NoOffers(co: Coordinator, nodes: seq<Node>)
    ensures AllOffers(co, nodes, Nothing(|nodes|)) == 0
    decreases |nodes|
  {
    hide Acted, Offers;
    if nodes != [] {
      var last := |nodes| - 1;
      NoOffers(co, nodes[..last]);
      GrownNot(co, nodes[last]);
      assert Offers([]) == 0 by {
        NoneOffered();
      }
      assert Nothing(|nodes|)[..last] == Nothing(last);
    }
  }

  lemma NoneOffered()
    ensures Offers([]) == 0
  {
  }

  lemma {:induction false} OnlyOffers(co: Coordinator, nodes: seq<Node>, n: nat, h: Heard)
    requires n < |nodes|
    ensures AllOffers(co, nodes, Only(|nodes|, n, h)) == Offers(Answer(co, nodes[n].state, h).1)
    decreases |nodes|
  {
    hide Answer, Offers, Fold;
    var last := |nodes| - 1;
    var lists := Only(|nodes|, n, h);
    if n == last {
      assert lists[..last] == Nothing(last);
      NoOffers(co, nodes[..last]);
      FoldOne(co, nodes[n].state, h);
    } else {
      assert lists[..last] == Only(last, n, h);
      OnlyOffers(co, nodes[..last], n, h);
      GrownNot(co, nodes[last]);
      NoneOffered();
    }
  }

  // ----- the story of a stretch of work -----

  ghost predicate NodesTell(co: Coordinator, d: Net, e: Net, lists: Lists) {
    |lists| == |d.nodes| == |e.nodes|
    && forall n :: 0 <= n < |d.nodes| ==> e.nodes[n] == Grown(co, d.nodes[n], lists[n])
  }

  // Some node on this side of the links asked for this one to be closed.
  ghost predicate Closed(co: Coordinator, nodes: seq<Node>, lists: Lists, side: Role, id: LinkId)
    requires |nodes| == |lists|
  {
    exists n :: 0 <= n < |nodes| && nodes[n].role == side && Close(id) in Acted(co, nodes[n], lists[n])
  }

  ghost predicate EndsTell(co: Coordinator, d: Net, e: Net, lists: Lists, cut: set<LinkId>)
    requires |lists| == |d.nodes|
  {
    SameLinks(d.links, e.links)
    && forall i :: 0 <= i < |d.links| && LinkIndex(d.links, d.links[i].id) == Some(i) ==>
         EndTells(co, d.nodes, d.links[i], e.links[i], lists, cut)
  }

  ghost predicate WiresTell(d: Net, e: Net, lists: Lists)
    requires |lists| == |d.nodes|
  {
    d.resolved <= e.resolved
    && forall n :: 0 <= n < |d.nodes| ==>
         ReceivedOf(lists[n]) == DeliveredTo(d, n, e.resolved[|d.resolved|..])
  }

  ghost predicate OffersTell(co: Coordinator, d: Net, e: Net, lists: Lists, replays: nat)
    requires |lists| == |d.nodes|
  {
    e.offered == d.offered + AllOffers(co, d.nodes, lists) + replays && d.dropped <= e.dropped
  }

  ghost predicate EndShut(links: seq<Link>, packet: Packet) {
    var index := LinkIndex(links, packet.linkId);
    index.Some? && !(if packet.toHost then links[index.value].hostOpen else links[index.value].guestOpen)
  }

  // A packet was dropped only at a closed end or at a node that had ended.
  ghost predicate Refuses(co: Coordinator, d: Net, e: Net) {
    d.resolved <= e.resolved
    && forall j :: |d.resolved| <= j < |e.resolved| && !e.resolved[j].delivered ==>
         EndShut(e.links, e.resolved[j].packet) || EndedNode(co, e, e.resolved[j].packet)
  }

  ghost predicate EndedNode(co: Coordinator, d: Net, packet: Packet) {
    var index := Addressee(d.links, d.nodes, packet);
    index.Some? && index.value < |d.nodes| && co.isTerminal(d.nodes[index.value].state)
  }

  // The host first, every name once, and each guest on the link named after it.
  ghost predicate Proper(d: Net) {
    && |d.nodes| > 0 && d.nodes[0].peerId == HOST_PEER_ID
    && (forall i :: 0 <= i < |d.nodes| ==> (d.nodes[i].role == HostRole <==> d.nodes[i].peerId == HOST_PEER_ID))
    && (forall i, j :: 0 <= i < j < |d.nodes| ==> d.nodes[i].peerId != d.nodes[j].peerId)
    && (forall i :: 0 <= i < |d.links| ==>
          && d.links[i].id == LinkIdOf(d.links[i].guestPeerId) && d.links[i].guestPeerId != HOST_PEER_ID
          && NodeIndex(d.nodes, d.links[i].guestPeerId).Some?)
  }

  lemma ProperStays(d: Net, e: Net)
    requires Proper(d) && SameNodes(d.nodes, e.nodes) && SameLinks(d.links, e.links)
    ensures Proper(e)
  {
    hide LinkIdOf;
    forall i | 0 <= i < |e.links| ensures NodeIndex(e.nodes, e.links[i].guestPeerId).Some? {
      NodeIndexSame(d.nodes, e.nodes, d.links[i].guestPeerId);
    }
  }

  predicate OwnEnd(link: Link, side: Role) {
    if side == HostRole then link.hostOpen else link.guestOpen
  }

  // What node n received last came by a link whose end it had not closed.
  ghost predicate MayHear(co: Coordinator, d: Net, n: nat, before: seq<Heard>, linkId: LinkId)
    requires n < |d.nodes|
  {
    var index := LinkIndex(d.links, linkId);
    && index.Some? && OwnEnd(d.links[index.value], d.nodes[n].role)
    && Close(linkId) !in Acted(co, d.nodes[n], before)
  }

  ghost predicate HushedAt(co: Coordinator, d: Net, n: nat, heard: seq<Heard>)
    requires n < |d.nodes|
  {
    forall k :: 0 <= k < |heard| && heard[k].Received? ==> MayHear(co, d, n, heard[..k], heard[k].linkId)
  }

  // No node hears from a link after asking for it to be closed.
  ghost predicate Hushed(co: Coordinator, d: Net, lists: Lists)
    requires |lists| == |d.nodes|
  {
    Proper(d) ==> forall n :: 0 <= n < |lists| ==> HushedAt(co, d, n, lists[n])
  }

  ghost predicate Endings(co: Coordinator, d: Net, e: Net) {
    EndsForGood(co) ==> StaysTerminal(co, d, e) && Refuses(co, d, e)
  }

  ghost predicate Tale(co: Coordinator, d: Net, e: Net, lists: Lists, cut: set<LinkId>, replays: nat) {
    && NodesTell(co, d, e, lists) && EndsTell(co, d, e, lists, cut) && WiresTell(d, e, lists)
    && OffersTell(co, d, e, lists, replays) && Hushed(co, d, lists) && Endings(co, d, e)
  }

  // ----- stories continue -----

  lemma SamePeers(co: Coordinator, d: Net, e: Net, lists: Lists)
    requires NodesTell(co, d, e, lists)
    ensures SameNodes(d.nodes, e.nodes)
  {
    hide Fold, Acted;
  }

  lemma NodesJoin(co: Coordinator, a: Net, b: Net, c: Net, x: Lists, y: Lists)
    requires NodesTell(co, a, b, x) && NodesTell(co, b, c, y)
    ensures NodesTell(co, a, c, Join(x, y))
  {
    hide Grown;
    forall n | 0 <= n < |a.nodes| ensures c.nodes[n] == Grown(co, a.nodes[n], Join(x, y)[n]) {
      GrownTwice(co, a.nodes[n], x[n], y[n]);
    }
  }

  lemma ClosedJoin(co: Coordinator, a: Net, b: Net, x: Lists, y: Lists, side: Role, id: LinkId)
    requires NodesTell(co, a, b, x) && |y| == |b.nodes|
    ensures Closed(co, a.nodes, Join(x, y), side, id)
       <==> Closed(co, a.nodes, x, side, id) || Closed(co, b.nodes, y, side, id)
  {
    SamePeers(co, a, b, x);
    hide Grown, Acted;
    forall n | 0 <= n < |a.nodes|
      ensures Acted(co, a.nodes[n], Join(x, y)[n]) == Acted(co, a.nodes[n], x[n]) + Acted(co, b.nodes[n], y[n])
    {
      GrownTwice(co, a.nodes[n], x[n], y[n]);
    }
  }

  // What became of the two ends of the link at i.
  ghost predicate EndTells(co: Coordinator, nodes: seq<Node>, was: Link, now: Link, lists: Lists, cut: set<LinkId>)
    requires |lists| == |nodes|
  {
    && (now.hostOpen <==> was.hostOpen && was.id !in cut && !Closed(co, nodes, lists, HostRole, was.id))
    && (now.guestOpen <==> was.guestOpen && was.id !in cut && !Closed(co, nodes, lists, GuestRole, was.id))
  }

  lemma EndJoin(co: Coordinator, a: Net, b: Net, x: Lists, y: Lists, s: set<LinkId>, t: set<LinkId>,
                first: Link, second: Link, third: Link)
    requires NodesTell(co, a, b, x) && |y| == |b.nodes| && first.id == second.id
    requires EndTells(co, a.nodes, first, second, x, s) && EndTells(co, b.nodes, second, third, y, t)
    ensures EndTells(co, a.nodes, first, third, Join(x, y), s + t)
  {
    ClosedJoin(co, a, b, x, y, HostRole, first.id);
    ClosedJoin(co, a, b, x, y, GuestRole, first.id);
    hide Closed, NodesTell;
  }

  lemma EndsJoin(co: Coordinator, a: Net, b: Net, c: Net, x: Lists, y: Lists, s: set<LinkId>, t: set<LinkId>)
    requires NodesTell(co, a, b, x) && |y| == |b.nodes| && EndsTell(co, a, b, x, s) && EndsTell(co, b, c, y, t)
    ensures EndsTell(co, a, c, Join(x, y), s + t)
  {
    assert |a.nodes| == |x| == |b.nodes|;
    hide EndTells, NodesTell, LinkIndex;
    forall i | 0 <= i < |a.links| && LinkIndex(a.links, a.links[i].id) == Some(i)
      ensures EndTells(co, a.nodes, a.links[i], c.links[i], Join(x, y), s + t)
    {
      LinkIndexSame(a.links, b.links, a.links[i].id);
      EndJoin(co, a, b, x, y, s, t, a.links[i], b.links[i], c.links[i]);
    }
  }

  lemma WiresJoin(a: Net, b: Net, c: Net, x: Lists, y: Lists)
    requires SameLinks(a.links, b.links) && SameNodes(a.nodes, b.nodes) && |x| == |y| == |a.nodes|
    requires WiresTell(a, b, x) && WiresTell(b, c, y)
    ensures WiresTell(a, c, Join(x, y))
  {
    var first, second := b.resolved[|a.resolved|..], c.resolved[|b.resolved|..];
    assert c.resolved[|a.resolved|..] == first + second;
    forall n | 0 <= n < |a.nodes|
      ensures ReceivedOf(Join(x, y)[n]) == DeliveredTo(a, n, first + second)
    {
      PartsConcat(x[n], y[n]);
      DeliveredConcat(a, n, first, second);
      DeliveredSame(a, b, n, second);
    }
  }

  lemma EndingsJoin(co: Coordinator, a: Net, b: Net, c: Net)
    requires SameLinks(b.links, c.links) && SameNodes(b.nodes, c.nodes)
    requires forall p :: EndShut(b.links, p) ==> EndShut(c.links, p)
    requires Endings(co, a, b) && Endings(co, b, c)
    ensures Endings(co, a, c)
  {
    hide EndShut, SameLinks, SameNodes;
    if EndsForGood(co) {
      hide EndsForGood;
      forall j | |a.resolved| <= j < |c.resolved| && !c.resolved[j].delivered
        ensures EndShut(c.links, c.resolved[j].packet) || EndedNode(co, c, c.resolved[j].packet)
      {
        if j < |b.resolved| {
          assert b.resolved[j] == c.resolved[j];
          AddresseeSame(b, c, b.resolved[j].packet);
        }
      }
    }
  }

  lemma ShutStays(co: Coordinator, d: Net, e: Net, lists: Lists, cut: set<LinkId>)
    requires |lists| == |d.nodes| && EndsTell(co, d, e, lists, cut)
    ensures forall p :: EndShut(d.links, p) ==> EndShut(e.links, p)
  {
    hide Closed;
    forall p | EndShut(d.links, p) ensures EndShut(e.links, p) {
      LinkIndexSame(d.links, e.links, p.linkId);
    }
  }

  lemma MayHearEarlier(co: Coordinator, a: Net, b: Net, x: Lists, s: set<LinkId>,
                       n: nat, before: seq<Heard>, linkId: LinkId)
    requires NodesTell(co, a, b, x) && EndsTell(co, a, b, x, s)
    requires n < |b.nodes| && MayHear(co, b, n, before, linkId)
    ensures MayHear(co, a, n, x[n] + before, linkId)
  {
    LinkIndexSame(a.links, b.links, linkId);
    GrownTwice(co, a.nodes[n], x[n], before);
    var i := LinkIndex(a.links, linkId).value;
    assert EndTells(co, a.nodes, a.links[i], b.links[i], x, s);
    assert b.nodes[n].role == a.nodes[n].role;
    hide Acted, LinkIndex, Grown;
  }

  lemma HushedAtJoin(co: Coordinator, a: Net, b: Net, x: Lists, s: set<LinkId>, n: nat, more: seq<Heard>)
    requires NodesTell(co, a, b, x) && EndsTell(co, a, b, x, s) && n < |b.nodes|
    requires HushedAt(co, a, n, x[n]) && HushedAt(co, b, n, more)
    ensures HushedAt(co, a, n, x[n] + more)
  {
    var first := x[n];
    var both := first + more;
    hide MayHear, NodesTell, EndsTell;
    forall k | 0 <= k < |both| && both[k].Received? ensures MayHear(co, a, n, both[..k], both[k].linkId) {
      if k < |first| {
        assert both[..k] == first[..k];
      } else {
        assert both[..k] == first + more[..k - |first|];
        MayHearEarlier(co, a, b, x, s, n, more[..k - |first|], more[k - |first|].linkId);
      }
    }
  }

  lemma HushedJoin(co: Coordinator, a: Net, b: Net, x: Lists, y: Lists, s: set<LinkId>)
    requires NodesTell(co, a, b, x) && EndsTell(co, a, b, x, s) && |y| == |b.nodes|
    requires Hushed(co, a, x) && Hushed(co, b, y)
    ensures Hushed(co, a, Join(x, y))
  {
    if Proper(a) {
      SamePeers(co, a, b, x);
      ProperStays(a, b);
      hide HushedAt, NodesTell, EndsTell, Proper;
      forall n | 0 <= n < |x| ensures HushedAt(co, a, n, Join(x, y)[n]) {
        HushedAtJoin(co, a, b, x, s, n, y[n]);
      }
    }
  }

  lemma TaleJoin(co: Coordinator, a: Net, b: Net, c: Net, x: Lists, y: Lists,
                 s: set<LinkId>, t: set<LinkId>, p: nat, q: nat)
    requires Tale(co, a, b, x, s, p) && Tale(co, b, c, y, t, q)
    ensures |x| == |y| && Tale(co, a, c, Join(x, y), s + t, p + q)
  {
    SamePeers(co, a, b, x);
    SamePeers(co, b, c, y);
    ShutStays(co, b, c, y, t);
    OffersJoin(co, a.nodes, x, b.nodes, y);
    NodesJoin(co, a, b, c, x, y);
    assert SameLinks(a.links, b.links) && SameLinks(b.links, c.links);
    hide SameLinks, SameNodes, WiresTell, Endings, NodesTell, EndShut;
    EndsJoin(co, a, b, c, x, y, s, t);
    hide Hushed;
    HushedJoin(co, a, b, x, y, s);
    hide EndsTell;
    WiresJoin(a, b, c, x, y);
    EndingsJoin(co, a, b, c);
  }
}
