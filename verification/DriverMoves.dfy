// Every function of the driver below `pump` is one of the relations: actions
// only `Acts`, a reacting coordinator `Moves`, a delivery resolves its packet.
module DriverMoves {
  import opened Results
  import opened DriverSteps
  import opened DriverRelations

  ghost predicate SameStates(a: seq<Node>, b: seq<Node>) {
    |a| == |b| && forall i :: 0 <= i < |a| ==> a[i].state == b[i].state
  }

  // Carrying out actions: nothing is resolved, no coordinator changes.
  ghost predicate Acts(d: Net, e: Net) {
    && e.clock == d.clock && SameShape(d, e) && SameStates(d.nodes, e.nodes)
    && (exists added :: Sends(d, e, added)) && Dates(d, e)
    && e.resolved == d.resolved && e.delivered == d.delivered
    && e.offered - e.dropped - |e.queue| == d.offered - d.dropped - |d.queue|
  }

  lemma ActsCompose(a: Net, b: Net, c: Net)
    requires Acts(a, b) && Acts(b, c)
    ensures Acts(a, c)
  {
    hide Sends, Dates;
    SendsCompose(a, b, c);
    DatesCompose(a, b, c);
  }

  lemma ActsIsMoves(co: Coordinator, d: Net, e: Net)
    requires Acts(d, e) && Lives(co, d, e)
    ensures Moves(co, d, [], e)
  {
    hide Sends, Dates, Lives, Stamped, SameShape;
    assert Resolves(co, d, e, [], []);
  }

  lemma MovesRefl(co: Coordinator, d: Net)
    ensures Moves(co, d, [], d)
  {
    assert Sends(d, d, []);
    LivesSame(co, d, d);
    ActsIsMoves(co, d, d);
  }

  lemma MovesThen(co: Coordinator, a: Net, b: Net, c: Net)
    requires Moves(co, a, [], b) && Moves(co, b, [], c)
    ensures Moves(co, a, [], c)
  {
    hide Moves;
    var none: seq<Packet> := [];
    assert none + none == none;
    MovesCompose(co, a, none, b, none, c);
  }

  // ----- actions -----

  lemma EnqueueActs(co: Coordinator, d: Net, n: nat, linkId: LinkId, message: ControlMessage)
    requires n < |d.nodes|
    ensures Acts(d, Enqueue(co, d, n, linkId, message))
    ensures Enqueue(co, d, n, linkId, message).transcript == d.transcript
  {
    var e := Enqueue(co, d, n, linkId, message);
    assert Sends(d, e, e.queue[|d.queue|..]);
  }

  lemma {:induction false} FanOutActs(co: Coordinator, d: Net, n: nat, targets: seq<LinkId>, message: ControlMessage)
    requires n < |d.nodes|
    ensures Acts(d, FanOut(co, d, n, targets, message))
    ensures FanOut(co, d, n, targets, message).transcript == d.transcript
    decreases targets
  {
    if targets == [] {
      assert Sends(d, d, []);
    } else {
      var next := Enqueue(co, d, n, targets[0], message);
      EnqueueActs(co, d, n, targets[0], message);
      FanOutActs(co, next, n, targets[1..], message);
      ActsCompose(d, next, FanOut(co, d, n, targets, message));
    }
  }

  lemma ApplyOneActs(co: Coordinator, d: Net, n: nat, action: Action)
    requires n < |d.nodes|
    ensures Acts(d, ApplyOne(co, d, n, action))
    ensures ApplyOne(co, d, n, action).transcript
         == d.transcript + if action.Send? then [action.message] else []
  {
    if action.Send? {
      var written := d.(transcript := d.transcript + [action.message]);
      assert Acts(d, written) by {
        assert Sends(d, written, []);
      }
      FanOutActs(co, written, n, action.targets, action.message);
      ActsCompose(d, written, ApplyOne(co, d, n, action));
    } else {
      assert Sends(d, ApplyOne(co, d, n, action), []);
    }
  }

  lemma MessagesFirst(actions: seq<Action>)
    requires actions != []
    ensures Messages(actions) == (if actions[0].Send? then [actions[0].message] else []) + Messages(actions[1..])
  {
  }

  lemma ApplyFirst(co: Coordinator, d: Net, n: nat, actions: seq<Action>)
    requires n < |d.nodes| && actions != []
    ensures Apply(co, d, n, actions) == Apply(co, ApplyOne(co, d, n, actions[0]), n, actions[1..])
  {
    hide ApplyOne;
  }

  lemma ApplyNothing(co: Coordinator, d: Net, n: nat)
    requires n < |d.nodes|
    ensures Apply(co, d, n, []) == d && Messages([]) == [] && Acts(d, d)
  {
    assert Sends(d, d, []);
  }

  lemma {:induction false} ApplyActs(co: Coordinator, d: Net, n: nat, actions: seq<Action>)
    requires n < |d.nodes|
    ensures Acts(d, Apply(co, d, n, actions))
    ensures Apply(co, d, n, actions).transcript == d.transcript + Messages(actions)
    decreases actions
  {
    hide Acts, ApplyOne, Apply, Messages;
    ApplyNothing(co, d, n);
    if actions != [] {
      var next := ApplyOne(co, d, n, actions[0]);
      ApplyOneActs(co, d, n, actions[0]);
      ApplyFirst(co, d, n, actions);
      MessagesFirst(actions);
      ApplyActs(co, next, n, actions[1..]);
      ActsCompose(d, next, Apply(co, d, n, actions));
    }
  }

  // ----- reactions -----

  // The numbers a message list carries, seen by its own author and by others.
  lemma {:induction false} NumbersOfOne(ms: seq<ControlMessage>, author: PeerId, first: int, peer: PeerId)
    requires forall i :: 0 <= i < |ms| ==> ms[i].sender == author && ms[i].sequence == first + i
    ensures NumbersOf(ms, peer) == if peer == author then Range(first, first + |ms|) else []
  {
    if ms != [] {
      NumbersOfOne(ms[1..], author, first + 1, peer);
      if peer == author {
        assert Range(first, first + |ms|) == [first] + Range(first + 1, first + |ms|);
      }
    }
  }

  // Node n takes on the outcome's state and writes exactly its messages.
  lemma TurnNumbered(d: Net, e: Net, n: nat, outcome: (CoordinatorState, seq<Action>))
    requires n < |d.nodes| && |e.nodes| == |d.nodes| && SelfNamed(d.nodes) && Follows(d.nodes[n].state, outcome)
    requires SameNodes(d.nodes, e.nodes) && e.nodes[n].state == outcome.0
    requires forall m :: 0 <= m < |d.nodes| && m != n ==> e.nodes[m].state == d.nodes[m].state
    requires e.transcript == d.transcript + Messages(outcome.1)
    ensures Numbered(d, e)
  {
    var ms := Messages(outcome.1);
    forall m | 0 <= m < |d.nodes| ensures Wrote(d, e, m) {
      assert e.transcript[|d.transcript|..] == ms;
      NumbersOfOne(ms, d.nodes[n].peerId, d.nodes[n].state.sequence, d.nodes[m].peerId);
    }
  }

  lemma StampedBefore(d: Net, taken: Net, packet: Packet)
    requires taken == d.(nodes := taken.nodes) && Stamped(taken, packet)
    ensures Stamped(d, packet)
  {
  }

  lemma TakenMoves(co: Coordinator, d: Net, taken: Net, e: Net)
    requires taken == d.(nodes := taken.nodes) && SameNodes(d.nodes, taken.nodes)
    requires Acts(taken, e) && Lives(co, d, e)
    ensures Moves(co, d, [], e)
  {
    hide Lives, OnlyCloses, SameLinks, Stamped, SameStates;
    assert exists added :: Sends(d, e, added) by {
      var added :| Sends(taken, e, added);
      forall i | 0 <= i < |added| ensures Stamped(d, added[i]) {
        assert Stamped(taken, added[i]);
        StampedBefore(d, taken, added[i]);
      }
      assert Sends(d, e, added);
    }
    hide Sends, Dates;
    assert Resolves(co, d, e, [], []);
  }

  lemma ReactMoves(co: Coordinator, d: Net, n: nat, outcome: (CoordinatorState, seq<Action>))
    requires n < |d.nodes|
    requires Numbering(co) ==> Follows(d.nodes[n].state, outcome)
    requires EndsForGood(co) && co.isTerminal(d.nodes[n].state) ==> co.isTerminal(outcome.0)
    ensures Moves(co, d, [], React(co, d, n, outcome))
    ensures SameNodes(d.nodes, React(co, d, n, outcome).nodes)
  {
    var taken := d.(nodes := d.nodes[n := d.nodes[n].(state := outcome.0)]);
    var e := React(co, d, n, outcome);
    ApplyActs(co, taken, n, outcome.1);
    assert Lives(co, d, e) by {
      hide Sends, Messages, Numbering, EndsForGood, Follows, SelfNamed, Dates;
      if Numbering(co) && SelfNamed(d.nodes) {
        TurnNumbered(d, e, n, outcome);
      }
    }
    hide Lives, Moves, Sends, Dates;
    TakenMoves(co, d, taken, e);
  }

  lemma StepMoves(co: Coordinator, d: Net, n: nat, event: Event)
    requires n < |d.nodes|
    ensures Moves(co, d, [], React(co, d, n, co.step(d.nodes[n].state, event)))
    ensures SameNodes(d.nodes, React(co, d, n, co.step(d.nodes[n].state, event)).nodes)
  {
    hide Moves;
    ReactMoves(co, d, n, co.step(d.nodes[n].state, event));
  }

  lemma SendMoves(co: Coordinator, d: Net, peer: PeerId, event: Event)
    ensures SendEvent(co, d, peer, event).Some? <==> NodeIndex(d.nodes, peer).Some?
    ensures SendEvent(co, d, peer, event).Some? ==> Moves(co, d, [], SendEvent(co, d, peer, event).value)
  {
    hide Moves;
    if NodeIndex(d.nodes, peer).Some? {
      StepMoves(co, d, NodeIndex(d.nodes, peer).value, event);
    }
  }

  lemma {:induction false} TickNodesMoves(co: Coordinator, d: Net, from: nat)
    requires from <= |d.nodes|
    ensures Moves(co, d, [], TickNodes(co, d, from))
    decreases |d.nodes| - from
  {
    hide Moves;
    if from == |d.nodes| {
      MovesRefl(co, d);
    } else {
      var next := React(co, d, from, co.step(d.nodes[from].state, Tick));
      StepMoves(co, d, from, Tick);
      TickNodesMoves(co, next, from + 1);
      MovesThen(co, d, next, TickNodes(co, d, from));
    }
  }

  lemma {:induction false} ConnectMoves(co: Coordinator, d: Net, from: nat)
    ensures ConnectFrom(co, d, from).Some? && Moves(co, d, [], ConnectFrom(co, d, from).value)
    decreases |d.nodes| - from
  {
    hide Moves;
    if from >= |d.nodes| {
      MovesRefl(co, d);
    } else {
      NodeIndexFinds(d.nodes, from);
      SendMoves(co, d, d.nodes[from].peerId, Connect);
      var next := SendEvent(co, d, d.nodes[from].peerId, Connect).value;
      ConnectMoves(co, next, from + 1);
      MovesThen(co, d, next, ConnectFrom(co, d, from).value);
    }
  }

  lemma LoseLinkMoves(co: Coordinator, d: Net, peer: PeerId, event: Event)
    ensures LoseLink(co, d, peer, event).Some? && Moves(co, d, [], LoseLink(co, d, peer, event).value)
  {
    hide Moves;
    MovesRefl(co, d);
    SendMoves(co, d, peer, event);
  }

  // ----- deliveries -----

  // The books of one packet, before the receiver reacts.
  function Counted(d: Net, packet: Packet, welcome: bool): Net {
    var noted := d.(resolved := d.resolved + [Resolution(packet, d.clock, welcome)]);
    if welcome then noted.(delivered := d.delivered + 1) else noted.(dropped := d.dropped + 1)
  }

  lemma CountedBalances(d: Net, packet: Packet, welcome: bool, n: int)
    requires Balances(d, n)
    ensures Balances(Counted(d, packet, welcome), n - 1)
  {
    var news := Resolution(packet, d.clock, welcome);
    CountDeliveredConcat(d.resolved, [news]);
    CountOneDelivered(news);
    hide CountDelivered;
    assert Counted(d, packet, welcome).resolved == d.resolved + [news];
  }

  lemma CountedResolves(co: Coordinator, d: Net, packet: Packet, welcome: bool)
    requires welcome ==> ReceiverOpen(d.links, packet) && !TargetTerminal(co, d, packet)
    ensures exists news :: Resolves(co, d, Counted(d, packet, welcome), [packet], news)
  {
    var news := Resolution(packet, d.clock, welcome);
    assert Welcome(co, d, news);
    hide Welcome;
    assert Resolves(co, d, Counted(d, packet, welcome), [packet], [news]);
  }

  lemma CountedIsStill(co: Coordinator, d: Net, packet: Packet, welcome: bool)
    ensures var e := Counted(d, packet, welcome);
            && e.clock == d.clock && e.queue == d.queue && SameShape(d, e) && Lives(co, d, e)
            && (exists added :: Sends(d, e, added)) && Dates(d, e)
  {
    var e := Counted(d, packet, welcome);
    LivesSame(co, d, e);
    hide Lives, Stamped;
    assert Sends(d, e, []);
  }

  lemma CountedMoves(co: Coordinator, d: Net, packet: Packet, welcome: bool)
    requires welcome ==> ReceiverOpen(d.links, packet) && !TargetTerminal(co, d, packet)
    ensures Moves(co, d, [packet], Counted(d, packet, welcome))
  {
    hide Counted, Lives, SameShape, Sends, Dates, Resolves, Balances;
    CountedIsStill(co, d, packet, welcome);
    CountedResolves(co, d, packet, welcome);
    var e := Counted(d, packet, welcome);
    forall n: int | Balances(d, n) ensures Balances(e, n + |e.queue| - |d.queue| - |[packet]|) {
      CountedBalances(d, packet, welcome, n);
    }
  }

  lemma CountOneDelivered(r: Resolution)
    ensures CountDelivered([r]) == if r.delivered then 1 else 0
  {
    assert [r][..0] == [];
  }

  lemma DeliverMoves(co: Coordinator, d: Net, packet: Packet)
    requires Wired(d) && KnownLink(d.links, packet)
    ensures Deliver(co, d, packet).Some? && Moves(co, d, [packet], Deliver(co, d, packet).value)
  {
    hide Moves, React;
    var i := LinkIndex(d.links, packet.linkId).value;
    var target := TargetOf(d.links, packet).value;
    assert NodeIndex(d.nodes, target).Some?;
    var n := NodeIndex(d.nodes, target).value;
    var welcome := ReceiverOpen(d.links, packet) && !co.isTerminal(d.nodes[n].state);
    CountedMoves(co, d, packet, welcome);
    if welcome {
      var counted := Counted(d, packet, true);
      ReactMoves(co, counted, n, co.receive(d.nodes[n].state, packet.linkId, packet.wire));
      MovesCompose(co, d, [packet], counted, [], Deliver(co, d, packet).value);
      assert [packet] + [] == [packet];
    }
  }

  lemma WiredOn(co: Coordinator, d: Net, packets: seq<Packet>, e: Net)
    requires Wired(d) && Moves(co, d, packets, e)
    ensures Wired(e)
  {
    hide Lives, Resolves, Balances;
    var added :| Sends(d, e, added);
    forall i | 0 <= i < |e.queue| ensures KnownLink(e.links, e.queue[i]) {
      EndsOnlyClose(d, e, e.queue[i]);
      if i >= |d.queue| {
        assert Stamped(d, added[i - |d.queue|]);
      }
    }
    NodeIndexSame(d.nodes, e.nodes, HOST_PEER_ID);
    forall i | 0 <= i < |e.links| ensures NodeIndex(e.nodes, e.links[i].guestPeerId).Some? {
      NodeIndexSame(d.nodes, e.nodes, d.links[i].guestPeerId);
    }
  }

  lemma DeliverAllStep(co: Coordinator, d: Net, packets: seq<Packet>)
    requires packets != []
    ensures DeliverAll(co, d, packets)
         == match Deliver(co, d, packets[0]) case None => None case Some(next) => DeliverAll(co, next, packets[1..])
  {
    hide Deliver;
  }

  lemma DeliverNothing(co: Coordinator, d: Net)
    ensures DeliverAll(co, d, []) == Some(d)
  {
  }

  ghost predicate AllLinked(links: seq<Link>, packets: seq<Packet>) {
    forall i :: 0 <= i < |packets| ==> KnownLink(links, packets[i])
  }

  // The first delivery of a round leaves the rest deliverable.
  lemma FirstDelivery(co: Coordinator, d: Net, packets: seq<Packet>)
    requires Wired(d) && AllLinked(d.links, packets) && packets != []
    ensures Deliver(co, d, packets[0]).Some?
    ensures var next := Deliver(co, d, packets[0]).value;
            Moves(co, d, [packets[0]], next) && Wired(next) && AllLinked(next.links, packets[1..])
  {
    hide Wired, KnownLink, Deliver, Lives, Resolves, Balances, Sends, Dates;
    assert KnownLink(d.links, packets[0]);
    DeliverMoves(co, d, packets[0]);
    var next := Deliver(co, d, packets[0]).value;
    WiredOn(co, d, [packets[0]], next);
    forall i | 0 <= i < |packets[1..]| ensures KnownLink(next.links, packets[1..][i]) {
      EndsOnlyClose(d, next, packets[i + 1]);
    }
  }

  lemma {:induction false} DeliverAllMoves(co: Coordinator, d: Net, packets: seq<Packet>)
    requires Wired(d) && AllLinked(d.links, packets)
    ensures DeliverAll(co, d, packets).Some? && Moves(co, d, packets, DeliverAll(co, d, packets).value)
    decreases packets
  {
    hide Moves, Wired, AllLinked, Deliver, DeliverAll;
    if packets == [] {
      DeliverNothing(co, d);
      MovesRefl(co, d);
    } else {
      FirstDelivery(co, d, packets);
      DeliverAllStep(co, d, packets);
      var next := Deliver(co, d, packets[0]).value;
      DeliverAllMoves(co, next, packets[1..]);
      MovesCompose(co, d, [packets[0]], next, packets[1..], DeliverAll(co, d, packets).value);
      assert [packets[0]] + packets[1..] == packets;
    }
  }
}
