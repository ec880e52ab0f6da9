// Whole operations and runs: the events each peer is told, the links that are
// cut, the packets replayed and the ticks that go by are exactly those asked for.
module DriverRuns {
  import opened Results
  import opened DriverSteps
  import opened DriverRelations
  import opened DriverStory
  import opened DriverTelling
  import opened DriverMoves
  import opened DriverKeeps
  import opened DriverProperties

  lemma LinkNamesDiffer(a: PeerId, b: PeerId)
    ensures LinkIdOf(a) == LinkIdOf(b) ==> a == b
  {
    assert ("link." + a)[5..] == a && ("link." + b)[5..] == b;
  }

  lemma {:induction false} IndexOfName(nodes: seq<Node>, n: nat)
    requires n < |nodes| && forall i, j :: 0 <= i < j < |nodes| ==> nodes[i].peerId != nodes[j].peerId
    ensures NodeIndex(nodes, nodes[n].peerId) == Some(n)
  {
    NodeIndexFinds(nodes, n);
  }

  // ----- what each operation asks for -----

  function Times(h: Heard, count: int): seq<Heard> {
    seq(if count < 0 then 0 else count, _ => h)
  }

  // What operation `op` tells node n, wires aside.
  function OpTold(co: Coordinator, d: Net, op: Op, n: nat): seq<Heard>
    requires n < |d.nodes|
  {
    var node := d.nodes[n];
    match op
    case SendOp(peer, event) => if node.peerId == peer then [Told(event)] else []
    case TickOp(count) => Times(Told(Tick), count)
    case ConnectAllOp => if n == 0 then [] else [Told(Connect)]
    case InjectOp(fromPeer, toPeer, payload) =>
      var guest := if node.role == HostRole then toPeer else fromPeer;
      if node.peerId != fromPeer then []
      else [Injected(LinkIdOf(guest), ControlMessage(fromPeer, node.state.sequence, payload))]
    case DropLinkOp(guest, code) =>
      if (n == 0 || node.peerId == guest) && !co.isTerminal(node.state) then [Told(LinkLost(LinkIdOf(guest), code))]
      else []
    case PumpOp => []
    case ReplayOp(_, _, _) => []
  }

  function OpTolds(co: Coordinator, d: Net, op: Op): (r: Lists)
    ensures |r| == |d.nodes|
  {
    seq(|d.nodes|, n requires 0 <= n < |d.nodes| => OpTold(co, d, op, n))
  }

  function Cut(ops: seq<Op>): set<LinkId> {
    set op <- ops | op.DropLinkOp? :: LinkIdOf(op.guest)
  }

  function Replays(ops: seq<Op>): nat {
    if ops == [] then 0 else (if ops[0].ReplayOp? then 1 else 0) + Replays(ops[1..])
  }

  function Ticks(ops: seq<Op>): nat {
    if ops == [] then 0
    else (if ops[0].TickOp? && ops[0].count > 0 then ops[0].count else 0) + Ticks(ops[1..])
  }

  ghost predicate OpGoes(co: Coordinator, d: Net, op: Op, e: Net) {
    Goes(co, d, e, OpTolds(co, d, op), Cut([op]), Replays([op]), Ticks([op]))
  }

  lemma OneOp(op: Op)
    ensures Cut([op]) == if op.DropLinkOp? then {LinkIdOf(op.guest)} else {}
    ensures Replays([op]) == if op.ReplayOp? then 1 else 0
    ensures Ticks([op]) == if op.TickOp? && op.count > 0 then op.count else 0
  {
    assert op in [op];
    assert [op][1..] == [];
  }

  // ----- each operation -----

  // A stretch of work, then a pump.
  lemma PumpedAfter(co: Coordinator, d: Net, e: Net, told: Lists, cut: set<LinkId>, replays: nat, ticks: int)
    requires Goes(co, d, e, told, cut, replays, ticks) && Pump(co, e, MAX_PUMP_ROUNDS).Some?
    ensures Goes(co, d, Pump(co, e, MAX_PUMP_ROUNDS).value, told, cut, replays, ticks)
  {
    hide Pump, Goes, Join;
    PumpGoes(co, e, MAX_PUMP_ROUNDS);
    GoesSame(co, d, e, told, cut, replays, ticks);
    GoesThen(co, d, e, Pump(co, e, MAX_PUMP_ROUNDS).value, told, Nothing(|e.nodes|), cut, {}, replays, 0, ticks, 0);
    JoinNothing(told);
    assert cut + {} == cut;
  }

  lemma SendGoes(co: Coordinator, d: Net, peer: PeerId, event: Event)
    requires NodeIndex(d.nodes, peer).Some?
    ensures SendEvent(co, d, peer, event).Some?
    ensures Goes(co, d, SendEvent(co, d, peer, event).value,
                 Only(|d.nodes|, NodeIndex(d.nodes, peer).value, Told(event)), {}, 0, 0)
  {
    hide Goes, React, NodeIndex;
    TellGoes(co, d, NodeIndex(d.nodes, peer).value, Told(event));
  }

  // From node `from` on, everyone is told h.
  function Rest(size: nat, from: nat, h: Heard): (r: Lists)
    ensures |r| == size
  {
    seq(size, n => if n < from then [] else [h])
  }

  lemma RestFirst(size: nat, from: nat, h: Heard)
    requires from < size
    ensures Rest(size, from, h) == Join(Only(size, from, h), Rest(size, from + 1, h))
  {
    forall n | 0 <= n < size
      ensures Rest(size, from, h)[n] == Only(size, from, h)[n] + Rest(size, from + 1, h)[n]
    {
    }
  }

  lemma RestNone(size: nat, h: Heard)
    ensures Rest(size, size, h) == Nothing(size)
  {
  }

  // Telling node `from`, then the rest.
  lemma ThenRest(co: Coordinator, a: Net, b: Net, c: Net, from: nat, h: Heard)
    requires from < |a.nodes| == |b.nodes|
    requires Goes(co, a, b, Only(|a.nodes|, from, h), {}, 0, 0)
    requires Goes(co, b, c, Rest(|a.nodes|, from + 1, h), {}, 0, 0)
    ensures Goes(co, a, c, Rest(|a.nodes|, from, h), {}, 0, 0)
  {
    RestFirst(|a.nodes|, from, h);
    hide Goes, Rest, Join, Only;
    GoesThen(co, a, b, c, Only(|a.nodes|, from, h), Rest(|a.nodes|, from + 1, h), {}, {}, 0, 0, 0, 0);
    var none: set<LinkId> := {};
    assert none + none == none;
  }

  lemma {:induction false} TickNodesGoes(co: Coordinator, d: Net, from: nat)
    requires from <= |d.nodes|
    ensures Goes(co, d, TickNodes(co, d, from), Rest(|d.nodes|, from, Told(Tick)), {}, 0, 0)
    decreases |d.nodes| - from
  {
    hide Goes, React, Rest, Only;
    if from == |d.nodes| {
      RestNone(|d.nodes|, Told(Tick));
      SameGoes(co, d, d);
    } else {
      var next := React(co, d, from, co.step(d.nodes[from].state, Tick));
      TellGoes(co, d, from, Told(Tick));
      TickNodesGoes(co, next, from + 1);
      ThenRest(co, d, next, TickNodes(co, d, from), from, Told(Tick));
    }
  }

  lemma {:induction false} ConnectGoes(co: Coordinator, d: Net, from: nat)
    requires Proper(d) && from <= |d.nodes|
    ensures ConnectFrom(co, d, from).Some?
    ensures Goes(co, d, ConnectFrom(co, d, from).value, Rest(|d.nodes|, from, Told(Connect)), {}, 0, 0)
    decreases |d.nodes| - from
  {
    hide Goes, SendEvent, Rest, Only, NodeIndex;
    if from == |d.nodes| {
      RestNone(|d.nodes|, Told(Connect));
      SameGoes(co, d, d);
    } else {
      IndexOfName(d.nodes, from);
      SendGoes(co, d, d.nodes[from].peerId, Connect);
      var next := SendEvent(co, d, d.nodes[from].peerId, Connect).value;
      GoesSame(co, d, next, Only(|d.nodes|, from, Told(Connect)), {}, 0, 0);
      ProperStays(d, next);
      hide Proper;
      ConnectGoes(co, next, from + 1);
      ThenRest(co, d, next, ConnectFrom(co, d, from).value, from, Told(Connect));
    }
  }

  lemma TickOnceGoes(co: Coordinator, d: Net)
    requires TickOnce(co, d).Some?
    ensures Goes(co, d, TickOnce(co, d).value, Rest(|d.nodes|, 0, Told(Tick)), {}, 0, 1)
  {
    hide Goes, Pump, TickNodes, Rest, Join;
    var later := d.(clock := d.clock + 1);
    SameGoes(co, d, later);
    PumpedAfter(co, d, later, Nothing(|d.nodes|), {}, 0, 1);
    var first := Pump(co, later, MAX_PUMP_ROUNDS).value;
    GoesSame(co, d, first, Nothing(|d.nodes|), {}, 0, 1);
    TickNodesGoes(co, first, 0);
    var ticked := TickNodes(co, first, 0);
    var told := Rest(|d.nodes|, 0, Told(Tick));
    GoesThen(co, d, first, ticked, Nothing(|d.nodes|), told, {}, {}, 0, 0, 1, 0);
    JoinNothing(told);
    var none: set<LinkId> := {};
    assert none + none == none;
    PumpedAfter(co, d, ticked, told, {}, 0, 1);
  }

  function AllTicks(size: nat, count: int): (r: Lists)
    ensures |r| == size
  {
    seq(size, _ => Times(Told(Tick), count))
  }

  lemma AllTicksFirst(size: nat, count: int)
    requires count > 0
    ensures AllTicks(size, count) == Join(Rest(size, 0, Told(Tick)), AllTicks(size, count - 1))
  {
    assert Times(Told(Tick), count) == [Told(Tick)] + Times(Told(Tick), count - 1);
  }

  lemma NoTicks(size: nat, count: int)
    requires count <= 0
    ensures AllTicks(size, count) == Nothing(size)
  {
    assert Times(Told(Tick), count) == [];
  }

  lemma {:induction false} TickManyGoes(co: Coordinator, d: Net, count: int)
    requires TickMany(co, d, count).Some?
    ensures Goes(co, d, TickMany(co, d, count).value, AllTicks(|d.nodes|, count), {}, 0, if count > 0 then count else 0)
    decreases count
  {
    hide Goes, TickOnce, AllTicks, Rest, Join;
    if count <= 0 {
      NoTicks(|d.nodes|, count);
      SameGoes(co, d, d);
    } else {
      var next := TickOnce(co, d).value;
      TickOnceGoes(co, d);
      TickManyGoes(co, next, count - 1);
      GoesSame(co, d, next, Rest(|d.nodes|, 0, Told(Tick)), {}, 0, 1);
      AllTicksFirst(|d.nodes|, count);
      GoesThen(co, d, next, TickMany(co, d, count).value, Rest(|d.nodes|, 0, Told(Tick)),
               AllTicks(|d.nodes|, count - 1), {}, {}, 0, 0, 1, count - 1);
      var none: set<LinkId> := {};
      assert none + none == none;
    }
  }

  // What an injection in the name of node n is heard as.
  function Injection(d: Net, n: nat, fromPeer: PeerId, toPeer: PeerId, payload: Payload): Heard
    requires n < |d.nodes|
  {
    Injected(LinkIdOf(if d.nodes[n].role == HostRole then toPeer else fromPeer),
             ControlMessage(fromPeer, d.nodes[n].state.sequence, payload))
  }

  lemma InjectIsTold(co: Coordinator, d: Net, fromPeer: PeerId, toPeer: PeerId, payload: Payload, n: nat)
    requires NodeIndex(d.nodes, fromPeer) == Some(n)
    ensures var outcome := Answer(co, d.nodes[n].state, Injection(d, n, fromPeer, toPeer, payload));
            Inject(co, d, fromPeer, toPeer, payload) == Pump(co, React(co, d, n, outcome), MAX_PUMP_ROUNDS)
  {
    hide Pump, Apply, NodeIndex;
  }

  // The operation tells node n alone, this one thing.
  lemma ToldOnly(co: Coordinator, d: Net, op: Op, n: nat, h: Heard)
    requires n < |d.nodes| && OpTold(co, d, op, n) == [h]
    requires forall m :: 0 <= m < |d.nodes| && m != n ==> OpTold(co, d, op, m) == []
    ensures OpTolds(co, d, op) == Only(|d.nodes|, n, h)
  {
    hide OpTold;
  }

  lemma ToldNothing(co: Coordinator, d: Net, op: Op)
    requires forall m :: 0 <= m < |d.nodes| ==> OpTold(co, d, op, m) == []
    ensures OpTolds(co, d, op) == Nothing(|d.nodes|)
  {
    hide OpTold;
  }

  lemma SendTold(co: Coordinator, d: Net, peer: PeerId, event: Event, n: nat)
    requires Proper(d) && n < |d.nodes| && d.nodes[n].peerId == peer
    ensures OpTolds(co, d, SendOp(peer, event)) == Only(|d.nodes|, n, Told(event))
  {
    ToldOnly(co, d, SendOp(peer, event), n, Told(event));
  }

  lemma SendOpGoes(co: Coordinator, d: Net, peer: PeerId, event: Event)
    requires Proper(d) && SendEvent(co, d, peer, event).Some?
    ensures OpGoes(co, d, SendOp(peer, event), SendEvent(co, d, peer, event).value)
  {
    var n := NodeIndex(d.nodes, peer).value;
    SendTold(co, d, peer, event, n);
    OneOp(SendOp(peer, event));
    hide Goes, NodeIndex, SendEvent, OpTolds, Only, Cut, Replays, Ticks;
    SendGoes(co, d, peer, event);
  }

  lemma InjectTold(co: Coordinator, d: Net, fromPeer: PeerId, toPeer: PeerId, payload: Payload, n: nat)
    requires Proper(d) && n < |d.nodes| && d.nodes[n].peerId == fromPeer
    ensures OpTolds(co, d, InjectOp(fromPeer, toPeer, payload))
         == Only(|d.nodes|, n, Injection(d, n, fromPeer, toPeer, payload))
  {
    hide LinkIdOf;
    ToldOnly(co, d, InjectOp(fromPeer, toPeer, payload), n, Injection(d, n, fromPeer, toPeer, payload));
  }

  lemma InjectOpGoes(co: Coordinator, d: Net, fromPeer: PeerId, toPeer: PeerId, payload: Payload)
    requires Proper(d) && Inject(co, d, fromPeer, toPeer, payload).Some?
    ensures OpGoes(co, d, InjectOp(fromPeer, toPeer, payload), Inject(co, d, fromPeer, toPeer, payload).value)
  {
    var n := NodeIndex(d.nodes, fromPeer).value;
    var h := Injection(d, n, fromPeer, toPeer, payload);
    InjectIsTold(co, d, fromPeer, toPeer, payload, n);
    InjectTold(co, d, fromPeer, toPeer, payload, n);
    OneOp(InjectOp(fromPeer, toPeer, payload));
    hide *;
    TellGoes(co, d, n, h);
    PumpedAfter(co, d, React(co, d, n, Answer(co, d.nodes[n].state, h)), Only(|d.nodes|, n, h), {}, 0, 0);
    AsAsked(co, d, InjectOp(fromPeer, toPeer, payload), Inject(co, d, fromPeer, toPeer, payload).value);
  }

  lemma AsAsked(co: Coordinator, d: Net, op: Op, e: Net)
    requires Goes(co, d, e, OpTolds(co, d, op), Cut([op]), Replays([op]), Ticks([op]))
    ensures OpGoes(co, d, op, e)
  {
  }

  lemma ReplayQueues(co: Coordinator, d: Net, fromPeer: PeerId, toPeer: PeerId, wire: Wire)
    requires Replay(co, d, fromPeer, toPeer, wire).Some?
    ensures exists packet ::
              Replay(co, d, fromPeer, toPeer, wire)
              == Pump(co, d.(queue := d.queue + [packet], offered := d.offered + 1), MAX_PUMP_ROUNDS)
  {
    hide Pump, NodeIndex, LinkIdOf;
  }

  lemma PushGoes(co: Coordinator, d: Net, packet: Packet)
    ensures Goes(co, d, d.(queue := d.queue + [packet], offered := d.offered + 1), Nothing(|d.nodes|), {}, 1, 0)
  {
    hide Goes, LinkIndex;
    StillGoes(co, d, d.(queue := d.queue + [packet], offered := d.offered + 1), {}, 1);
  }

  lemma ReplayOpGoes(co: Coordinator, d: Net, fromPeer: PeerId, toPeer: PeerId, wire: Wire)
    requires Replay(co, d, fromPeer, toPeer, wire).Some?
    ensures OpGoes(co, d, ReplayOp(fromPeer, toPeer, wire), Replay(co, d, fromPeer, toPeer, wire).value)
  {
    var op := ReplayOp(fromPeer, toPeer, wire);
    ReplayQueues(co, d, fromPeer, toPeer, wire);
    var packet :| Replay(co, d, fromPeer, toPeer, wire)
               == Pump(co, d.(queue := d.queue + [packet], offered := d.offered + 1), MAX_PUMP_ROUNDS);
    ToldNothing(co, d, op);
    OneOp(op);
    hide *;
    PushGoes(co, d, packet);
    PumpedAfter(co, d, d.(queue := d.queue + [packet], offered := d.offered + 1), Nothing(|d.nodes|), {}, 1, 0);
    AsAsked(co, d, op, Replay(co, d, fromPeer, toPeer, wire).value);
  }

  lemma TickOpGoes(co: Coordinator, d: Net, count: int)
    requires TickMany(co, d, count).Some?
    ensures OpGoes(co, d, TickOp(count), TickMany(co, d, count).value)
  {
    hide Goes, TickMany, Cut, Replays, Ticks, Times;
    TickManyGoes(co, d, count);
    OneOp(TickOp(count));
    assert OpTolds(co, d, TickOp(count)) == AllTicks(|d.nodes|, count);
  }

  lemma ConnectOpGoes(co: Coordinator, d: Net)
    requires Proper(d) && Perform(co, d, ConnectAllOp).Some?
    ensures OpGoes(co, d, ConnectAllOp, Perform(co, d, ConnectAllOp).value)
  {
    hide Goes, Pump, ConnectFrom, Cut, Replays, Ticks;
    ConnectGoes(co, d, 1);
    PumpedAfter(co, d, ConnectFrom(co, d, 1).value, Rest(|d.nodes|, 1, Told(Connect)), {}, 0, 0);
    OneOp(ConnectAllOp);
    assert OpTolds(co, d, ConnectAllOp) == Rest(|d.nodes|, 1, Told(Connect));
  }

  // ----- a dropped link -----

  function Lost(co: Coordinator, d: Net, n: nat, event: Event): Lists
    requires n < |d.nodes|
  {
    if co.isTerminal(d.nodes[n].state) then Nothing(|d.nodes|) else Only(|d.nodes|, n, Told(event))
  }

  lemma LoseGoes(co: Coordinator, d: Net, peer: PeerId, event: Event, n: nat)
    requires NodeIndex(d.nodes, peer) == Some(n)
    ensures LoseLink(co, d, peer, event).Some?
    ensures Goes(co, d, LoseLink(co, d, peer, event).value, Lost(co, d, n, event), {}, 0, 0)
    ensures forall m :: 0 <= m < |d.nodes| && m != n ==>
              |LoseLink(co, d, peer, event).value.nodes| == |d.nodes|
              && LoseLink(co, d, peer, event).value.nodes[m].state == d.nodes[m].state
  {
    hide Goes, React, Only, Nothing, NodeIndex;
    SameGoes(co, d, d);
    SendGoes(co, d, peer, event);
    ReactionReaches(co, d, n, co.step(d.nodes[n].state, event));
  }

  lemma CutGoes(co: Coordinator, d: Net, i: nat)
    requires i < |d.links| && LinkIndex(d.links, d.links[i].id) == Some(i)
    ensures Goes(co, d, CloseBoth(d, i), Nothing(|d.nodes|), {d.links[i].id}, 0, 0)
  {
    hide Goes, LinkIndex;
    StillGoes(co, d, CloseBoth(d, i), {d.links[i].id}, 0);
  }

  lemma DropTold(co: Coordinator, d: Net, guest: PeerId, code: Option<string>, g: nat)
    requires Proper(d) && 0 < g < |d.nodes| && d.nodes[g].peerId == guest
    ensures var event := LinkLost(LinkIdOf(guest), code);
            OpTolds(co, d, DropLinkOp(guest, code)) == Join(Lost(co, d, g, event), Lost(co, d, 0, event))
  {
    hide LinkIdOf;
    var event := LinkLost(LinkIdOf(guest), code);
    forall n | 0 <= n < |d.nodes|
      ensures OpTold(co, d, DropLinkOp(guest, code), n) == Lost(co, d, g, event)[n] + Lost(co, d, 0, event)[n]
    {
    }
  }

  // Both peers still running are told, the guest first; the link is cut.
  lemma PeersLose(co: Coordinator, d: Net, lost: Net, guest: PeerId, event: Event, g: nat)
    requires Proper(d) && 0 < g < |d.nodes| && d.nodes[g].peerId == guest && lost.nodes == d.nodes
    ensures LoseLink(co, lost, guest, event).Some?
    ensures var d1 := LoseLink(co, lost, guest, event).value;
            && |d1.nodes| == |d.nodes| && d1.nodes[0].peerId == HOST_PEER_ID
            && LoseLink(co, d1, HOST_PEER_ID, event).Some?
            && Goes(co, lost, LoseLink(co, d1, HOST_PEER_ID, event).value,
                    Join(Lost(co, d, g, event), Lost(co, d, 0, event)), {}, 0, 0)
  {
    hide Goes, LoseLink, Join, LinkIdOf;
    IndexOfName(lost.nodes, g);
    LoseGoes(co, lost, guest, event, g);
    var d1 := LoseLink(co, lost, guest, event).value;
    GoesSame(co, lost, d1, Lost(co, lost, g, event), {}, 0, 0);
    IndexOfName(d1.nodes, 0);
    LoseGoes(co, d1, HOST_PEER_ID, event, 0);
    assert Lost(co, d1, 0, event) == Lost(co, d, 0, event) && Lost(co, lost, g, event) == Lost(co, d, g, event);
    GoesThen(co, lost, d1, LoseLink(co, d1, HOST_PEER_ID, event).value, Lost(co, d, g, event), Lost(co, d, 0, event),
             {}, {}, 0, 0, 0, 0);
    var none: set<LinkId> := {};
    assert none + none == none;
  }

  lemma DropIsPump(co: Coordinator, d: Net, guest: PeerId, code: Option<string>, i: nat, d1: Net, d2: Net)
    requires LinkIndex(d.links, LinkIdOf(guest)) == Some(i)
    requires LoseLink(co, CloseBoth(d, i), guest, LinkLost(LinkIdOf(guest), code)) == Some(d1) && |d1.nodes| > 0
    requires LoseLink(co, d1, d1.nodes[0].peerId, LinkLost(LinkIdOf(guest), code)) == Some(d2)
    ensures DropLink(co, d, guest, code) == Pump(co, d2, MAX_PUMP_ROUNDS)
  {
    hide Pump, LoseLink, LinkIndex, LinkIdOf;
  }

  lemma GuestOfLink(d: Net, guest: PeerId, i: nat)
    requires Proper(d) && LinkIndex(d.links, LinkIdOf(guest)) == Some(i)
    ensures d.links[i].id == LinkIdOf(guest)
    ensures exists g :: 0 < g < |d.nodes| && d.nodes[g].peerId == guest
  {
    LinkNamesDiffer(d.links[i].guestPeerId, guest);
    var g := NodeIndex(d.nodes, guest).value;
    assert d.nodes[g].peerId == guest;
  }

  lemma DropKnowsTheLink(co: Coordinator, d: Net, guest: PeerId, code: Option<string>)
    requires DropLink(co, d, guest, code).Some?
    ensures LinkIndex(d.links, LinkIdOf(guest)).Some?
  {
    hide Pump, LoseLink;
  }

  lemma DropGoes(co: Coordinator, d: Net, guest: PeerId, code: Option<string>, i: nat, g: nat)
    requires Proper(d) && LinkIndex(d.links, LinkIdOf(guest)) == Some(i) && d.links[i].id == LinkIdOf(guest)
    requires DropLink(co, d, guest, code).Some? && 0 < g < |d.nodes| && d.nodes[g].peerId == guest
    ensures var event := LinkLost(LinkIdOf(guest), code);
            Goes(co, d, DropLink(co, d, guest, code).value, Join(Lost(co, d, g, event), Lost(co, d, 0, event)),
                 {LinkIdOf(guest)}, 0, 0)
  {
    var event, lost := LinkLost(LinkIdOf(guest), code), CloseBoth(d, i);
    assert lost.nodes == d.nodes;
    hide *;
    CutGoes(co, d, i);
    PeersLose(co, d, lost, guest, event, g);
    var d1 := LoseLink(co, lost, guest, event).value;
    var d2 := LoseLink(co, d1, HOST_PEER_ID, event).value;
    DropIsPump(co, d, guest, code, i, d1, d2);
    CutThenTold(co, d, lost, d2, Join(Lost(co, d, g, event), Lost(co, d, 0, event)), {LinkIdOf(guest)});
  }

  lemma DropOpGoes(co: Coordinator, d: Net, guest: PeerId, code: Option<string>)
    requires Proper(d) && DropLink(co, d, guest, code).Some?
    ensures OpGoes(co, d, DropLinkOp(guest, code), DropLink(co, d, guest, code).value)
  {
    DropKnowsTheLink(co, d, guest, code);
    var i := LinkIndex(d.links, LinkIdOf(guest)).value;
    GuestOfLink(d, guest, i);
    var g :| 0 < g < |d.nodes| && d.nodes[g].peerId == guest;
    DropTold(co, d, guest, code, g);
    OneOp(DropLinkOp(guest, code));
    hide *;
    DropGoes(co, d, guest, code, i, g);
    AsAsked(co, d, DropLinkOp(guest, code), DropLink(co, d, guest, code).value);
  }

  lemma CutThenTold(co: Coordinator, d: Net, lost: Net, e: Net, told: Lists, cut: set<LinkId>)
    requires Goes(co, d, lost, Nothing(|d.nodes|), cut, 0, 0) && Goes(co, lost, e, told, {}, 0, 0)
    requires |told| == |d.nodes| && Pump(co, e, MAX_PUMP_ROUNDS).Some?
    ensures Goes(co, d, Pump(co, e, MAX_PUMP_ROUNDS).value, told, cut, 0, 0)
  {
    hide *;
    GoesThen(co, d, lost, e, Nothing(|d.nodes|), told, cut, {}, 0, 0, 0, 0);
    JoinNothing(told);
    assert cut + {} == cut;
    PumpedAfter(co, d, e, told, cut, 0, 0);
  }

  lemma PumpOpGoes(co: Coordinator, d: Net)
    requires Pump(co, d, MAX_PUMP_ROUNDS).Some?
    ensures OpGoes(co, d, PumpOp, Pump(co, d, MAX_PUMP_ROUNDS).value)
  {
    ToldNothing(co, d, PumpOp);
    OneOp(PumpOp);
    hide Pump, Goes;
    PumpGoes(co, d, MAX_PUMP_ROUNDS);
  }

  lemma EveryOpGoes(co: Coordinator, d: Net, op: Op)
    requires Proper(d) && Perform(co, d, op).Some?
    ensures OpGoes(co, d, op, Perform(co, d, op).value)
  {
    hide Proper, OpGoes, SendEvent, Pump, TickMany, ConnectFrom, Inject, Replay, DropLink;
    match op
    case SendOp(peer, event) => SendOpGoes(co, d, peer, event);
    case PumpOp => PumpOpGoes(co, d);
    case TickOp(count) => TickOpGoes(co, d, count);
    case ConnectAllOp => ConnectOpGoes(co, d);
    case InjectOp(fromPeer, toPeer, payload) => InjectOpGoes(co, d, fromPeer, toPeer, payload);
    case ReplayOp(fromPeer, toPeer, wire) => ReplayOpGoes(co, d, fromPeer, toPeer, wire);
    case DropLinkOp(guest, code) => DropOpGoes(co, d, guest, code);
  }

  // ----- runs -----

  // What a run tells node n, operation by operation.
  function RunTold(co: Coordinator, d: Net, ops: seq<Op>, n: nat): seq<Heard>
    decreases ops
  {
    if ops == [] || n >= |d.nodes| then []
    else
      OpTold(co, d, ops[0], n)
      + match Perform(co, d, ops[0]) case None => [] case Some(next) => RunTold(co, next, ops[1..], n)
  }

  function RunTolds(co: Coordinator, d: Net, ops: seq<Op>): (r: Lists)
    ensures |r| == |d.nodes|
  {
    seq(|d.nodes|, n requires 0 <= n < |d.nodes| => RunTold(co, d, ops, n))
  }

  lemma FirstTold(co: Coordinator, d: Net, ops: seq<Op>, next: Net)
    requires ops != [] && Perform(co, d, ops[0]) == Some(next) && |next.nodes| == |d.nodes|
    ensures RunTolds(co, d, ops) == Join(OpTolds(co, d, ops[0]), RunTolds(co, next, ops[1..]))
  {
    hide OpTold, Perform;
  }

  lemma NoneTold(co: Coordinator, d: Net)
    ensures RunTolds(co, d, []) == Nothing(|d.nodes|)
  {
  }

  lemma FirstOp(ops: seq<Op>)
    requires ops != []
    ensures Cut(ops) == Cut([ops[0]]) + Cut(ops[1..])
    ensures Replays(ops) == Replays([ops[0]]) + Replays(ops[1..])
    ensures Ticks(ops) == Ticks([ops[0]]) + Ticks(ops[1..])
  {
    assert ops == [ops[0]] + ops[1..];
    assert [ops[0]][1..] == [];
  }

  lemma RunFirst(co: Coordinator, d: Net, ops: seq<Op>)
    requires Run(co, d, ops).Some?
    ensures ops == [] ==> Run(co, d, ops).value == d
    ensures ops != [] ==>
              Perform(co, d, ops[0]).Some? && Run(co, d, ops) == Run(co, Perform(co, d, ops[0]).value, ops[1..])
  {
    hide Perform;
  }

  lemma {:induction false} RunGoes(co: Coordinator, d: Net, ops: seq<Op>)
    requires Proper(d) && Run(co, d, ops).Some?
    ensures Goes(co, d, Run(co, d, ops).value, RunTolds(co, d, ops), Cut(ops), Replays(ops), Ticks(ops))
    decreases ops
  {
    RunFirst(co, d, ops);
    if ops == [] {
      NoneTold(co, d);
      assert Cut(ops) == {} && Replays(ops) == 0 && Ticks(ops) == 0;
      hide Goes;
      SameGoes(co, d, d);
    } else {
      var next := Perform(co, d, ops[0]).value;
      EveryOpGoes(co, d, ops[0]);
      hide *;
      OpKeepsProper(co, d, ops[0], next);
      RunGoes(co, next, ops[1..]);
      OpThenRun(co, d, ops, next, Run(co, d, ops).value);
    }
  }

  lemma OpKeepsProper(co: Coordinator, d: Net, op: Op, e: Net)
    requires Proper(d) && OpGoes(co, d, op, e)
    ensures Proper(e) && |e.nodes| == |d.nodes|
  {
    AskedIs(co, d, op, e);
    hide *;
    GoesSame(co, d, e, OpTolds(co, d, op), Cut([op]), Replays([op]), Ticks([op]));
    ProperStays(d, e);
  }

  lemma OpThenRun(co: Coordinator, d: Net, ops: seq<Op>, next: Net, e: Net)
    requires ops != [] && Perform(co, d, ops[0]) == Some(next) && |next.nodes| == |d.nodes|
    requires OpGoes(co, d, ops[0], next)
    requires Goes(co, next, e, RunTolds(co, next, ops[1..]), Cut(ops[1..]), Replays(ops[1..]), Ticks(ops[1..]))
    ensures Goes(co, d, e, RunTolds(co, d, ops), Cut(ops), Replays(ops), Ticks(ops))
  {
    hide *;
    AskedIs(co, d, ops[0], next);
    FirstTold(co, d, ops, next);
    FirstOp(ops);
    GoesThen(co, d, next, e, OpTolds(co, d, ops[0]), RunTolds(co, next, ops[1..]), Cut([ops[0]]), Cut(ops[1..]),
             Replays([ops[0]]), Replays(ops[1..]), Ticks([ops[0]]), Ticks(ops[1..]));
  }

  lemma AskedIs(co: Coordinator, d: Net, op: Op, e: Net)
    requires OpGoes(co, d, op, e)
    ensures Goes(co, d, e, OpTolds(co, d, op), Cut([op]), Replays([op]), Ticks([op]))
  {
  }
}
