// The in-process driver as the object it is: fields updated in place, loops over
// targets, actions and packets. Each method does to the object's value exactly
// what the function of DriverSteps does to a net, and answers false where the
// driver would panic.
module Driver {
  import opened Results
  import opened DriverSteps
  import DriverProperties

  class CoordinatorDriver {
    const co: Coordinator
    const latencyTicks: int
    var clock: int
    var nodes: seq<Node>
    var links: seq<Link>
    var queue: seq<Packet>
    var transcript: seq<ControlMessage>
    var delivered: int
    var dropped: int
    ghost var sent: seq<Packet>
    ghost var sentAt: seq<int>
    ghost var resolved: seq<Resolution>
    ghost var offered: int

    ghost function Value(): Net
      reads this
    {
      Net(clock, latencyTicks, nodes, links, queue, transcript, delivered, dropped, sent, sentAt, resolved, offered)
    }

    constructor (co: Coordinator, latencyTicks: int, host: CoordinatorState, guests: seq<CoordinatorState>)
      ensures this.co == co && Value() == NewNet(latencyTicks, host, guests)
    {
      this.co, this.latencyTicks := co, latencyTicks;
      clock, queue, transcript, delivered, dropped := 0, [], [], 0, 0;
      sent, sentAt, resolved, offered := [], [], [], 0;
      nodes, links := [NewNode(HOST_PEER_ID, HostRole, host)], [];
      new;
      for i := 0 to |guests|
        invariant queue == [] && transcript == [] && delivered == dropped == offered == clock == 0
        invariant sent == [] && sentAt == [] && resolved == []
        invariant Value() == NewNet(latencyTicks, host, guests[..i])
      {
        nodes := nodes + [NewNode(guests[i].peerId, GuestRole, guests[i])];
        links := links + [Link(LinkIdOf(guests[i].peerId), guests[i].peerId, true, true)];
        assert nodes == NewNet(latencyTicks, host, guests[..i + 1]).nodes;
        assert links == NewNet(latencyTicks, host, guests[..i + 1]).links;
      }
      assert guests[..|guests|] == guests;
    }

    // Either dropped, or queued for the peer at the other end of the link.
    method Enqueue(n: nat, linkId: LinkId, message: ControlMessage)
      requires n < |nodes|
      modifies this
      ensures Value() == DriverSteps.Enqueue(co, old(Value()), n, linkId, message)
      ensures delivered == old(delivered)
      ensures queue == old(queue) ==> dropped == old(dropped) + 1
      ensures queue != old(queue) ==>
                && dropped == old(dropped) && |queue| == |old(queue)| + 1 && LinkIndex(links, linkId).Some?
                && TargetOf(links, queue[|old(queue)|])
                   == Some(if old(nodes[n].role) == GuestRole then HOST_PEER_ID
                           else links[LinkIndex(links, linkId).value].guestPeerId)
    {
      DriverProperties.SendsCrossTheLink(co, Value(), n, linkId, message);
      var toHost := nodes[n].role == GuestRole;
      offered := offered + 1;
      var index := LinkIndex(links, linkId);
      if index.None? {
        dropped := dropped + 1;
        return;
      }
      var senderOpen := if toHost then links[index.value].guestOpen else links[index.value].hostOpen;
      if !senderOpen {
        dropped := dropped + 1;
        return;
      }
      var packet := Packet(linkId, toHost, co.encode(message), clock + latencyTicks);
      queue := queue + [packet];
      sent := sent + [packet];
      sentAt := sentAt + [clock];
    }

    method Apply(n: nat, actions: seq<Action>)
      requires n < |nodes|
      modifies this
      ensures Value() == DriverSteps.Apply(co, old(Value()), n, actions)
      ensures |nodes| == old(|nodes|) && delivered == old(delivered)
    {
      ghost var start := Value();
      for i := 0 to |actions|
        invariant |nodes| == |start.nodes| && delivered == start.delivered
        invariant DriverSteps.Apply(co, Value(), n, actions[i..]) == DriverSteps.Apply(co, start, n, actions)
      {
        ghost var before := Value();
        assert actions[i..][0] == actions[i] && actions[i..][1..] == actions[i + 1..];
        match actions[i] {
          case Send(targets, message) =>
            transcript := transcript + [message];
            ghost var written := Value();
            for j := 0 to |targets|
              invariant |nodes| == |start.nodes| && delivered == start.delivered
              invariant FanOut(co, Value(), n, targets[j..], message) == FanOut(co, written, n, targets, message)
            {
              assert targets[j..][0] == targets[j] && targets[j..][1..] == targets[j + 1..];
              Enqueue(n, targets[j], message);
            }
          case Close(linkId) =>
            var index := LinkIndex(links, linkId);
            if index.Some? {
              var link := links[index.value];
              if nodes[n].role == HostRole {
                links := links[index.value := link.(hostOpen := false)];
              } else {
                links := links[index.value := link.(guestOpen := false)];
              }
            }
          case StartMatch(tick) =>
            nodes := nodes[n := nodes[n].(started := true, firstInputTick := Some(tick))];
          case Terminate(reason) =>
            nodes := nodes[n := nodes[n].(terminal := Some(reason))];
        }
        assert Value() == ApplyOne(co, before, n, actions[i]);
      }
    }

    // One node takes on a coordinator's answer.
    method React(n: nat, state: CoordinatorState, actions: seq<Action>)
      requires n < |nodes|
      modifies this
      ensures Value() == DriverSteps.React(co, old(Value()), n, (state, actions))
      ensures |nodes| == old(|nodes|) && delivered == old(delivered)
    {
      nodes := nodes[n := nodes[n].(state := state)];
      Apply(n, actions);
    }

    method SendEvent(peer: PeerId, event: Event) returns (ok: bool)
      modifies this
      ensures ok <==> DriverSteps.SendEvent(co, old(Value()), peer, event).Some?
      ensures ok ==> Some(Value()) == DriverSteps.SendEvent(co, old(Value()), peer, event)
    {
      var index := NodeIndex(nodes, peer);
      if index.None? {
        return false;
      }
      var (state, actions) := co.step(nodes[index.value].state, event);
      React(index.value, state, actions);
      return true;
    }

    // The due packets, in order; the rest stay queued.
    method TakeDue() returns (due: seq<Packet>)
      modifies this
      ensures due == Due(old(queue), clock, true)
      ensures Value() == old(Value()).(queue := Due(old(queue), clock, false))
    {
      due := [];
      var pending := [];
      for i := 0 to |queue|
        invariant unchanged(this)
        invariant due == Due(queue[..i], clock, true) && pending == Due(queue[..i], clock, false)
      {
        assert queue[..i + 1][..i] == queue[..i];
        if queue[i].deliverAt <= clock {
          due := due + [queue[i]];
        } else {
          pending := pending + [queue[i]];
        }
      }
      assert queue[..|queue|] == queue;
      queue := pending;
    }

    method Deliver(packet: Packet) returns (ok: bool, received: bool)
      modifies this
      ensures ok <==> DriverSteps.Deliver(co, old(Value()), packet).Some?
      ensures ok ==> Some(Value()) == DriverSteps.Deliver(co, old(Value()), packet)
      ensures ok ==> delivered == old(delivered) + if received then 1 else 0
      ensures ok ==> LinkIndex(old(links), packet.linkId).Some?
      ensures ok ==>
                var link := old(links)[LinkIndex(old(links), packet.linkId).value];
                var n := NodeIndex(old(nodes), if packet.toHost then HOST_PEER_ID else link.guestPeerId);
                && n.Some?
                && (received <==> (if packet.toHost then link.hostOpen else link.guestOpen)
                                  && !co.isTerminal(old(nodes)[n.value].state))
    {
      hide DriverSteps.React, DriverSteps.Apply;
      ok, received := false, false;
      var index := LinkIndex(links, packet.linkId);
      if index.None? {
        return;
      }
      var link := links[index.value];
      var target := NodeIndex(nodes, if packet.toHost then HOST_PEER_ID else link.guestPeerId);
      if target.None? {
        return;
      }
      var n := target.value;
      var receiverOpen := if packet.toHost then link.hostOpen else link.guestOpen;
      ok, received := true, receiverOpen && !co.isTerminal(nodes[n].state);
      resolved := resolved + [Resolution(packet, clock, received)];
      if received {
        delivered := delivered + 1;
        var (state, actions) := co.receive(nodes[n].state, packet.linkId, packet.wire);
        React(n, state, actions);
      } else {
        dropped := dropped + 1;
      }
    }

    // The packets of one round, in order.
    method DeliverAll(due: seq<Packet>) returns (ok: bool, count: int)
      modifies this
      ensures ok <==> DriverSteps.DeliverAll(co, old(Value()), due).Some?
      ensures ok ==> Some(Value()) == DriverSteps.DeliverAll(co, old(Value()), due)
      ensures ok ==> count == delivered - old(delivered)
    {
      ghost var taken := Value();
      count := 0;
      for j := 0 to |due|
        invariant DriverSteps.DeliverAll(co, Value(), due[j..]) == DriverSteps.DeliverAll(co, taken, due)
        invariant count == delivered - taken.delivered
      {
        hide DriverSteps.Deliver;
        assert due[j..][0] == due[j] && due[j..][1..] == due[j + 1..];
        var received;
        ok, received := Deliver(due[j]);
        if !ok {
          return;
        }
        count := count + if received then 1 else 0;
      }
      assert due[|due|..] == [];
      ok := true;
    }

    // How many packets were delivered, if the queue settles within the bound.
    method Pump() returns (settled: bool, count: int)
      modifies this
      ensures settled <==> DriverSteps.Pump(co, old(Value()), MAX_PUMP_ROUNDS).Some?
      ensures settled ==> Some(Value()) == DriverSteps.Pump(co, old(Value()), MAX_PUMP_ROUNDS)
      ensures settled ==> count == delivered - old(delivered)
    {
      hide DriverSteps.DeliverAll, Due;
      settled, count := false, 0;
      ghost var start := Value();
      for round := 0 to MAX_PUMP_ROUNDS
        invariant DriverSteps.Pump(co, Value(), MAX_PUMP_ROUNDS - round) == DriverSteps.Pump(co, start, MAX_PUMP_ROUNDS)
        invariant !settled && count == delivered - start.delivered
      {
        var due := TakeDue();
        if |due| == 0 {
          settled := true;
          return;
        }
        var ok, more := DeliverAll(due);
        if !ok {
          return;
        }
        count := count + more;
      }
    }

    method TickEveryNode()
      modifies this
      ensures Value() == TickNodes(co, old(Value()), 0)
    {
      ghost var before := Value();
      for n := 0 to |nodes|
        invariant |nodes| == |before.nodes|
        invariant TickNodes(co, Value(), n) == TickNodes(co, before, 0)
      {
        hide DriverSteps.React;
        var (state, actions) := co.step(nodes[n].state, Event.Tick);
        React(n, state, actions);
      }
    }

    method TickOnce() returns (ok: bool)
      modifies this
      ensures ok <==> DriverSteps.TickOnce(co, old(Value())).Some?
      ensures ok ==> Some(Value()) == DriverSteps.TickOnce(co, old(Value()))
    {
      hide DriverSteps.Pump, TickNodes;
      clock := clock + 1;
      var settled, count := Pump();
      if !settled {
        return false;
      }
      TickEveryNode();
      settled, count := Pump();
      return settled;
    }

    method Tick(times: int) returns (ok: bool)
      modifies this
      ensures ok <==> TickMany(co, old(Value()), times).Some?
      ensures ok ==> Some(Value()) == TickMany(co, old(Value()), times)
    {
      hide DriverSteps.TickOnce;
      ghost var start := Value();
      var left := times;
      while left > 0
        invariant TickMany(co, Value(), left) == TickMany(co, start, times)
        decreases left
      {
        ok := TickOnce();
        if !ok {
          return;
        }
        left := left - 1;
      }
      return true;
    }

    method ConnectAll() returns (ok: bool)
      modifies this
      ensures ok <==> Perform(co, old(Value()), ConnectAllOp).Some?
      ensures ok ==> Some(Value()) == Perform(co, old(Value()), ConnectAllOp)
    {
      ghost var start := Value();
      var n := 1;
      while n < |nodes|
        invariant ConnectFrom(co, Value(), n) == ConnectFrom(co, start, 1)
        invariant |nodes| == |start.nodes|
        decreases |nodes| - n
      {
        hide DriverSteps.SendEvent;
        ok := SendEvent(nodes[n].peerId, Connect);
        if !ok {
          return;
        }
        n := n + 1;
      }
      hide DriverSteps.Pump;
      var settled, count := Pump();
      return settled;
    }

    method Inject(fromPeer: PeerId, toPeer: PeerId, payload: Payload) returns (ok: bool)
      modifies this
      ensures ok <==> DriverSteps.Inject(co, old(Value()), fromPeer, toPeer, payload).Some?
      ensures ok ==> Some(Value()) == DriverSteps.Inject(co, old(Value()), fromPeer, toPeer, payload)
    {
      hide DriverSteps.Pump, DriverSteps.Apply;
      var index := NodeIndex(nodes, fromPeer);
      if index.None? {
        return false;
      }
      var n := index.value;
      var guest := if nodes[n].role == HostRole then toPeer else fromPeer;
      var state := nodes[n].state;
      var message := ControlMessage(fromPeer, state.sequence, payload);
      nodes := nodes[n := nodes[n].(state := state.(sequence := state.sequence + 1))];
      Apply(n, [Send([LinkIdOf(guest)], message)]);
      var settled, count := Pump();
      return settled;
    }

    method Replay(fromPeer: PeerId, toPeer: PeerId, wire: Wire) returns (ok: bool)
      modifies this
      ensures ok <==> DriverSteps.Replay(co, old(Value()), fromPeer, toPeer, wire).Some?
      ensures ok ==> Some(Value()) == DriverSteps.Replay(co, old(Value()), fromPeer, toPeer, wire)
    {
      hide DriverSteps.Pump;
      var index := NodeIndex(nodes, fromPeer);
      if index.None? {
        return false;
      }
      var role := nodes[index.value].role;
      var guest := if role == HostRole then toPeer else fromPeer;
      queue := queue + [Packet(LinkIdOf(guest), role == GuestRole, wire, clock)];
      offered := offered + 1;
      var settled, count := Pump();
      return settled;
    }

    method LoseLink(peer: PeerId, event: Event)
      modifies this
      ensures DriverSteps.LoseLink(co, old(Value()), peer, event) == Some(Value())
    {
      var index := NodeIndex(nodes, peer);
      if index.Some? && !co.isTerminal(nodes[index.value].state) {
        var sent := SendEvent(peer, event);
      }
    }

    method DropLink(guest: PeerId, code: Option<string>) returns (ok: bool)
      modifies this
      ensures ok <==> DriverSteps.DropLink(co, old(Value()), guest, code).Some?
      ensures ok ==> Some(Value()) == DriverSteps.DropLink(co, old(Value()), guest, code)
    {
      hide DriverSteps.Pump, DriverSteps.LoseLink;
      var index := LinkIndex(links, LinkIdOf(guest));
      if index.None? {
        return false;
      }
      links := links[index.value := links[index.value].(hostOpen := false, guestOpen := false)];
      LoseLink(guest, LinkLost(LinkIdOf(guest), code));
      if |nodes| == 0 {
        return false;
      }
      LoseLink(nodes[0].peerId, LinkLost(LinkIdOf(guest), code));
      var settled, count := Pump();
      return settled;
    }
  }
}
