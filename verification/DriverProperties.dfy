// What every run of a new driver promises: packets are conserved, resolved in
// the order they were sent and on the tick they are due, ends never reopen,
// nothing reaches a closed end or a finished node, transcripts number
// consecutively, and with any latency at all no operation panics.
module DriverProperties {
  import opened Results
  import opened DriverSteps
  import opened DriverRelations
  import opened DriverMoves
  import opened DriverKeeps

  // The identities a session's fixtures give out.
  ghost predicate Seated(host: CoordinatorState, guests: seq<CoordinatorState>) {
    && host.peerId == HOST_PEER_ID
    && (forall i :: 0 <= i < |guests| ==> guests[i].peerId != HOST_PEER_ID)
    && (forall i, j :: 0 <= i < j < |guests| ==> guests[i].peerId != guests[j].peerId)
  }

  // The net after these operations, if none of them panicked.
  function After(co: Coordinator, latency: int, host: CoordinatorState, guests: seq<CoordinatorState>,
                 ops: seq<Op>): Option<Net>
  {
    Run(co, NewNet(latency, host, guests), ops)
  }

  lemma NewNetIsSound(latency: int, host: CoordinatorState, guests: seq<CoordinatorState>)
    ensures Settled(NewNet(latency, host, guests)) && InOrder(NewNet(latency, host, guests))
    ensures Punctual(NewNet(latency, host, guests), 1)
  {
    var d := NewNet(latency, host, guests);
    assert d.nodes[0].peerId == HOST_PEER_ID;
    forall i | 0 <= i < |d.links| ensures NodeIndex(d.nodes, d.links[i].guestPeerId).Some? {
      assert d.nodes[i + 1].peerId == d.links[i].guestPeerId;
      NodeIndexFinds(d.nodes, i + 1);
    }
  }

  // Every send and every replay is delivered, dropped or still waiting.
  lemma PacketsAreConserved(co: Coordinator, latency: int, host: CoordinatorState, guests: seq<CoordinatorState>,
                            ops: seq<Op>, e: Net)
    requires After(co, latency, host, guests, ops) == Some(e)
    ensures e.offered == e.delivered + e.dropped + |e.queue|
    ensures e.delivered == CountDelivered(e.resolved)
  {
    hide Run, NewNet, Wired, Later;
    RunSound(co, NewNet(latency, host, guests), ops);
    NewNetIsSound(latency, host, guests);
  }

  // Without replays the queue is one first-in first-out line: what has been
  // resolved, followed by what waits, is exactly what was sent, in that order.
  lemma FirstInFirstOut(co: Coordinator, latency: int, host: CoordinatorState, guests: seq<CoordinatorState>,
                        ops: seq<Op>, e: Net)
    requires NoReplay(ops) && After(co, latency, host, guests, ops) == Some(e)
    ensures PacketsOf(e.resolved) + e.queue == e.sent
    ensures Sorted(e.queue)
  {
    hide Run, Wired, Later, PacketsOf, Settled, Punctual;
    RunSound(co, NewNet(latency, host, guests), ops);
    NewNetIsSound(latency, host, guests);
  }

  // With a latency of at least one tick every packet, replays included, is
  // resolved on the very tick it is due, and nothing waiting is due yet. Without
  // replays that is exactly the latency after the tick it was sent on.
  lemma ResolvedOnTheTick(co: Coordinator, latency: int, host: CoordinatorState, guests: seq<CoordinatorState>,
                          ops: seq<Op>, e: Net)
    requires latency >= 1 && After(co, latency, host, guests, ops) == Some(e)
    ensures forall i :: 0 <= i < |e.resolved| ==> e.resolved[i].at == e.resolved[i].packet.deliverAt
    ensures forall i :: 0 <= i < |e.queue| ==> e.queue[i].deliverAt > e.clock
    ensures NoReplay(ops) ==>
              |e.resolved| <= |e.sent| == |e.sentAt| && forall i :: 0 <= i < |e.resolved| ==>
                e.resolved[i].packet == e.sent[i] && e.resolved[i].at == e.sentAt[i] + latency
  {
    ReachedIsSound(co, latency, host, guests, ops, e);
    hide After, Wired, Balances, PacketsOf, Sorted;
    if NoReplay(ops) {
      FirstInFirstOut(co, latency, host, guests, ops, e);
      forall i | 0 <= i < |e.resolved| ensures i < |e.sent| && e.resolved[i].packet == e.sent[i] {
        PacketAt(e.resolved, i);
      }
      PacketsSize(e.resolved);
    }
  }

  lemma PacketAt(rs: seq<Resolution>, i: nat)
    requires i < |rs|
    ensures |PacketsOf(rs)| == |rs| && PacketsOf(rs)[i] == rs[i].packet
  {
  }

  lemma PacketsSize(rs: seq<Resolution>)
    ensures |PacketsOf(rs)| == |rs|
  {
  }

  // The packet a replay puts on the queue, due at once.
  function Replayed(d: Net, fromPeer: PeerId, toPeer: PeerId, wire: Wire): Packet
    requires NodeIndex(d.nodes, fromPeer).Some?
  {
    Packet(LinkBetween(d, fromPeer, toPeer),
           d.nodes[NodeIndex(d.nodes, fromPeer).value].role == GuestRole, wire, d.clock)
  }

  // An operation that names a peer or a link the driver does not have panics.
  lemma UnknownPanics(co: Coordinator, d: Net, op: Op)
    requires Settled(d) && !Known(d, op)
    ensures Perform(co, d, op) == None
  {
    HasNodes(d);
    hide Pump, Settled, TickMany, ConnectFrom, Apply, LoseLink, React, Replay, ReplayKnown;
    if op.ReplayOp? {
      StrayReplayPanics(co, d, op.fromPeer, op.toPeer, op.wire);
    }
  }

  lemma StrayReplayPanics(co: Coordinator, d: Net, fromPeer: PeerId, toPeer: PeerId, wire: Wire)
    requires Settled(d) && !ReplayKnown(d, fromPeer, toPeer)
    ensures Replay(co, d, fromPeer, toPeer, wire) == None
  {
    hide Pump, Settled;
    if NodeIndex(d.nodes, fromPeer).Some? {
      StrayPacketPanics(co, d, Replayed(d, fromPeer, toPeer, wire), MAX_PUMP_ROUNDS);
    }
  }

  lemma HasNodes(d: Net)
    requires Settled(d)
    ensures |d.nodes| > 0
  {
  }

  lemma {:induction false} RunIsKnown(co: Coordinator, d: Net, ops: seq<Op>)
    requires Settled(d) && Run(co, d, ops).Some?
    ensures AllKnown(d, ops)
    decreases ops
  {
    hide Perform, Settled, Known;
    if ops != [] {
      if !Known(d, ops[0]) {
        UnknownPanics(co, d, ops[0]);
      }
      var e := Perform(co, d, ops[0]).value;
      PerformSound(co, d, ops[0]);
      KeptIsSettled(co, d, e, ops[0].ReplayOp?);
      RunIsKnown(co, e, ops[1..]);
      forall i | 0 <= i < |ops| ensures Known(d, ops[i]) {
        if i > 0 {
          assert ops[1..][i - 1] == ops[i];
          KnownSame(d, e, ops[i]);
        }
      }
    }
  }

  lemma KeptIsSettled(co: Coordinator, d: Net, e: Net, replaying: bool)
    requires Settled(d) && Keeps(co, d, e, replaying)
    ensures Settled(e) && SameShape(d, e)
  {
    hide Settled, InOrder, Punctual, Lives, SameShape;
  }

  // With a latency of at least one tick a run panics exactly when one of its
  // operations names a peer or a link that does not exist.
  lemma PanicsExactly(co: Coordinator, latency: int, host: CoordinatorState, guests: seq<CoordinatorState>,
                      ops: seq<Op>)
    requires latency >= 1
    ensures After(co, latency, host, guests, ops).Some? <==> AllKnown(NewNet(latency, host, guests), ops)
  {
    hide Run, Keeps, Settled, Punctual, NewNet, AllKnown;
    var d := NewNet(latency, host, guests);
    NewNetIsSound(latency, host, guests);
    assert d.latencyTicks == latency by {
      LatencyIsKept(latency, host, guests);
    }
    RunSound(co, d, ops);
    if After(co, latency, host, guests, ops).Some? {
      RunIsKnown(co, d, ops);
    }
  }

  lemma LatencyIsKept(latency: int, host: CoordinatorState, guests: seq<CoordinatorState>)
    ensures NewNet(latency, host, guests).latencyTicks == latency
  {
  }

  // From any moment of a run on: ends that are closed stay closed, nothing more
  // is sent from them or delivered to them, and nothing is delivered to a node
  // that has ended.
  lemma ClosedEndsStaySilent(co: Coordinator, latency: int, host: CoordinatorState, guests: seq<CoordinatorState>,
                             before: seq<Op>, d: Net, after: seq<Op>, e: Net)
    requires After(co, latency, host, guests, before) == Some(d) && Run(co, d, after) == Some(e)
    ensures OnlyCloses(d.links, e.links)
    ensures d.sent <= e.sent && forall i :: |d.sent| <= i < |e.sent| ==> SenderOpen(d.links, e.sent[i])
    ensures d.resolved <= e.resolved
    ensures forall i :: |d.resolved| <= i < |e.resolved| && e.resolved[i].delivered ==>
              && ReceiverOpen(d.links, e.resolved[i].packet)
              && (EndsForGood(co) ==> !TargetTerminal(co, d, e.resolved[i].packet))
  {
    hide Run, Settled, InOrder, Punctual, Lives, SenderOpen, ReceiverOpen, TargetTerminal, EndsForGood;
    RunSound(co, NewNet(latency, host, guests), before);
    NewNetIsSound(latency, host, guests);
    RunSound(co, d, after);
    assert Settled(d) && Later(co, d, e);
    assert forall i :: |d.resolved| <= i < |e.resolved| ==> Welcome(co, d, e.resolved[i]);
  }

  lemma NewNetIsSelfNamed(latency: int, host: CoordinatorState, guests: seq<CoordinatorState>)
    requires Seated(host, guests)
    ensures SelfNamed(NewNet(latency, host, guests).nodes)
  {
    var nodes := NewNet(latency, host, guests).nodes;
    assert forall i :: 0 < i < |nodes| ==> nodes[i].state == guests[i - 1];
  }

  // Each peer's transcript entries, injections included, are numbered one after
  // another from its first sequence to its next.
  lemma TranscriptsNumberConsecutively(co: Coordinator, latency: int, host: CoordinatorState,
                                       guests: seq<CoordinatorState>, ops: seq<Op>, e: Net, n: nat)
    requires Numbering(co) && Seated(host, guests) && n < |guests| + 1
    requires After(co, latency, host, guests, ops) == Some(e)
    ensures var first := if n == 0 then host else guests[n - 1];
            && |e.nodes| == |guests| + 1 && first.sequence <= e.nodes[n].state.sequence
            && NumbersOf(e.transcript, first.peerId) == Range(first.sequence, e.nodes[n].state.sequence)
  {
    hide Run, Settled, InOrder, Punctual, Numbering, SenderOpen, Welcome, NumbersOf, Range;
    var d := NewNet(latency, host, guests);
    RunSound(co, d, ops);
    NewNetIsSound(latency, host, guests);
    NewNetIsSelfNamed(latency, host, guests);
    assert Settled(d) && Later(co, d, e) && Numbered(d, e);
    assert Wrote(d, e, n);
    assert e.transcript[|d.transcript|..] == e.transcript;
  }

  // The entry at i is the entry of its sender's own list that this many precede.
  lemma {:induction false} NumberAt(ms: seq<ControlMessage>, i: nat, peer: PeerId)
    requires i < |ms| && ms[i].sender == peer
    ensures |NumbersOf(ms[..i], peer)| < |NumbersOf(ms, peer)|
    ensures NumbersOf(ms, peer)[|NumbersOf(ms[..i], peer)|] == ms[i].sequence
  {
    NumbersConcat(ms[..i], ms[i..], peer);
    assert ms[..i] + ms[i..] == ms;
  }

  // So within a transcript a later entry of the same peer has a higher number.
  lemma TranscriptsIncrease(co: Coordinator, latency: int, host: CoordinatorState, guests: seq<CoordinatorState>,
                            ops: seq<Op>, e: Net, n: nat, i: nat, j: nat)
    requires Numbering(co) && Seated(host, guests) && n < |guests| + 1
    requires After(co, latency, host, guests, ops) == Some(e) && i < j < |e.transcript|
    requires e.transcript[i].sender == e.transcript[j].sender == (if n == 0 then host else guests[n - 1]).peerId
    ensures e.transcript[i].sequence < e.transcript[j].sequence
  {
    hide Run, Numbering, NumbersOf, After, Seated;
    TranscriptsNumberConsecutively(co, latency, host, guests, ops, e, n);
    var ms, peer := e.transcript, e.transcript[i].sender;
    NumberAt(ms, i, peer);
    NumberAt(ms, j, peer);
    NumberAt(ms[..j], i, peer);
    assert ms[..j][..i] == ms[..i];
  }

  // ----- who gets what -----

  // What a node sends goes to the other end of the link: a guest's packet to the
  // host, the host's to the link's guest, carrying the encoded message.
  lemma SendsCrossTheLink(co: Coordinator, d: Net, n: nat, linkId: LinkId, message: ControlMessage)
    requires n < |d.nodes|
    ensures var e := Enqueue(co, d, n, linkId, message);
            if e.queue == d.queue then
              e.dropped == d.dropped + 1
            else
              && |e.queue| == |d.queue| + 1 && e.dropped == d.dropped
              && var packet := e.queue[|d.queue|]; var index := LinkIndex(d.links, linkId);
                 && packet.wire == co.encode(message) && index.Some?
                 && TargetOf(d.links, packet)
                    == Some(if d.nodes[n].role == GuestRole then HOST_PEER_ID
                            else d.links[index.value].guestPeerId)
  {
  }

  // A delivery hands the wire to its target's coordinator and to nobody else's;
  // a drop changes no coordinator and no end.
  lemma DeliveriesReachTheTarget(co: Coordinator, d: Net, packet: Packet, e: Net)
    requires Deliver(co, d, packet) == Some(e)
    ensures var target := TargetOf(d.links, packet);
            && target.Some? && NodeIndex(d.nodes, target.value).Some? && |e.nodes| == |d.nodes|
            && var n := NodeIndex(d.nodes, target.value).value;
               && (forall m :: 0 <= m < |d.nodes| && m != n ==> e.nodes[m].state == d.nodes[m].state)
               && (if e.delivered == d.delivered then
                     e.nodes == d.nodes && e.links == d.links && e.dropped == d.dropped + 1
                   else
                     e.delivered == d.delivered + 1
                     && e.nodes[n].state == co.receive(d.nodes[n].state, packet.linkId, packet.wire).0)
  {
    var n := NodeIndex(d.nodes, TargetOf(d.links, packet).value).value;
    hide React, NodeIndex, LinkIndex;
    if ReceiverOpen(d.links, packet) && !co.isTerminal(d.nodes[n].state) {
      var counted := d.(delivered := d.delivered + 1, resolved := d.resolved + [Resolution(packet, d.clock, true)]);
      ReactionReaches(co, counted, n, co.receive(d.nodes[n].state, packet.linkId, packet.wire));
    }
  }

  lemma ReactionReaches(co: Coordinator, d: Net, n: nat, outcome: (CoordinatorState, seq<Action>))
    requires n < |d.nodes|
    ensures var e := React(co, d, n, outcome);
            && |e.nodes| == |d.nodes| && e.delivered == d.delivered && e.nodes[n].state == outcome.0
            && forall m :: 0 <= m < |d.nodes| && m != n ==> e.nodes[m].state == d.nodes[m].state
  {
    var taken := d.(nodes := d.nodes[n := d.nodes[n].(state := outcome.0)]);
    ApplyActs(co, taken, n, outcome.1);
    hide Apply, SameShape, Sends, Dates;
  }

  // ----- why the latency matters -----

  // Two coordinators that answer every packet on the link it came by.
  function Echo(message: ControlMessage): Coordinator {
    Coordinator((s, event) => (s, []), (s, link, wire) => (s, [Send([link], message)]), s => false, m => "")
  }

  ghost predicate Echoing(d: Net) {
    && |d.nodes| == 2 && d.nodes[0].role == HostRole && d.nodes[1].role == GuestRole
    && d.nodes[0].peerId == HOST_PEER_ID && d.nodes[1].peerId == "guest"
    && d.links == [Link(LinkIdOf("guest"), "guest", true, true)] && d.latencyTicks <= 0
    && |d.queue| == 1 && d.queue[0].linkId == LinkIdOf("guest") && d.queue[0].deliverAt <= d.clock
  }

  lemma EchoAnswers(d: Net, message: ControlMessage, packet: Packet)
    requires Echoing(d.(queue := [packet])) && d.queue == []
    ensures Deliver(Echo(message), d, packet).Some?
    ensures Echoing(Deliver(Echo(message), d, packet).value)
  {
    var co := Echo(message);
    var n := if packet.toHost then 0 else 1;
    assert NodeIndex(d.nodes, if packet.toHost then HOST_PEER_ID else "guest") == Some(n);
    assert LinkIndex(d.links, packet.linkId) == Some(0);
    var counted := d.(delivered := d.delivered + 1, resolved := d.resolved + [Resolution(packet, d.clock, true)]);
    var taken := counted.(nodes := d.nodes[n := d.nodes[n].(state := d.nodes[n].state)]);
    assert taken.nodes == d.nodes;
    var written := taken.(transcript := d.transcript + [message]);
    assert Deliver(co, d, packet) == Some(Apply(co, taken, n, [Send([packet.linkId], message)]));
    var sent := Enqueue(co, written, n, packet.linkId, message);
    assert FanOut(co, sent, n, [], message) == sent;
    assert FanOut(co, written, n, [packet.linkId], message) == sent;
    assert ApplyOne(co, taken, n, Send([packet.linkId], message)) == sent;
    assert Apply(co, sent, n, []) == sent;
    assert Apply(co, taken, n, [Send([packet.linkId], message)]) == sent;
  }

  lemma EchoRound(d: Net, message: ControlMessage)
    requires Echoing(d)
    ensures Due(d.queue, d.clock, true) != []
    ensures DeliverAll(Echo(message), Taken(d), Due(d.queue, d.clock, true)).Some?
    ensures Echoing(DeliverAll(Echo(message), Taken(d), Due(d.queue, d.clock, true)).value)
  {
    hide Deliver;
    var packet := d.queue[0];
    assert d.queue[..0] == [] && d.queue == [packet];
    assert Due(d.queue, d.clock, true) == [packet] && Due(d.queue, d.clock, false) == [];
    EchoAnswers(Taken(d), message, packet);
    var next := Deliver(Echo(message), Taken(d), packet).value;
    assert DeliverAll(Echo(message), next, []) == Some(next);
    assert DeliverAll(Echo(message), Taken(d), [packet]) == Some(next);
  }

  lemma {:induction false} EchoesForever(d: Net, message: ControlMessage, rounds: nat)
    requires Echoing(d)
    ensures Pump(Echo(message), d, rounds) == None
    decreases rounds
  {
    hide Pump, Echo;
    PumpNoRounds(Echo(message), d);
    if rounds > 0 {
      EchoRound(d, message);
      PumpUnfold(Echo(message), d, rounds);
      EchoesForever(DeliverAll(Echo(message), Taken(d), Due(d.queue, d.clock, true)).value, message, rounds - 1);
    }
  }

  // Two or more rounds settle every net under every coordinator exactly when
  // the latency is at least one tick; at zero no number of rounds is enough.
  lemma LatencyIsWhatSettles(latency: int, rounds: nat, state: CoordinatorState, message: ControlMessage)
    requires rounds >= 2
    ensures (forall co, d :: Settled(d) && Punctual(d, 0) && d.latencyTicks == latency ==> Pump(co, d, rounds).Some?)
            <==> latency >= 1
  {
    if latency >= 1 {
      forall co, d | Settled(d) && Punctual(d, 0) && d.latencyTicks == latency ensures Pump(co, d, rounds).Some? {
        PumpSettles(co, d, rounds);
      }
    } else {
      var host, guest := state.(peerId := HOST_PEER_ID), state.(peerId := "guest");
      var start := NewNet(latency, host, [guest]);
      var d := start.(queue := [Packet(LinkIdOf("guest"), true, "", 0)], offered := 1);
      NewNetIsSound(latency, host, [guest]);
      assert d.links == [Link(LinkIdOf("guest"), "guest", true, true)];
      EchoesForever(d, message, rounds);
      assert Settled(d) && Punctual(d, 0) && Pump(Echo(message), d, rounds) == None;
    }
  }

  // The net of two such coordinators, before anything happens.
  lemma EchoNet(latency: int, host: CoordinatorState, guest: CoordinatorState, packet: Packet)
    requires latency <= 0 && Seated(host, [guest]) && guest.peerId == "guest"
    requires packet.linkId == LinkIdOf("guest") && packet.deliverAt == 0
    ensures var d := NewNet(latency, host, [guest]);
            && d.links == [Link(LinkIdOf("guest"), "guest", true, true)] && d.queue == []
            && NodeIndex(d.nodes, "guest") == Some(1) && d.nodes[1].role == GuestRole
            && LinkIndex(d.links, LinkIdOf("guest")).Some?
            && Echoing(d.(queue := [packet], offered := 1))
  {
    var d := NewNet(latency, host, [guest]);
    assert d.links == [Link(LinkIdOf("guest"), "guest", true, true)];
    assert d.nodes[1].peerId == "guest" && d.nodes[0].peerId == HOST_PEER_ID;
    assert d.nodes[1..][0] == d.nodes[1];
  }

  lemma ReplayPushes(co: Coordinator, d: Net, wire: Wire)
    requires NodeIndex(d.nodes, "guest") == Some(1) && d.nodes[1].role == GuestRole && d.queue == [] && d.offered == 0
    ensures Replay(co, d, "guest", HOST_PEER_ID, wire)
         == Pump(co, d.(queue := [Packet(LinkIdOf("guest"), true, wire, d.clock)], offered := 1), MAX_PUMP_ROUNDS)
  {
    hide Pump, NodeIndex;
    var packet := Packet(LinkIdOf("guest"), true, wire, d.clock);
    assert d.queue + [packet] == [packet];
  }

  lemma RunOne(co: Coordinator, d: Net, op: Op)
    ensures Run(co, d, [op]) == Perform(co, d, op)
  {
    hide Perform;
  }

  // And operations get there: at no latency, the default, two such coordinators
  // never settle after a single replayed packet, and a run panics although every
  // name is known.
  lemma EchoRunPanics(latency: int, host: CoordinatorState, guest: CoordinatorState, message: ControlMessage)
    requires latency <= 0 && Seated(host, [guest]) && guest.peerId == "guest"
    ensures After(Echo(message), latency, host, [guest], [ReplayOp("guest", HOST_PEER_ID, "")]) == None
    ensures AllKnown(NewNet(latency, host, [guest]), [ReplayOp("guest", HOST_PEER_ID, "")])
  {
    var d := NewNet(latency, host, [guest]);
    var packet := Packet(LinkIdOf("guest"), true, "", 0);
    EchoNet(latency, host, guest, packet);
    assert d.offered == 0 && d.clock == 0;
    hide NewNet, Echo, Pump, NodeIndex, LinkIndex, Run, Echoing, LinkIdOf, Replay, AllKnown, Seated;
    EchoReplayKnown(d);
    EchoReplayPanics(d, message, packet);
  }

  lemma EchoReplayKnown(d: Net)
    requires NodeIndex(d.nodes, "guest") == Some(1) && d.nodes[1].role == GuestRole
    requires LinkIndex(d.links, LinkIdOf("guest")).Some?
    ensures AllKnown(d, [ReplayOp("guest", HOST_PEER_ID, "")])
  {
    hide NodeIndex, LinkIndex;
  }

  lemma EchoReplayPanics(d: Net, message: ControlMessage, packet: Packet)
    requires NodeIndex(d.nodes, "guest") == Some(1) && d.nodes[1].role == GuestRole
    requires d.queue == [] && d.offered == 0 && packet == Packet(LinkIdOf("guest"), true, "", d.clock)
    requires Echoing(d.(queue := [packet], offered := 1))
    ensures Run(Echo(message), d, [ReplayOp("guest", HOST_PEER_ID, "")]) == None
  {
    hide Echo, Pump, NodeIndex, Run, Echoing, LinkIdOf, Replay;
    EchoesForever(d.(queue := [packet], offered := 1), message, MAX_PUMP_ROUNDS);
    ReplayPushes(Echo(message), d, "");
    RunOne(Echo(message), d, ReplayOp("guest", HOST_PEER_ID, ""));
  }

  ghost predicate NeverPanics(latency: int) {
    forall co, host, guests, ops ::
      Seated(host, guests) && AllKnown(NewNet(latency, host, guests), ops) ==>
        After(co, latency, host, guests, ops).Some?
  }

  // No run with known names panics, for any coordinator and any guests, exactly
  // when the latency is at least one tick.
  lemma NeverPanicsExactly(latency: int, state: CoordinatorState, message: ControlMessage)
    ensures NeverPanics(latency) <==> latency >= 1
  {
    hide After, AllKnown, NewNet;
    if latency >= 1 {
      forall co, host, guests, ops | Seated(host, guests) && AllKnown(NewNet(latency, host, guests), ops)
        ensures After(co, latency, host, guests, ops).Some?
      {
        PanicsExactly(co, latency, host, guests, ops);
      }
    } else {
      var host, guest := state.(peerId := HOST_PEER_ID), state.(peerId := "guest");
      EchoRunPanics(latency, host, guest, message);
    }
  }

  // ----- replays and the line -----

  // With a latency of at least one tick a replayed packet is resolved at once,
  // and everything that was waiting waits on: it overtakes exactly when the
  // queue was not empty.
  lemma ReplayJumpsTheQueue(co: Coordinator, latency: int, host: CoordinatorState, guests: seq<CoordinatorState>,
                            ops: seq<Op>, d: Net, fromPeer: PeerId, toPeer: PeerId, wire: Wire)
    requires latency >= 1 && After(co, latency, host, guests, ops) == Some(d) && ReplayKnown(d, fromPeer, toPeer)
    ensures Replay(co, d, fromPeer, toPeer, wire).Some?
    ensures var e := Replay(co, d, fromPeer, toPeer, wire).value;
            && |e.resolved| == |d.resolved| + 1 && d.resolved <= e.resolved
            && var fromHost := d.nodes[NodeIndex(d.nodes, fromPeer).value].role == HostRole;
            && e.resolved[|d.resolved|].packet
               == Packet(LinkIdOf(if fromHost then toPeer else fromPeer), !fromHost, wire, d.clock)
            && d.queue <= e.queue
            && (Overtaken(d, e) <==> d.queue != [])
  {
    ReachedIsSound(co, latency, host, guests, ops, d);
    ReplayIsPush(co, d, fromPeer, toPeer, wire);
    hide Replay, Pump, Settled, Punctual, KnownLink, After, NodeIndex;
    OneReplayRound(co, d, Replayed(d, fromPeer, toPeer, wire));
    if d.queue != [] {
      var e := Replay(co, d, fromPeer, toPeer, wire).value;
      assert e.queue[0] == d.queue[0] && d.queue[0] in e.queue;
    }
  }

  lemma ReplayIsPush(co: Coordinator, d: Net, fromPeer: PeerId, toPeer: PeerId, wire: Wire)
    requires ReplayKnown(d, fromPeer, toPeer)
    ensures var packet := Replayed(d, fromPeer, toPeer, wire);
            && KnownLink(d.links, packet) && packet.deliverAt == d.clock
            && Replay(co, d, fromPeer, toPeer, wire)
               == Pump(co, d.(queue := d.queue + [packet], offered := d.offered + 1), MAX_PUMP_ROUNDS)
  {
    hide Pump, NodeIndex, LinkIndex;
  }

  // What every reached net with a latency has.
  lemma ReachedIsSound(co: Coordinator, latency: int, host: CoordinatorState, guests: seq<CoordinatorState>,
                       ops: seq<Op>, d: Net)
    requires latency >= 1 && After(co, latency, host, guests, ops) == Some(d)
    ensures Settled(d) && Punctual(d, 1) && d.latencyTicks == latency
  {
    hide Run, NewNet, Keeps, Settled, Punctual, InOrder;
    RunSound(co, NewNet(latency, host, guests), ops);
    NewNetIsSound(latency, host, guests);
    LatencyIsKept(latency, host, guests);
    KeepsPunctual(co, NewNet(latency, host, guests), d, !NoReplay(ops));
  }

  // Something queued before is still queued although a later packet is resolved.
  ghost predicate Overtaken(d: Net, e: Net) {
    |e.resolved| > |d.resolved| && exists i :: 0 <= i < |d.queue| && d.queue[i] in e.queue
  }

  // The replayed packet alone is due.
  lemma PushedIsDue(d: Net, packet: Packet)
    requires Punctual(d, 1) && packet.deliverAt == d.clock
    ensures var pushed := d.(queue := d.queue + [packet], offered := d.offered + 1);
            && Due(pushed.queue, pushed.clock, true) == [packet]
            && Taken(pushed) == d.(offered := d.offered + 1)
  {
    var pushed := d.(queue := d.queue + [packet], offered := d.offered + 1);
    DueNone(d.queue, d.clock);
    assert pushed.queue[..|pushed.queue| - 1] == d.queue;
    assert [] + [packet] == [packet];
  }

  lemma OneReplayRound(co: Coordinator, d: Net, packet: Packet)
    requires Settled(d) && Punctual(d, 1) && d.latencyTicks >= 1
    requires KnownLink(d.links, packet) && packet.deliverAt == d.clock
    ensures var p := Pump(co, d.(queue := d.queue + [packet], offered := d.offered + 1), MAX_PUMP_ROUNDS);
            && p.Some? && |p.value.resolved| == |d.resolved| + 1 && d.resolved <= p.value.resolved
            && p.value.resolved[|d.resolved|].packet == packet && d.queue <= p.value.queue
  {
    var pushed := d.(queue := d.queue + [packet], offered := d.offered + 1);
    PushedKeeps(co, d, packet);
    PushedIsDue(d, packet);
    hide Pump, DeliverAll, Due, Settled, InOrder, Later, Lives, SameShape, KnownLink, Punctual, Taken;
    RoundKeeps(co, pushed);
    PumpUnfold(co, pushed, MAX_PUMP_ROUNDS);
    RoundMoves(co, pushed);
    var e := DeliverAll(co, Taken(pushed), [packet]).value;
    PumpedPunctual(co, pushed, e);
    PumpIdle(co, e, MAX_PUMP_ROUNDS - 1);
    OneResolved(co, d.(offered := d.offered + 1), packet, e);
  }

  lemma OneResolved(co: Coordinator, d: Net, packet: Packet, e: Net)
    requires Moves(co, d, [packet], e)
    ensures |e.resolved| == |d.resolved| + 1 && d.resolved <= e.resolved
    ensures e.resolved[|d.resolved|].packet == packet && d.queue <= e.queue
  {
    hide Lives, SameShape, Balances, Dates, Stamped, Welcome;
    var added :| Sends(d, e, added);
    var news :| Resolves(co, d, e, [packet], news);
  }
}
