// What one stretch of driver work may do to a net: `Moves` resolves exactly a
// given list of packets within one clock value; `Later` spans whole operations.
// Both compose, and every driver function that only reacts is a `Moves`.
module DriverRelations {
  import opened Results
  import opened DriverSteps

  // ----- shapes: who is wired to whom never changes -----

  ghost predicate SameLinks(a: seq<Link>, b: seq<Link>) {
    |a| == |b| && forall i :: 0 <= i < |a| ==> a[i].id == b[i].id && a[i].guestPeerId == b[i].guestPeerId
  }

  ghost predicate SameNodes(a: seq<Node>, b: seq<Node>) {
    |a| == |b| && forall i :: 0 <= i < |a| ==> a[i].peerId == b[i].peerId && a[i].role == b[i].role
  }

  ghost predicate OnlyCloses(a: seq<Link>, b: seq<Link>) {
    |a| == |b|
    && forall i :: 0 <= i < |a| ==> (b[i].hostOpen ==> a[i].hostOpen) && (b[i].guestOpen ==> a[i].guestOpen)
  }

  ghost predicate SameShape(d: Net, e: Net) {
    SameLinks(d.links, e.links) && SameNodes(d.nodes, e.nodes) && OnlyCloses(d.links, e.links)
    && d.latencyTicks == e.latencyTicks
  }

  lemma {:induction false} LinkIndexSame(a: seq<Link>, b: seq<Link>, id: LinkId)
    requires SameLinks(a, b)
    ensures LinkIndex(a, id) == LinkIndex(b, id)
  {
    if a != [] {
      LinkIndexSame(a[1..], b[1..], id);
    }
  }

  lemma {:induction false} NodeIndexSame(a: seq<Node>, b: seq<Node>, id: PeerId)
    requires SameNodes(a, b)
    ensures NodeIndex(a, id) == NodeIndex(b, id)
  {
    if a != [] {
      NodeIndexSame(a[1..], b[1..], id);
    }
  }

  lemma {:induction false} NodeIndexFinds(nodes: seq<Node>, n: nat)
    requires n < |nodes|
    ensures NodeIndex(nodes, nodes[n].peerId).Some?
    ensures NodeIndex(nodes, nodes[n].peerId).value <= n
  {
    if nodes[0].peerId != nodes[n].peerId {
      NodeIndexFinds(nodes[1..], n - 1);
      assert nodes[1..][n - 1] == nodes[n];
    }
  }

  lemma {:induction false} LinkIndexFinds(links: seq<Link>, n: nat)
    requires n < |links|
    ensures LinkIndex(links, links[n].id).Some?
  {
    if links[0].id != links[n].id {
      LinkIndexFinds(links[1..], n - 1);
      assert links[1..][n - 1] == links[n];
    }
  }

  // The end a packet leaves from; `ReceiverOpen` is the end it arrives at.
  ghost predicate SenderOpen(links: seq<Link>, packet: Packet) {
    var index := LinkIndex(links, packet.linkId);
    index.Some? && (if packet.toHost then links[index.value].guestOpen else links[index.value].hostOpen)
  }

  ghost predicate KnownLink(links: seq<Link>, packet: Packet) {
    LinkIndex(links, packet.linkId).Some?
  }

  lemma EndsOnlyClose(d: Net, e: Net, packet: Packet)
    requires SameShape(d, e)
    ensures KnownLink(e.links, packet) == KnownLink(d.links, packet)
    ensures SenderOpen(e.links, packet) ==> SenderOpen(d.links, packet)
    ensures ReceiverOpen(e.links, packet) ==> ReceiverOpen(d.links, packet)
    ensures TargetOf(e.links, packet) == TargetOf(d.links, packet)
  {
    LinkIndexSame(d.links, e.links, packet.linkId);
  }

  // ----- counters and history -----

  function CountDelivered(rs: seq<Resolution>): nat {
    if rs == [] then 0
    else CountDelivered(rs[..|rs| - 1]) + if rs[|rs| - 1].delivered then 1 else 0
  }

  lemma {:induction false} CountDeliveredConcat(a: seq<Resolution>, b: seq<Resolution>)
    ensures CountDelivered(a + b) == CountDelivered(a) + CountDelivered(b)
    decreases |b|
  {
    if b == [] {
      assert a + b == a;
    } else {
      CountDeliveredConcat(a, b[..|b| - 1]);
      assert (a + b)[..|a + b| - 1] == a + b[..|b| - 1];
    }
  }

  ghost predicate Stamped(d: Net, packet: Packet) {
    packet.deliverAt == d.clock + d.latencyTicks && SenderOpen(d.links, packet)
  }

  // The queue and the record of what was sent grow by the same packets.
  ghost predicate Sends(d: Net, e: Net, added: seq<Packet>) {
    e.queue == d.queue + added && e.sent == d.sent + added
    && forall i :: 0 <= i < |added| ==> Stamped(d, added[i])
  }

  // Whatever was sent in between was sent at this clock value.
  ghost predicate Dates(d: Net, e: Net) {
    |e.sentAt| - |d.sentAt| == |e.sent| - |d.sent| && d.sentAt <= e.sentAt
    && forall i :: |d.sentAt| <= i < |e.sentAt| ==> e.sentAt[i] == d.clock
  }

  // A delivery found the receiving end open and, when terminal states last,
  // the receiving node still running.
  ghost predicate Welcome(co: Coordinator, d: Net, r: Resolution) {
    r.delivered ==>
      && ReceiverOpen(d.links, r.packet)
      && (EndsForGood(co) ==> !TargetTerminal(co, d, r.packet))
  }

  ghost predicate TargetTerminal(co: Coordinator, d: Net, packet: Packet) {
    var target := TargetOf(d.links, packet);
    target.Some? &&
    var node := NodeIndex(d.nodes, target.value);
    node.Some? && co.isTerminal(d.nodes[node.value].state)
  }

  ghost predicate Resolves(co: Coordinator, d: Net, e: Net, packets: seq<Packet>, news: seq<Resolution>) {
    e.resolved == d.resolved + news && |news| == |packets|
    && forall i :: 0 <= i < |news| ==> news[i].packet == packets[i] && news[i].at == d.clock && Welcome(co, d, news[i])
  }

  // What each counter says, given how many packets are still on their way.
  ghost predicate Balances(d: Net, inFlight: int) {
    d.offered == d.delivered + d.dropped + inFlight && d.delivered == CountDelivered(d.resolved)
  }

  // ----- coordinators that number their messages, and that end for good -----

  function Messages(actions: seq<Action>): seq<ControlMessage> {
    if actions == [] then []
    else (if actions[0].Send? then [actions[0].message] else []) + Messages(actions[1..])
  }

  ghost predicate Follows(s: CoordinatorState, outcome: (CoordinatorState, seq<Action>)) {
    var messages := Messages(outcome.1);
    outcome.0.peerId == s.peerId && outcome.0.sequence == s.sequence + |messages|
    && forall i :: 0 <= i < |messages| ==> messages[i].sender == s.peerId && messages[i].sequence == s.sequence + i
  }

  // Every coordinator step numbers what it emits consecutively, as itself.
  ghost predicate Numbering(co: Coordinator) {
    && (forall s, event :: Follows(s, co.step(s, event)))
    && (forall s, link, wire :: Follows(s, co.receive(s, link, wire)))
  }

  // A terminal coordinator stays terminal, whatever it is told.
  ghost predicate EndsForGood(co: Coordinator) {
    && (forall s, event :: co.isTerminal(s) ==> co.isTerminal(co.step(s, event).0))
    && (forall s, sequence :: co.isTerminal(s) ==> co.isTerminal(s.(sequence := sequence)))
  }

  function NumbersOf(ms: seq<ControlMessage>, peer: PeerId): seq<int> {
    if ms == [] then []
    else (if ms[0].sender == peer then [ms[0].sequence] else []) + NumbersOf(ms[1..], peer)
  }

  function Range(from: int, to: int): (r: seq<int>)
    requires from <= to
    ensures |r| == to - from
  {
    seq(to - from, i => from + i)
  }

  lemma {:induction false} NumbersConcat(a: seq<ControlMessage>, b: seq<ControlMessage>, peer: PeerId)
    ensures NumbersOf(a + b, peer) == NumbersOf(a, peer) + NumbersOf(b, peer)
  {
    if a == [] {
      assert a + b == b;
    } else {
      assert (a + b)[1..] == a[1..] + b && (a + b)[0] == a[0];
      NumbersConcat(a[1..], b, peer);
      var head := if a[0].sender == peer then [a[0].sequence] else [];
      assert NumbersOf(a + b, peer) == head + NumbersOf((a + b)[1..], peer);
      assert head + (NumbersOf(a[1..], peer) + NumbersOf(b, peer)) == NumbersOf(a, peer) + NumbersOf(b, peer);
    }
  }

  ghost predicate SelfNamed(nodes: seq<Node>) {
    && (forall i :: 0 <= i < |nodes| ==> nodes[i].state.peerId == nodes[i].peerId)
    && (forall i, j :: 0 <= i < j < |nodes| ==> nodes[i].peerId != nodes[j].peerId)
  }

  // From d to e, node n wrote the messages numbered from..to and no other.
  ghost predicate Wrote(d: Net, e: Net, n: nat)
    requires n < |d.nodes| && |d.nodes| == |e.nodes| && d.transcript <= e.transcript
  {
    d.nodes[n].state.sequence <= e.nodes[n].state.sequence
    && NumbersOf(e.transcript[|d.transcript|..], d.nodes[n].peerId)
       == Range(d.nodes[n].state.sequence, e.nodes[n].state.sequence)
  }

  ghost predicate Numbered(d: Net, e: Net) {
    SelfNamed(e.nodes) && |d.nodes| == |e.nodes| && d.transcript <= e.transcript
    && forall n :: 0 <= n < |d.nodes| ==> Wrote(d, e, n)
  }

  ghost predicate StaysTerminal(co: Coordinator, d: Net, e: Net) {
    |d.nodes| == |e.nodes|
    && forall n :: 0 <= n < |d.nodes| && co.isTerminal(d.nodes[n].state) ==> co.isTerminal(e.nodes[n].state)
  }

  lemma NumberedCompose(a: Net, b: Net, c: Net)
    requires SameNodes(a.nodes, b.nodes) && Numbered(a, b) && Numbered(b, c)
    ensures Numbered(a, c)
  {
    forall n | 0 <= n < |a.nodes| ensures Wrote(a, c, n) {
      assert Wrote(a, b, n) && Wrote(b, c, n);
      var peer := a.nodes[n].peerId;
      assert c.transcript[|a.transcript|..] == b.transcript[|a.transcript|..] + c.transcript[|b.transcript|..];
      NumbersConcat(b.transcript[|a.transcript|..], c.transcript[|b.transcript|..], peer);
      assert Range(a.nodes[n].state.sequence, c.nodes[n].state.sequence)
          == Range(a.nodes[n].state.sequence, b.nodes[n].state.sequence)
           + Range(b.nodes[n].state.sequence, c.nodes[n].state.sequence);
    }
  }

  lemma NumberedSame(d: Net, e: Net)
    requires SelfNamed(d.nodes) && e.transcript == d.transcript && |e.nodes| == |d.nodes|
    requires forall n :: 0 <= n < |d.nodes| ==> e.nodes[n].peerId == d.nodes[n].peerId && e.nodes[n].state == d.nodes[n].state
    ensures Numbered(d, e)
  {
    assert e.transcript[|d.transcript|..] == [];
  }

  // ----- the three relations -----

  // What holds of every net a driver passes through.
  ghost predicate Wired(d: Net) {
    && (forall i :: 0 <= i < |d.links| ==> NodeIndex(d.nodes, d.links[i].guestPeerId).Some?)
    && NodeIndex(d.nodes, HOST_PEER_ID).Some?
    && (forall i :: 0 <= i < |d.queue| ==> KnownLink(d.links, d.queue[i]))
  }

  // The nodes' own side of a stretch of work.
  ghost predicate Lives(co: Coordinator, d: Net, e: Net) {
    && d.transcript <= e.transcript
    && (Numbering(co) && SelfNamed(d.nodes) ==> Numbered(d, e))
    && (EndsForGood(co) ==> StaysTerminal(co, d, e))
  }

  // One clock value: `packets` are resolved in order and new ones are queued.
  ghost predicate Moves(co: Coordinator, d: Net, packets: seq<Packet>, e: Net) {
    && e.clock == d.clock && SameShape(d, e) && Lives(co, d, e)
    && (exists added :: Sends(d, e, added)) && Dates(d, e)
    && (exists news :: Resolves(co, d, e, packets, news))
    && (forall n: int :: Balances(d, n) ==> Balances(e, n + |e.queue| - |d.queue| - |packets|))
  }

  // Any stretch of a run: time passes, ends close, history grows, and whatever
  // was sent or delivered meanwhile could have been at the start.
  ghost predicate Later(co: Coordinator, d: Net, e: Net) {
    && d.clock <= e.clock && SameShape(d, e) && Lives(co, d, e)
    && d.sent <= e.sent && d.resolved <= e.resolved
    && (forall i :: |d.sent| <= i < |e.sent| ==> SenderOpen(d.links, e.sent[i]))
    && (forall i :: |d.resolved| <= i < |e.resolved| ==> Welcome(co, d, e.resolved[i]))
  }

  lemma WelcomeEarlier(co: Coordinator, d: Net, e: Net, r: Resolution)
    requires SameShape(d, e) && Lives(co, d, e) && Welcome(co, e, r)
    ensures Welcome(co, d, r)
  {
    if r.delivered {
      EndsOnlyClose(d, e, r.packet);
      var target := TargetOf(d.links, r.packet);
      if target.Some? {
        NodeIndexSame(d.nodes, e.nodes, target.value);
      }
    }
  }

  lemma LivesCompose(co: Coordinator, a: Net, b: Net, c: Net)
    requires SameNodes(a.nodes, b.nodes) && Lives(co, a, b) && Lives(co, b, c)
    ensures Lives(co, a, c)
  {
    hide Wrote, SelfNamed;
    if Numbering(co) && SelfNamed(a.nodes) {
      NumberedCompose(a, b, c);
    }
  }

  lemma LivesSame(co: Coordinator, d: Net, e: Net)
    requires e.transcript == d.transcript && e.nodes == d.nodes
    ensures Lives(co, d, e)
  {
    if SelfNamed(d.nodes) {
      NumberedSame(d, e);
    }
  }

  lemma SendsCompose(a: Net, b: Net, c: Net)
    requires a.clock == b.clock && SameShape(a, b)
    requires (exists added :: Sends(a, b, added)) && (exists added :: Sends(b, c, added))
    ensures exists added :: Sends(a, c, added)
  {
    var first :| Sends(a, b, first);
    var second :| Sends(b, c, second);
    var added := first + second;
    forall i | 0 <= i < |added| ensures Stamped(a, added[i]) {
      if i >= |first| {
        assert Stamped(b, second[i - |first|]);
        EndsOnlyClose(a, b, added[i]);
      }
    }
    assert Sends(a, c, added);
  }

  lemma DatesCompose(a: Net, b: Net, c: Net)
    requires a.clock == b.clock && Dates(a, b) && Dates(b, c)
    ensures Dates(a, c)
  {
    forall i | |a.sentAt| <= i < |c.sentAt| ensures c.sentAt[i] == a.clock {
      if i < |b.sentAt| {
        assert c.sentAt[i] == b.sentAt[i];
      }
    }
  }

  lemma ResolvesCompose(co: Coordinator, a: Net, b: Net, c: Net, ps: seq<Packet>, qs: seq<Packet>)
    requires a.clock == b.clock && SameShape(a, b) && Lives(co, a, b)
    requires (exists news :: Resolves(co, a, b, ps, news)) && (exists news :: Resolves(co, b, c, qs, news))
    ensures exists news :: Resolves(co, a, c, ps + qs, news)
  {
    hide Lives, SameShape, Welcome;
    var first :| Resolves(co, a, b, ps, first);
    var second :| Resolves(co, b, c, qs, second);
    var news: seq<Resolution> := first + second;
    forall i | 0 <= i < |news|
      ensures news[i].packet == (ps + qs)[i] && news[i].at == a.clock && Welcome(co, a, news[i])
    {
      if i >= |first| {
        assert Welcome(co, b, second[i - |first|]);
        WelcomeEarlier(co, a, b, news[i]);
      }
    }
    assert Resolves(co, a, c, ps + qs, news);
  }

  lemma MovesCompose(co: Coordinator, a: Net, ps: seq<Packet>, b: Net, qs: seq<Packet>, c: Net)
    requires Moves(co, a, ps, b) && Moves(co, b, qs, c)
    ensures Moves(co, a, ps + qs, c)
  {
    hide Lives, Sends, Dates, Resolves, Balances;
    LivesCompose(co, a, b, c);
    DatesCompose(a, b, c);
    SendsCompose(a, b, c);
    ResolvesCompose(co, a, b, c, ps, qs);
    forall n: int | Balances(a, n) ensures Balances(c, n + |c.queue| - |a.queue| - |ps + qs|) {
      var m := n + |b.queue| - |a.queue| - |ps|;
      assert Balances(b, m) && Balances(c, m + |c.queue| - |b.queue| - |qs|);
    }
  }

  lemma LaterCompose(co: Coordinator, a: Net, b: Net, c: Net)
    requires Later(co, a, b) && Later(co, b, c)
    ensures Later(co, a, c)
  {
    hide Lives, Welcome, SenderOpen;
    LivesCompose(co, a, b, c);
    forall i | |a.sent| <= i < |c.sent| ensures SenderOpen(a.links, c.sent[i]) {
      if i < |b.sent| {
        assert b.sent[i] == c.sent[i];
      } else {
        EndsOnlyClose(a, b, c.sent[i]);
      }
    }
    forall i | |a.resolved| <= i < |c.resolved| ensures Welcome(co, a, c.resolved[i]) {
      if i < |b.resolved| {
        assert b.resolved[i] == c.resolved[i];
      } else {
        WelcomeEarlier(co, a, b, c.resolved[i]);
      }
    }
  }

  lemma MovesIsLater(co: Coordinator, d: Net, packets: seq<Packet>, e: Net)
    requires Moves(co, d, packets, e)
    ensures Later(co, d, e)
  {
    hide Lives, Welcome, SameShape, SenderOpen;
    var added :| Sends(d, e, added);
    forall i | |d.sent| <= i < |e.sent| ensures SenderOpen(d.links, e.sent[i]) {
      assert Stamped(d, added[i - |d.sent|]);
    }
    var news :| Resolves(co, d, e, packets, news);
    forall i | |d.resolved| <= i < |e.resolved| ensures Welcome(co, d, e.resolved[i]) {
      assert e.resolved[i] == news[i - |d.resolved|];
    }
  }
}
