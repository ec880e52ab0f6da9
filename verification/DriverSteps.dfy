// coordinator_driver.rs as functions on one value: nodes, half-closable links, a
// queue on a fake clock, and what has become of every packet so far. The
// coordinators themselves are arbitrary functions.
module DriverSteps {
  import opened Results

  const MAX_PUMP_ROUNDS := 64

  type PeerId = string
  type LinkId = string
  type Wire = string

  // The parts of a coordinator and of a control message nothing here reads.
  type Body(!new, ==)
  type Payload(!new, ==)

  const HOST_PEER_ID: PeerId := "host"

  function LinkIdOf(guest: PeerId): LinkId {
    "link." + guest
  }

  datatype Role = HostRole | GuestRole

  datatype ControlMessage = ControlMessage(sender: PeerId, sequence: int, payload: Payload)

  datatype CoordinatorState = CoordinatorState(peerId: PeerId, sequence: int, body: Body)

  datatype Event =
    | Connect
    | Tick
    | LinkLost(linkId: LinkId, code: Option<string>)
    | Local(description: string)

  datatype Action =
    | Send(targets: seq<LinkId>, message: ControlMessage)
    | Close(linkId: LinkId)
    | StartMatch(firstInputTick: int)
    | Terminate(reason: string)

  // The coordinator and the wire format, as functions.
  datatype Coordinator = Coordinator(
    step: (CoordinatorState, Event) -> (CoordinatorState, seq<Action>),
    receive: (CoordinatorState, LinkId, Wire) -> (CoordinatorState, seq<Action>),
    isTerminal: CoordinatorState -> bool,
    encode: ControlMessage -> Wire)

  datatype Node = Node(
    peerId: PeerId,
    role: Role,
    state: CoordinatorState,
    started: bool,
    firstInputTick: Option<int>,
    terminal: Option<string>)

  datatype Link = Link(id: LinkId, guestPeerId: PeerId, hostOpen: bool, guestOpen: bool)

  datatype Packet = Packet(linkId: LinkId, toHost: bool, wire: Wire, deliverAt: int)

  // What became of a packet, and when.
  datatype Resolution = Resolution(packet: Packet, at: int, delivered: bool)

  datatype Net = Net(
    clock: int,
    latencyTicks: int,
    nodes: seq<Node>,
    links: seq<Link>,
    queue: seq<Packet>,
    transcript: seq<ControlMessage>,
    delivered: int,
    dropped: int,
    // History: packets the coordinators sent and when, packets taken off the
    // queue again, and how many sends and replays there were.
    sent: seq<Packet>,
    sentAt: seq<int>,
    resolved: seq<Resolution>,
    offered: int)

  function NewNode(peerId: PeerId, role: Role, state: CoordinatorState): Node {
    Node(peerId, role, state, false, None, None)
  }

  // A host and its guests, each guest on a link of its own with both ends open.
  function NewNet(latencyTicks: int, host: CoordinatorState, guests: seq<CoordinatorState>): Net {
    Net(0, latencyTicks,
        [NewNode(HOST_PEER_ID, HostRole, host)]
        + seq(|guests|, i requires 0 <= i < |guests| => NewNode(guests[i].peerId, GuestRole, guests[i])),
        seq(|guests|, i requires 0 <= i < |guests| => Link(LinkIdOf(guests[i].peerId), guests[i].peerId, true, true)),
        [], [], 0, 0, [], [], [], 0)
  }

  function LinkIndex(links: seq<Link>, id: LinkId): (r: Option<nat>)
    ensures r.Some? ==> r.value < |links| && links[r.value].id == id
  {
    if links == [] then None
    else if links[0].id == id then Some(0)
    else match LinkIndex(links[1..], id) case None => None case Some(i) => Some(i + 1)
  }

  function NodeIndex(nodes: seq<Node>, id: PeerId): (r: Option<nat>)
    ensures r.Some? ==> r.value < |nodes| && nodes[r.value].peerId == id
  {
    if nodes == [] then None
    else if nodes[0].peerId == id then Some(0)
    else match NodeIndex(nodes[1..], id) case None => None case Some(i) => Some(i + 1)
  }

  function Enqueue(co: Coordinator, d: Net, n: nat, linkId: LinkId, message: ControlMessage): Net
    requires n < |d.nodes|
  {
    var toHost := d.nodes[n].role == GuestRole;
    var offered := d.(offered := d.offered + 1);
    var index := LinkIndex(d.links, linkId);
    if index.None? then offered.(dropped := d.dropped + 1)
    else if !(if toHost then d.links[index.value].guestOpen else d.links[index.value].hostOpen) then
      offered.(dropped := d.dropped + 1)
    else
      var packet := Packet(linkId, toHost, co.encode(message), d.clock + d.latencyTicks);
      offered.(queue := d.queue + [packet], sent := d.sent + [packet], sentAt := d.sentAt + [d.clock])
  }

  // One emitted message fans out to its targets in order.
  function FanOut(co: Coordinator, d: Net, n: nat, targets: seq<LinkId>, message: ControlMessage): (r: Net)
    requires n < |d.nodes|
    ensures |r.nodes| == |d.nodes|
    decreases targets
  {
    if targets == [] then d
    else FanOut(co, Enqueue(co, d, n, targets[0], message), n, targets[1..], message)
  }

  function ApplyOne(co: Coordinator, d: Net, n: nat, action: Action): (r: Net)
    requires n < |d.nodes|
    ensures |r.nodes| == |d.nodes|
  {
    match action
    case Send(targets, message) =>
      FanOut(co, d.(transcript := d.transcript + [message]), n, targets, message)
    case Close(linkId) =>
      (match LinkIndex(d.links, linkId)
       case None => d
       case Some(i) =>
         var link := d.links[i];
         d.(links := d.links[i := if d.nodes[n].role == HostRole then link.(hostOpen := false)
                                  else link.(guestOpen := false)]))
    case StartMatch(tick) =>
      d.(nodes := d.nodes[n := d.nodes[n].(started := true, firstInputTick := Some(tick))])
    case Terminate(reason) =>
      d.(nodes := d.nodes[n := d.nodes[n].(terminal := Some(reason))])
  }

  function Apply(co: Coordinator, d: Net, n: nat, actions: seq<Action>): (r: Net)
    requires n < |d.nodes|
    ensures |r.nodes| == |d.nodes|
    decreases actions
  {
    if actions == [] then d else Apply(co, ApplyOne(co, d, n, actions[0]), n, actions[1..])
  }

  // A coordinator's new state and the actions that come with it.
  function React(co: Coordinator, d: Net, n: nat, outcome: (CoordinatorState, seq<Action>)): (r: Net)
    requires n < |d.nodes|
    ensures |r.nodes| == |d.nodes|
  {
    Apply(co, d.(nodes := d.nodes[n := d.nodes[n].(state := outcome.0)]), n, outcome.1)
  }

  // None where the driver panics.
  function SendEvent(co: Coordinator, d: Net, peer: PeerId, event: Event): (r: Option<Net>)
    ensures r.Some? ==> |r.value.nodes| == |d.nodes|
  {
    match NodeIndex(d.nodes, peer)
    case None => None
    case Some(n) => Some(React(co, d, n, co.step(d.nodes[n].state, event)))
  }

  function TargetOf(links: seq<Link>, packet: Packet): Option<PeerId> {
    match LinkIndex(links, packet.linkId)
    case None => None
    case Some(i) => Some(if packet.toHost then HOST_PEER_ID else links[i].guestPeerId)
  }

  predicate ReceiverOpen(links: seq<Link>, packet: Packet) {
    match LinkIndex(links, packet.linkId)
    case None => false
    case Some(i) => if packet.toHost then links[i].hostOpen else links[i].guestOpen
  }

  function Deliver(co: Coordinator, d: Net, packet: Packet): Option<Net> {
    var target := TargetOf(d.links, packet);
    if target.None? then None else
    var node := NodeIndex(d.nodes, target.value);
    if node.None? then None else
    var n := node.value;
    if ReceiverOpen(d.links, packet) && !co.isTerminal(d.nodes[n].state) then
      var counted := d.(delivered := d.delivered + 1, resolved := d.resolved + [Resolution(packet, d.clock, true)]);
      Some(React(co, counted, n, co.receive(d.nodes[n].state, packet.linkId, packet.wire)))
    else
      Some(d.(dropped := d.dropped + 1, resolved := d.resolved + [Resolution(packet, d.clock, false)]))
  }

  function DeliverAll(co: Coordinator, d: Net, packets: seq<Packet>): Option<Net>
    decreases packets
  {
    if packets == [] then Some(d)
    else match Deliver(co, d, packets[0])
      case None => None
      case Some(next) => DeliverAll(co, next, packets[1..])
  }

  // The packets that are, or are not yet, deliverable.
  function Due(queue: seq<Packet>, clock: int, due: bool): seq<Packet> {
    if queue == [] then []
    else
      var rest := Due(queue[..|queue| - 1], clock, due);
      var last := queue[|queue| - 1];
      if (last.deliverAt <= clock) == due then rest + [last] else rest
  }

  // None when the rounds run out.
  function Pump(co: Coordinator, d: Net, rounds: nat): Option<Net>
    decreases rounds
  {
    if rounds == 0 then None else
    var due := Due(d.queue, d.clock, true);
    var taken := d.(queue := Due(d.queue, d.clock, false));
    if due == [] then Some(taken)
    else match DeliverAll(co, taken, due)
      case None => None
      case Some(next) => Pump(co, next, rounds - 1)
  }

  function TickNodes(co: Coordinator, d: Net, from: nat): Net
    requires from <= |d.nodes|
    decreases |d.nodes| - from
  {
    if from == |d.nodes| then d
    else TickNodes(co, React(co, d, from, co.step(d.nodes[from].state, Tick)), from + 1)
  }

  function TickOnce(co: Coordinator, d: Net): Option<Net> {
    match Pump(co, d.(clock := d.clock + 1), MAX_PUMP_ROUNDS)
    case None => None
    case Some(before) => Pump(co, TickNodes(co, before, 0), MAX_PUMP_ROUNDS)
  }

  function TickMany(co: Coordinator, d: Net, count: int): Option<Net>
    decreases count
  {
    if count <= 0 then Some(d)
    else match TickOnce(co, d)
      case None => None
      case Some(next) => TickMany(co, next, count - 1)
  }

  function ConnectFrom(co: Coordinator, d: Net, from: nat): Option<Net>
    decreases |d.nodes| - from
  {
    if from >= |d.nodes| then Some(d)
    else match SendEvent(co, d, d.nodes[from].peerId, Connect)
      case None => None
      case Some(next) => ConnectFrom(co, next, from + 1)
  }

  function Inject(co: Coordinator, d: Net, fromPeer: PeerId, toPeer: PeerId, payload: Payload): Option<Net> {
    match NodeIndex(d.nodes, fromPeer)
    case None => None
    case Some(n) =>
      var node := d.nodes[n];
      var guest := if node.role == HostRole then toPeer else fromPeer;
      var message := ControlMessage(fromPeer, node.state.sequence, payload);
      var counted := node.(state := node.state.(sequence := node.state.sequence + 1));
      Pump(co, Apply(co, d.(nodes := d.nodes[n := counted]), n, [Send([LinkIdOf(guest)], message)]), MAX_PUMP_ROUNDS)
  }

  function Replay(co: Coordinator, d: Net, fromPeer: PeerId, toPeer: PeerId, wire: Wire): Option<Net> {
    match NodeIndex(d.nodes, fromPeer)
    case None => None
    case Some(n) =>
      var role := d.nodes[n].role;
      var guest := if role == HostRole then toPeer else fromPeer;
      var packet := Packet(LinkIdOf(guest), role == GuestRole, wire, d.clock);
      Pump(co, d.(queue := d.queue + [packet], offered := d.offered + 1), MAX_PUMP_ROUNDS)
  }

  function CloseBoth(d: Net, i: nat): Net
    requires i < |d.links|
  {
    d.(links := d.links[i := d.links[i].(hostOpen := false, guestOpen := false)])
  }

  function LoseLink(co: Coordinator, d: Net, peer: PeerId, event: Event): Option<Net> {
    match NodeIndex(d.nodes, peer)
    case None => Some(d)
    case Some(n) => if co.isTerminal(d.nodes[n].state) then Some(d) else SendEvent(co, d, peer, event)
  }

  function DropLink(co: Coordinator, d: Net, guest: PeerId, code: Option<string>): Option<Net> {
    match LinkIndex(d.links, LinkIdOf(guest))
    case None => None
    case Some(i) =>
      var event := LinkLost(LinkIdOf(guest), code);
      match LoseLink(co, CloseBoth(d, i), guest, event)
      case None => None
      case Some(d1) =>
        if |d1.nodes| == 0 then None
        else match LoseLink(co, d1, d1.nodes[0].peerId, event)
          case None => None
          case Some(d2) => Pump(co, d2, MAX_PUMP_ROUNDS)
  }

  datatype Op =
    | SendOp(peer: PeerId, event: Event)
    | PumpOp
    | TickOp(count: int)
    | ConnectAllOp
    | InjectOp(fromPeer: PeerId, toPeer: PeerId, payload: Payload)
    | ReplayOp(fromPeer: PeerId, toPeer: PeerId, wire: Wire)
    | DropLinkOp(guest: PeerId, code: Option<string>)

  function Perform(co: Coordinator, d: Net, op: Op): Option<Net> {
    match op
    case SendOp(peer, event) => SendEvent(co, d, peer, event)
    case PumpOp => Pump(co, d, MAX_PUMP_ROUNDS)
    case TickOp(count) => TickMany(co, d, count)
    case ConnectAllOp =>
      (match ConnectFrom(co, d, 1) case None => None case Some(next) => Pump(co, next, MAX_PUMP_ROUNDS))
    case InjectOp(fromPeer, toPeer, payload) => Inject(co, d, fromPeer, toPeer, payload)
    case ReplayOp(fromPeer, toPeer, wire) => Replay(co, d, fromPeer, toPeer, wire)
    case DropLinkOp(guest, code) => DropLink(co, d, guest, code)
  }

  function Run(co: Coordinator, d: Net, ops: seq<Op>): Option<Net>
    decreases ops
  {
    if ops == [] then Some(d)
    else match Perform(co, d, ops[0])
      case None => None
      case Some(next) => Run(co, next, ops[1..])
  }
}
