// room_durable_object.ts as atomic steps on one value: the persisted row, the
// alarm slot, the accepted sockets, and the history the run-level claims are
// about. RoomDurableObject's methods are proved to be these steps.
module RoomSteps {
  import opened Results
  import opened RoomState
  import opened RateLimiter

  const JOIN_RATE_LIMIT := FixedWindowLimit(20, 60000)
  const CLOSE_GRACE_MS := 5000

  datatype Role = HostRole | GuestRole

  // What travels with an accepted socket across hibernation.
  datatype Socket = Socket(id: ConnectionId, role: Role)

  datatype Frame =
    | Created(code: string)
    | Joined(code: string)
    | GuestJoined(guestId: ConnectionId)
    | GuestLeft(guestId: ConnectionId)
    | HostLeft
    | SignalFromHost(body: string)
    | SignalFromGuest(fromId: ConnectionId, body: string)
    | ErrorFrame(reason: Reason)

  datatype Sent = Sent(to: Socket, frame: Frame)

  // What JSON parsing makes of a host's text.
  datatype Envelope =
    | NotJson
    | JsonNull
    | NoTarget
    | Addressed(to: ConnectionId, body: string)

  datatype Incoming =
    | Binary
    | Text(text: string, byteLength: nat, parsed: Envelope)

  datatype Response =
    | Rejected(status: int)
    | Accepted
    | RejectedInBand(reason: Reason, closeCode: int)

  datatype Row = Row(state: Room, joinWindow: Option<FixedWindowState>)

  datatype World = World(
    code: string,
    row: Option<Row>,
    alarm: Option<int>,
    sockets: seq<Socket>,
    // Sockets this object has told to close.
    closing: set<Socket>,
    outbox: seq<Sent>,
    // History: ids handed out, sockets ever accepted, join attempts that
    // reached the limiter and those it admitted, and the latest time.
    issued: set<ConnectionId>,
    accepted: set<Socket>,
    attempts: seq<int>,
    passed: seq<int>,
    nowMs: int)

  function Start(code: string, nowMs: int): World {
    World(code, None, None, [], {}, [], {}, {}, [], [], nowMs)
  }

  function LoadState(w: World, nowMs: int): Room {
    if w.row.None? then NewRoom(w.code, nowMs) else w.row.value.state
  }

  function LoadJoinWindow(w: World): Option<FixedWindowState> {
    if w.row.None? then None else w.row.value.joinWindow
  }

  // An omitted join window leaves the stored one in place.
  function SaveState(w: World, state: Room, joinWindow: Option<FixedWindowState>): World {
    w.(row := Some(Row(state, if joinWindow.Some? then joinWindow else LoadJoinWindow(w))))
  }

  function CloseCode(reason: Reason): int {
    match reason
    case RoomNotFound => 4404
    case RoomFull => 4408
    case RoomExpired => 4409
    case RoomClosed => 4410
    case HostAlreadyClaimed => 4411
    case AlreadyJoined => 4412
    case _ => 4400
  }

  // One frame for every accepted socket of a role, in acceptance order.
  function ToRole(sockets: seq<Socket>, role: Role, frame: Frame): seq<Sent> {
    if sockets == [] then []
    else
      var rest := ToRole(sockets[..|sockets| - 1], role, frame);
      var last := sockets[|sockets| - 1];
      if last.role == role then rest + [Sent(last, frame)] else rest
  }

  // One frame for every accepted socket whose id is among the recipients.
  function ToIds(sockets: seq<Socket>, ids: seq<ConnectionId>, frame: Frame): seq<Sent> {
    if sockets == [] then []
    else
      var rest := ToIds(sockets[..|sockets| - 1], ids, frame);
      var last := sockets[|sockets| - 1];
      if last.id in ids then rest + [Sent(last, frame)] else rest
  }

  function Dropped(sockets: seq<Socket>, socket: Socket): seq<Socket> {
    if sockets == [] then []
    else if sockets[0] == socket then Dropped(sockets[1..], socket)
    else [sockets[0]] + Dropped(sockets[1..], socket)
  }

  // ---- The steps ----

  function Fetch(w: World, upgrade: bool, role: Option<Role>, id: ConnectionId, nowMs: int): (World, Response) {
    if !upgrade then (w.(nowMs := nowMs), Rejected(426))
    else if role.None? then (w.(nowMs := nowMs), Rejected(400))
    else
      var seen := w.(nowMs := nowMs, attempts := w.attempts + [nowMs]);
      var state := LoadState(w, nowMs);
      match TryConsume(LoadJoinWindow(w), nowMs, JOIN_RATE_LIMIT)
      case Err(_) => (seen, Rejected(429))
      case Ok(window) =>
        var passing := seen.(passed := w.passed + [nowMs], issued := w.issued + {id});
        var claim := if role.value == HostRole then ClaimHost(state, id, nowMs) else JoinGuest(state, id, nowMs);
        match claim
        case Err(reason) =>
          (SaveState(passing, state, Some(window)).(alarm := Some(NextAlarmMs(state))),
           RejectedInBand(reason, CloseCode(reason)))
        case Ok(next) =>
          (Admit(passing, Socket(id, role.value), next, window), Accepted)
  }

  function Admit(w: World, socket: Socket, next: Room, window: FixedWindowState): World {
    var welcome := if socket.role == HostRole then Created(next.code) else Joined(next.code);
    var sockets := w.sockets + [socket];
    var announcement := if socket.role == GuestRole then ToRole(sockets, HostRole, GuestJoined(socket.id)) else [];
    SaveState(w, next, Some(window)).(
      sockets := sockets,
      accepted := w.accepted + {socket},
      alarm := Some(NextAlarmMs(next)),
      outbox := w.outbox + [Sent(socket, welcome)] + announcement)
  }

  function Reply(w: World, socket: Socket, reason: Reason): World {
    w.(outbox := w.outbox + [Sent(socket, ErrorFrame(reason))])
  }

  function Message(w: World, socket: Socket, message: Incoming, nowMs: int): World {
    var w := w.(nowMs := nowMs);
    match message
    case Binary => Reply(w, socket, BinaryNotSupported)
    case Text(text, byteLength, parsed) =>
      if socket.role == HostRole then
        match parsed
        case NotJson => Reply(w, socket, InvalidEnvelope)
        // Reading a property of null throws before anything is done.
        case JsonNull => w
        case NoTarget => Reply(w, socket, MissingTarget)
        case Addressed(to, body) => Relay(w, socket, Some(to), byteLength, SignalFromHost(body))
      else
        Relay(w, socket, None, byteLength, SignalFromGuest(socket.id, text))
  }

  function Relay(w: World, socket: Socket, toId: Option<ConnectionId>, byteLength: nat, frame: Frame): World {
    var state := LoadState(w, w.nowMs);
    match RouteSignal(state, RelayEnvelope(socket.id, toId, byteLength))
    case Err(reason) => Reply(w, socket, reason)
    case Ok(recipients) =>
      var touched := Touch(state, w.nowMs);
      SaveState(w, touched, None).(
        alarm := Some(NextAlarmMs(touched)),
        outbox := w.outbox + ToIds(w.sockets, recipients, frame))
  }

  // The platform drops a socket from the accepted ones before it reports the
  // close or the error; either report ends up here.
  function Disconnect(w: World, socket: Socket, nowMs: int): World {
    var w := w.(nowMs := nowMs, sockets := Dropped(w.sockets, socket));
    var state := LoadState(w, nowMs);
    var next := RemoveConnection(state, socket.id);
    var saved := SaveState(w, next, None);
    if next.phase == Closed then
      saved.(
        alarm := Some(nowMs + CLOSE_GRACE_MS),
        outbox := w.outbox + if HostDeparted(state, next) then ToRole(w.sockets, GuestRole, HostLeft) else [])
    else if socket.role == GuestRole then
      saved.(outbox := w.outbox + ToRole(w.sockets, HostRole, GuestLeft(socket.id)))
    else
      saved
  }

  // A firing alarm empties the alarm slot.
  function Alarm(w: World, nowMs: int): World {
    var w := w.(nowMs := nowMs, alarm := None);
    var state := LoadState(w, nowMs);
    var saved := if state.phase != Closed then SaveState(w, CloseRoom(state), None) else w;
    saved.(closing := w.closing + set s | s in w.sockets)
  }

  function Probe(w: World, nowMs: int): bool {
    IsRoomClaimedByHost(LoadState(w, nowMs), nowMs)
  }

  // ---- Runs ----

  datatype Event =
    | FetchEvent(upgrade: bool, role: Option<Role>, id: ConnectionId, nowMs: int)
    | MessageEvent(socket: Socket, message: Incoming, nowMs: int)
    | DisconnectEvent(socket: Socket, nowMs: int)
    | AlarmEvent(nowMs: int)
    | ProbeEvent(nowMs: int)

  function Step(w: World, e: Event): World {
    match e
    case FetchEvent(upgrade, role, id, nowMs) => Fetch(w, upgrade, role, id, nowMs).0
    case MessageEvent(socket, message, nowMs) => Message(w, socket, message, nowMs)
    case DisconnectEvent(socket, nowMs) => Disconnect(w, socket, nowMs)
    case AlarmEvent(nowMs) => Alarm(w, nowMs)
    case ProbeEvent(nowMs) => w.(nowMs := nowMs)
  }

  // What the platform can deliver: time does not run backwards, new ids are
  // fresh, messages come from accepted sockets, disconnects from sockets that
  // were accepted at some time (and may be reported more than once), and an
  // alarm only when one is due.
  predicate Enabled(w: World, e: Event) {
    && w.nowMs <= e.nowMs
    && match e
       case FetchEvent(_, _, id, _) => id !in w.issued
       case MessageEvent(socket, _, _) => socket in w.sockets
       case DisconnectEvent(socket, _) => socket in w.accepted
       case AlarmEvent(nowMs) => w.alarm.Some? && w.alarm.value <= nowMs
       case ProbeEvent(_) => true
  }

  predicate AllEnabled(w: World, es: seq<Event>)
    decreases es
  {
    es == [] || (Enabled(w, es[0]) && AllEnabled(Step(w, es[0]), es[1..]))
  }

  function Run(w: World, es: seq<Event>): World
    decreases es
  {
    if es == [] then w else Run(Step(w, es[0]), es[1..])
  }
}
