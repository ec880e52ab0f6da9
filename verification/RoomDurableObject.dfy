// RoomDurableObject: the object whose methods the platform calls, one at a
// time. Each method is one step of RoomSteps on the object's own fields.
module RoomDurableObject {
  import opened Results
  import opened RoomState
  import opened RateLimiter
  import opened RoomSteps
  import RoomInvariant
  import RoomProperties

  class RoomObject {
    const code: string
    // The one stored row, the one alarm slot, and the accepted sockets.
    var row: Option<Row>
    var alarm: Option<int>
    var sockets: seq<Socket>
    var closing: set<Socket>
    var outbox: seq<Sent>
    // History, for specification only.
    ghost var issued: set<ConnectionId>
    ghost var accepted: set<Socket>
    ghost var attempts: seq<int>
    ghost var passed: seq<int>
    ghost var nowMs: int

    ghost function Abs(): World
      reads this
    {
      World(code, row, alarm, sockets, closing, outbox, issued, accepted, attempts, passed, nowMs)
    }

    constructor (code: string, ghost startMs: int)
      ensures Abs() == Start(code, startMs)
    {
      this.code := code;
      row := None;
      alarm := None;
      sockets := [];
      closing := {};
      outbox := [];
      issued := {};
      accepted := {};
      attempts := [];
      passed := [];
      nowMs := startMs;
    }

    method LoadStored(now: int) returns (state: Room)
      ensures state == LoadState(Abs(), now)
    {
      if row.None? {
        return NewRoom(code, now);
      }
      return row.value.state;
    }

    method LoadWindow() returns (window: Option<FixedWindowState>)
      ensures window == LoadJoinWindow(Abs())
    {
      if row.None? {
        return None;
      }
      return row.value.joinWindow;
    }

    method Save(state: Room, window: Option<FixedWindowState>)
      modifies this`row
      ensures Abs() == SaveState(old(Abs()), state, window)
    {
      if row.Some? && window.None? {
        row := Some(Row(state, row.value.joinWindow));
      } else {
        row := Some(Row(state, window));
      }
    }

    method SendToRole(role: Role, frame: Frame)
      modifies this`outbox
      ensures Abs() == old(Abs()).(outbox := old(outbox) + ToRole(sockets, role, frame))
    {
      assert sockets[..0] == [];
      for i := 0 to |sockets|
        invariant outbox == old(outbox) + ToRole(sockets[..i], role, frame)
      {
        assert sockets[..i + 1][..i] == sockets[..i];
        if sockets[i].role == role {
          outbox := outbox + [Sent(sockets[i], frame)];
        }
      }
      assert sockets[..|sockets|] == sockets;
    }

    method SendToHost(frame: Frame)
      modifies this`outbox
      ensures Abs() == old(Abs()).(outbox := old(outbox) + ToRole(sockets, HostRole, frame))
    {
      SendToRole(HostRole, frame);
    }

    method SendToGuests(frame: Frame)
      modifies this`outbox
      ensures Abs() == old(Abs()).(outbox := old(outbox) + ToRole(sockets, GuestRole, frame))
    {
      SendToRole(GuestRole, frame);
    }

    // Exactly when a host's own attempt would meet a claimed room.
    method IsClaimedByHost(now: int) returns (claimed: bool)
      ensures claimed == Probe(Abs(), now)
      ensures forall id :: claimed <==> ClaimHost(LoadState(Abs(), now), id, now) == Err(HostAlreadyClaimed)
    {
      forall id
        ensures Probe(Abs(), now) <==> ClaimHost(LoadState(Abs(), now), id, now) == Err(HostAlreadyClaimed)
      {
        RoomProperties.ProbeAgreesWithClaim(Abs(), id, now);
      }
      var state := LoadStored(now);
      claimed := IsRoomClaimedByHost(state, now);
    }

    method Fetch(upgrade: bool, role: Option<Role>, id: ConnectionId, now: int) returns (response: Response)
      modifies this
      ensures (Abs(), response) == RoomSteps.Fetch(old(Abs()), upgrade, role, id, now)
    {
      hide TryConsume, ClaimHost, JoinGuest, NextAlarmMs, ToRole, CloseCode;
      nowMs := now;
      if !upgrade {
        return Rejected(426);
      }
      if role.None? {
        return Rejected(400);
      }
      attempts := attempts + [now];
      var state := LoadStored(now);
      var window := LoadWindow();
      var windowResult := TryConsume(window, now, JOIN_RATE_LIMIT);
      if windowResult.Err? {
        return Rejected(429);
      }
      passed := passed + [now];
      issued := issued + {id};
      var claimResult := if role.value == HostRole then ClaimHost(state, id, now) else JoinGuest(state, id, now);
      if claimResult.Err? {
        Save(state, Some(windowResult.value));
        alarm := Some(NextAlarmMs(state));
        return RejectedInBand(claimResult.error, CloseCode(claimResult.error));
      }
      Accept(Socket(id, role.value), claimResult.value, windowResult.value);
      return Accepted;
    }

    // The end of a successful fetch: accept, persist, re-arm, announce.
    method Accept(socket: Socket, nextState: Room, window: FixedWindowState)
      modifies this
      ensures Abs() == Admit(old(Abs()), socket, nextState, window)
    {
      hide NextAlarmMs, ToRole;
      sockets := sockets + [socket];
      accepted := accepted + {socket};
      Save(nextState, Some(window));
      alarm := Some(NextAlarmMs(nextState));
      outbox := outbox
        + [Sent(socket, if socket.role == HostRole then Created(nextState.code) else Joined(nextState.code))];
      if socket.role == GuestRole {
        SendToHost(GuestJoined(socket.id));
      } else {
        assert outbox + [] == outbox;
      }
    }

    // A socket without a recognisable attachment is closed and nothing else is
    // done; the code it is closed with is returned.
    method WebSocketMessage(attachment: Option<Socket>, message: Incoming, now: int) returns (closeCode: Option<int>)
      modifies this
      ensures attachment.None? ==> closeCode == Some(1011) && Abs() == old(Abs())
      ensures attachment.Some? ==> closeCode == None && Abs() == Message(old(Abs()), attachment.value, message, now)
    {
      if attachment.None? {
        return Some(1011);
      }
      closeCode := None;
      var socket := attachment.value;
      nowMs := now;
      if message.Binary? {
        outbox := outbox + [Sent(socket, ErrorFrame(BinaryNotSupported))];
        return;
      }
      var toId: Option<ConnectionId> := None;
      var outgoing := SignalFromGuest(socket.id, message.text);
      if socket.role == HostRole {
        match message.parsed
        case NotJson =>
          outbox := outbox + [Sent(socket, ErrorFrame(InvalidEnvelope))];
          return;
        case JsonNull =>
          return;
        case NoTarget =>
          outbox := outbox + [Sent(socket, ErrorFrame(MissingTarget))];
          return;
        case Addressed(to, body) =>
          toId := Some(to);
          outgoing := SignalFromHost(body);
      }
      var state := LoadStored(now);
      var routeResult := RouteSignal(state, RelayEnvelope(socket.id, toId, message.byteLength));
      if routeResult.Err? {
        outbox := outbox + [Sent(socket, ErrorFrame(routeResult.error))];
        return;
      }
      var touched := Touch(state, now);
      Save(touched, None);
      alarm := Some(NextAlarmMs(touched));
      Forward(routeResult.value, outgoing);
    }

    // The relay loop over the accepted sockets.
    method Forward(recipients: seq<ConnectionId>, frame: Frame)
      modifies this`outbox
      ensures Abs() == old(Abs()).(outbox := old(outbox) + ToIds(sockets, recipients, frame))
    {
      assert sockets[..0] == [];
      for i := 0 to |sockets|
        invariant outbox == old(outbox) + ToIds(sockets[..i], recipients, frame)
      {
        assert sockets[..i + 1][..i] == sockets[..i];
        if sockets[i].id in recipients {
          outbox := outbox + [Sent(sockets[i], frame)];
        }
      }
      assert sockets[..|sockets|] == sockets;
    }

    // The platform's part of a disconnect: the socket is no longer accepted.
    method Drop(socket: Socket)
      modifies this`sockets
      ensures Abs() == old(Abs()).(sockets := Dropped(old(sockets), socket))
    {
      sockets := Dropped(sockets, socket);
    }

    // Both webSocketClose and webSocketError.
    method Disconnect(attachment: Option<Socket>, now: int)
      modifies this
      ensures attachment.None? ==> Abs() == old(Abs())
      ensures attachment.Some? ==> Abs() == RoomSteps.Disconnect(old(Abs()), attachment.value, now)
    {
      if attachment.None? {
        return;
      }
      var socket := attachment.value;
      nowMs := now;
      Drop(socket);
      var state := LoadStored(now);
      var nextState := RemoveConnection(state, socket.id);
      Save(nextState, None);
      if nextState.phase == Closed {
        if HostDeparted(state, nextState) {
          SendToGuests(HostLeft);
        }
        alarm := Some(now + CLOSE_GRACE_MS);
      } else if socket.role == GuestRole {
        SendToHost(GuestLeft(socket.id));
      }
    }

    method AlarmFires(now: int)
      modifies this
      ensures Abs() == Alarm(old(Abs()), now)
    {
      nowMs := now;
      alarm := None;
      var state := LoadStored(now);
      if state.phase != Closed {
        Save(CloseRoom(state), None);
      }
      CloseAll();
    }

    method CloseAll()
      modifies this`closing
      ensures Abs() == old(Abs()).(closing := old(closing) + set s | s in sockets)
    {
      for i := 0 to |sockets|
        invariant closing == old(closing) + set s | s in sockets[..i]
      {
        closing := closing + {sockets[i]};
      }
    }

    // Whatever the platform may call next keeps the invariant of every run.
    method Handle(e: Event)
      requires RoomInvariant.Inv(Abs()) && Enabled(Abs(), e)
      modifies this
      ensures Abs() == Step(old(Abs()), e)
      ensures RoomInvariant.Inv(Abs())
    {
      RoomInvariant.StepKeeps(Abs(), e);
      hide RoomInvariant.Inv;
      match e
      case FetchEvent(upgrade, role, id, now) =>
        var _ := Fetch(upgrade, role, id, now);
      case MessageEvent(socket, message, now) =>
        var _ := WebSocketMessage(Some(socket), message, now);
      case DisconnectEvent(socket, now) =>
        Disconnect(Some(socket), now);
      case AlarmEvent(now) =>
        AlarmFires(now);
      case ProbeEvent(now) =>
        nowMs := now;
        var _ := IsClaimedByHost(now);
    }
  }
}
