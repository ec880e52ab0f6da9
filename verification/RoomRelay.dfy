// What becomes of a message: the one frame it causes, in the terms of the room's
// phase, the live sockets and numbers, and without the router.
module RoomRelay {
  import opened Results
  import opened RoomState
  import opened RoomSteps
  import opened RoomInvariant
  import opened RoomProperties

  lemma ToIdsOne(w: World, host: Socket, to: ConnectionId, frame: Frame)
    requires Inv(w) && Current(w).phase == Open && w.sockets == [host] + GuestSockets(Current(w).guestIds)
    requires host.role == HostRole && Current(w).hostId == Some(host.id)
    ensures to in Current(w).guestIds ==> ToIds(w.sockets, [to], frame) == [Sent(Socket(to, GuestRole), frame)]
    ensures to == host.id ==> ToIds(w.sockets, [to], frame) == [Sent(host, frame)]
  {
    var guests := Current(w).guestIds;
    assert Distinct(guests) && host.id !in guests;
    if to in guests {
      ToIdsGuest(host, guests, to, frame);
    }
    if to == host.id {
      ToIdsHost(host, guests, frame);
    }
  }

  // A guest that is present: a live socket.
  predicate Present(w: World, to: ConnectionId) {
    Socket(to, GuestRole) in w.sockets
  }

  lemma PresentAreGuests(w: World, host: Socket, to: ConnectionId)
    requires Inv(w) && Current(w).phase == Open && w.sockets == [host] + GuestSockets(Current(w).guestIds)
    requires host.role == HostRole
    ensures Present(w, to) <==> to in Current(w).guestIds
  {
    hide Inv;
    GuestSocketsMembers(Current(w).guestIds);
  }

  // One error comes back, and nothing else changes.
  ghost predicate Answered(w: World, after: World, socket: Socket, reason: Reason) {
    && after.outbox == w.outbox + [Sent(socket, ErrorFrame(reason))]
    && after.row == w.row && after.alarm == w.alarm && after.sockets == w.sockets
  }

  // One frame goes across, and the room was active: the alarm is ten minutes off,
  // but never later than two hours after the room was made.
  ghost predicate Relayed(w: World, after: World, sent: Sent, nowMs: int) {
    && after.outbox == w.outbox + [sent] && after.sockets == w.sockets
    && after.row == Some(Row(Current(w).(lastActivityMs := nowMs), LoadJoinWindow(w)))
    && after.alarm == Some(if nowMs + 600000 <= Current(w).createdAtMs + 7200000 then nowMs + 600000
                           else Current(w).createdAtMs + 7200000)
  }

  lemma RelayWrites(w: World, now: World, socket: Socket, toId: Option<ConnectionId>, byteLength: nat, frame: Frame,
                    sent: Sent)
    requires w.row.Some? && now == w.(nowMs := now.nowMs)
    requires var route := RouteSignal(Current(w), RelayEnvelope(socket.id, toId, byteLength));
             route.Ok? && ToIds(w.sockets, route.value, frame) == [sent]
    ensures Relayed(w, Relay(now, socket, toId, byteLength, frame), sent, now.nowMs)
  {
    hide RouteSignal, ToIds;
  }

  lemma RelayAnswers(w: World, now: World, socket: Socket, toId: Option<ConnectionId>, byteLength: nat, frame: Frame)
    requires w.row.Some? && now == w.(nowMs := now.nowMs)
    requires RouteSignal(Current(w), RelayEnvelope(socket.id, toId, byteLength)).Err?
    ensures Answered(w, Relay(now, socket, toId, byteLength, frame), socket,
                     RouteSignal(Current(w), RelayEnvelope(socket.id, toId, byteLength)).error)
  {
    hide RouteSignal, ToIds;
  }

  // Where a guest's text is routed, and that it reaches the host alone.
  lemma GuestRoute(w: World, socket: Socket, byteLength: nat, frame: Frame)
    requires Inv(w) && socket in w.sockets && socket.role == GuestRole
    ensures w.row.Some?
    ensures var route := RouteSignal(Current(w), RelayEnvelope(socket.id, None, byteLength));
            if Current(w).phase != Open then route == Err(RoomNotOpen)
            else if byteLength > 16384 then route == Err(MessageTooLarge)
            else
              && Current(w).hostId.Some? && route.Ok?
              && ToIds(w.sockets, route.value, frame) == [Sent(Socket(Current(w).hostId.value, HostRole), frame)]
  {
    SocketsNeedRow(w);
    if Current(w).phase == Open {
      var host := OpenRoom(w);
      var guests := Current(w).guestIds;
      GuestSocketsMembers(guests);
      ToIdsOne(w, host, host.id, frame);
      assert socket in GuestSockets(guests) && socket.id in guests;
      GuestIsNotHost(w, host, socket);
      hide Inv, ToIds, GuestSockets;
    }
  }

  // Where a host's addressed text is routed, and that it reaches that guest alone.
  lemma HostRoute(w: World, socket: Socket, to: ConnectionId, byteLength: nat, frame: Frame)
    requires Inv(w) && socket in w.sockets && socket.role == HostRole
    ensures w.row.Some?
    ensures var route := RouteSignal(Current(w), RelayEnvelope(socket.id, Some(to), byteLength));
            if Current(w).phase != Open then route == Err(RoomNotOpen)
            else if byteLength > 16384 then route == Err(MessageTooLarge)
            else if !Present(w, to) then route == Err(UnknownTarget)
            else route.Ok? && ToIds(w.sockets, route.value, frame) == [Sent(Socket(to, GuestRole), frame)]
  {
    SocketsNeedRow(w);
    if Current(w).phase == Open {
      var host := OpenRoom(w);
      assert socket == host by { OneHost(w, host, socket); }
      PresentAreGuests(w, host, to);
      ToIdsOne(w, host, to, frame);
    }
    hide Inv, ToIds, GuestSockets, Present;
  }

  // Binary frames and envelopes without an address never reach the room.
  lemma UnaddressedExactly(w: World, socket: Socket, message: Incoming, nowMs: int)
    requires Reachable(w) && Enabled(w, MessageEvent(socket, message, nowMs))
    ensures var after := Message(w, socket, message, nowMs);
            && (message.Binary? ==> Answered(w, after, socket, BinaryNotSupported))
            && (message.Text? && socket.role == HostRole && message.parsed.NotJson? ==>
                  Answered(w, after, socket, InvalidEnvelope))
            && (message.Text? && socket.role == HostRole && message.parsed.NoTarget? ==>
                  Answered(w, after, socket, MissingTarget))
            && (message.Text? && socket.role == HostRole && message.parsed.JsonNull? ==> after == w.(nowMs := nowMs))
  {
    hide Relay;
  }

  // A guest's text goes to the host exactly when the room is open and the text is
  // not too long, and otherwise comes back as the error that says which.
  lemma GuestTextExactly(w: World, socket: Socket, text: string, byteLength: nat, parsed: Envelope, nowMs: int)
    requires Reachable(w) && Enabled(w, MessageEvent(socket, Text(text, byteLength, parsed), nowMs))
    requires socket.role == GuestRole
    ensures var after := Message(w, socket, Text(text, byteLength, parsed), nowMs);
            if Current(w).phase != Open then Answered(w, after, socket, RoomNotOpen)
            else if byteLength > 16384 then Answered(w, after, socket, MessageTooLarge)
            else
              && Current(w).hostId.Some?
              && var host := Socket(Current(w).hostId.value, HostRole);
                 Relayed(w, after, Sent(host, SignalFromGuest(socket.id, text)), nowMs)
  {
    ReachableInv(w);
    var now, frame := w.(nowMs := nowMs), SignalFromGuest(socket.id, text);
    GuestRoute(w, socket, byteLength, frame);
    assert Message(w, socket, Text(text, byteLength, parsed), nowMs) == Relay(now, socket, None, byteLength, frame);
    hide *;
    if RouteSignal(Current(w), RelayEnvelope(socket.id, None, byteLength)).Ok? {
      RelayWrites(w, now, socket, None, byteLength, frame, Sent(Socket(Current(w).hostId.value, HostRole), frame));
    } else {
      RelayAnswers(w, now, socket, None, byteLength, frame);
    }
  }

  lemma GuestIsNotHost(w: World, host: Socket, socket: Socket)
    requires Inv(w) && Current(w).phase == Open && Current(w).hostId == Some(host.id)
    requires socket.id in Current(w).guestIds
    ensures socket.id != host.id
  {
  }

  // A host's addressed text goes to that guest exactly when the room is open, the
  // text is not too long and the guest is present.
  lemma HostTextExactly(w: World, socket: Socket, text: string, byteLength: nat, to: ConnectionId, body: string,
                        nowMs: int)
    requires Reachable(w) && Enabled(w, MessageEvent(socket, Text(text, byteLength, Addressed(to, body)), nowMs))
    requires socket.role == HostRole
    ensures var after := Message(w, socket, Text(text, byteLength, Addressed(to, body)), nowMs);
            if Current(w).phase != Open then Answered(w, after, socket, RoomNotOpen)
            else if byteLength > 16384 then Answered(w, after, socket, MessageTooLarge)
            else if !Present(w, to) then Answered(w, after, socket, UnknownTarget)
            else Relayed(w, after, Sent(Socket(to, GuestRole), SignalFromHost(body)), nowMs)
  {
    ReachableInv(w);
    var now, frame := w.(nowMs := nowMs), SignalFromHost(body);
    HostRoute(w, socket, to, byteLength, frame);
    assert Message(w, socket, Text(text, byteLength, Addressed(to, body)), nowMs)
        == Relay(now, socket, Some(to), byteLength, frame);
    hide *;
    if RouteSignal(Current(w), RelayEnvelope(socket.id, Some(to), byteLength)).Ok? {
      RelayWrites(w, now, socket, Some(to), byteLength, frame, Sent(Socket(to, GuestRole), frame));
    } else {
      RelayAnswers(w, now, socket, Some(to), byteLength, frame);
    }
  }

  lemma OneHost(w: World, host: Socket, socket: Socket)
    requires Inv(w) && host in w.accepted && socket in w.sockets && host.role == socket.role == HostRole
    ensures socket == host
  {
    SocketsAccepted(w);
  }
}
