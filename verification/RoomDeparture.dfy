// What a departure and a firing alarm write and send: in the terms of the row,
// the live sockets and numbers, and without the reducer.
module RoomDeparture {
  import opened Results
  import opened RoomState
  import L = RateLimiter
  import opened RoomSteps
  import opened RoomInvariant
  import opened RoomProperties

  // Exactly these guests are told, each once, in join order.
  ghost predicate EachTold(before: seq<Sent>, after: seq<Sent>, guests: seq<ConnectionId>, frame: Frame) {
    && |after| == |before| + |guests| && before <= after
    && forall i :: 0 <= i < |guests| ==> after[|before| + i] == Sent(Socket(guests[i], GuestRole), frame)
  }

  // The host's own close ends the room: every guest is told, and the alarm comes
  // five seconds later.
  ghost predicate HostLeaves(w: World, after: World, nowMs: int) {
    && Current(after) == Current(w).(phase := Closed, hostId := None, guestIds := [])
    && after.alarm == Some(nowMs + 5000) && after.sockets == GuestSockets(Current(w).guestIds)
    && EachTold(w.outbox, after.outbox, Current(w).guestIds, HostLeft)
  }

  // A guest's takes its place free and is told to the host; the deadline stays.
  ghost predicate GuestLeaves(w: World, after: World, id: ConnectionId) {
    && Current(w).phase == Open && Current(w).hostId.Some?
    && Current(after) == Current(w).(guestIds := Current(after).guestIds)
    && (forall other :: other in Current(after).guestIds <==> other in Current(w).guestIds && other != id)
    && after.alarm == w.alarm
    && after.outbox == w.outbox + [Sent(Socket(Current(w).hostId.value, HostRole), GuestLeft(id))]
  }

  // A close reported after the end sends nothing and restarts the five seconds.
  ghost predicate LeavesLate(w: World, after: World, nowMs: int) {
    Current(after) == Current(w) && after.alarm == Some(nowMs + 5000) && after.outbox == w.outbox
  }

  lemma LeavingExactly(w: World, socket: Socket, nowMs: int)
    requires Reachable(w) && Enabled(w, DisconnectEvent(socket, nowMs))
    ensures var after := Disconnect(w, socket, nowMs);
            && after.row.Some? && socket !in after.sockets
            && if Current(w).phase == Closed then LeavesLate(w, after, nowMs)
               else if Current(w).hostId == Some(socket.id) then HostLeaves(w, after, nowMs)
               else socket.role == GuestRole && GuestLeaves(w, after, socket.id)
  {
    ReachableInv(w);
    AcceptedHasRow(w, socket);
    DroppedMembers(w.sockets, socket);
    assert socket !in Disconnect(w, socket, nowMs).sockets;
    if Current(w).phase == Closed {
      LateLeaving(w, socket, nowMs);
    } else if Current(w).hostId == Some(socket.id) {
      HostLeaving(w, socket, nowMs);
    } else {
      GuestLeaving(w, socket, nowMs);
    }
    hide Inv, Reachable;
  }

  lemma AcceptedHasRow(w: World, socket: Socket)
    requires Inv(w) && socket in w.accepted
    ensures w.row.Some?
  {
    hide L.Run, Mirror, Claimants, Bereaved;
  }

  lemma LateLeaving(w: World, socket: Socket, nowMs: int)
    requires w.row.Some? && Current(w).phase == Closed
    ensures LeavesLate(w, Disconnect(w, socket, nowMs), nowMs)
  {
    hide Dropped, ToRole;
    assert w.outbox + [] == w.outbox;
  }

  lemma HostLeaving(w: World, socket: Socket, nowMs: int)
    requires Inv(w) && socket in w.accepted && Current(w).phase != Closed && Current(w).hostId == Some(socket.id)
    ensures HostLeaves(w, Disconnect(w, socket, nowMs), nowMs)
  {
    var host := OpenRoom(w);
    assert socket == host;
    hide *;
    DroppedHost(host, Current(w).guestIds);
    ToRoleOfGuests(Current(w).guestIds, GuestRole, HostLeft);
    HostRemoved(w, host, nowMs);
  }

  lemma HostRemoved(w: World, host: Socket, nowMs: int)
    requires w.row.Some? && Current(w).hostId == Some(host.id) && Current(w).phase == Open
    requires Dropped(w.sockets, host) == GuestSockets(Current(w).guestIds)
    requires var told := ToRole(GuestSockets(Current(w).guestIds), GuestRole, HostLeft);
             && |told| == |Current(w).guestIds|
             && forall i :: 0 <= i < |told| ==> told[i] == Sent(Socket(Current(w).guestIds[i], GuestRole), HostLeft)
    ensures HostLeaves(w, Disconnect(w, host, nowMs), nowMs)
  {
    hide Dropped, ToRole, GuestSockets;
  }

  lemma DroppedHost(host: Socket, guests: seq<ConnectionId>)
    requires host.role == HostRole
    ensures Dropped([host] + GuestSockets(guests), host) == GuestSockets(guests)
  {
    DroppedAppend([host], GuestSockets(guests), host);
    GuestSocketsMembers(guests);
    DroppedMembers(GuestSockets(guests), host);
    assert Dropped([host], host) == [];
  }

  lemma GuestLeaving(w: World, socket: Socket, nowMs: int)
    requires Inv(w) && socket in w.accepted && Current(w).phase != Closed && Current(w).hostId != Some(socket.id)
    requires w.nowMs <= nowMs
    ensures socket.role == GuestRole && GuestLeaves(w, Disconnect(w, socket, nowMs), socket.id)
  {
    AcceptedMeansOpen(w, socket);
    var host := OpenRoom(w);
    var now := w.(nowMs := nowMs);
    TimePasses(w, nowMs);
    OpenHas(now);
    assert Current(now) == Current(w) && socket.role == GuestRole && socket.id != host.id;
    hide *;
    GuestDeparture(now, host, socket);
    WithoutKeeps(Current(w).guestIds, socket.id);
    GuestGone(w, now, host, socket, nowMs);
  }

  lemma OpenHas(w: World)
    requires Inv(w)
    ensures WellFormed(Current(w), w.nowMs)
  {
  }

  lemma GuestGone(w: World, now: World, host: Socket, socket: Socket, nowMs: int)
    requires now == w.(nowMs := nowMs) && Current(now) == Current(w)
    requires Current(w).phase == Open && Current(w).hostId == Some(host.id) && host.role == HostRole
    requires var next := Current(w).(guestIds := Without(Current(w).guestIds, socket.id));
             Disconnect(now, socket, nowMs)
             == now.(row := Some(Row(next, LoadJoinWindow(now))), sockets := Dropped(w.sockets, socket),
                     outbox := w.outbox + [Sent(host, GuestLeft(socket.id))])
    requires forall other ::
               other in Without(Current(w).guestIds, socket.id) <==> other in Current(w).guestIds && other != socket.id
    ensures GuestLeaves(w, Disconnect(w, socket, nowMs), socket.id)
  {
    hide Dropped, Without, ToRole, RemoveConnection;
    assert Disconnect(w, socket, nowMs) == Disconnect(now, socket, nowMs);
  }

  // A firing alarm closes the room for good: the row is closed, nothing is
  // pending, and every live socket has been told to close.
  lemma AlarmExactly(w: World, nowMs: int)
    requires Reachable(w) && Enabled(w, AlarmEvent(nowMs))
    ensures var after := Alarm(w, nowMs);
            && Current(after) == Current(w).(phase := Closed, hostId := None, guestIds := [])
            && after.alarm.None? && after.sockets == w.sockets && after.outbox == w.outbox
            && forall s :: s in after.closing <==> s in w.closing || s in w.sockets
  {
    ReachableInv(w);
    AlarmHasRow(w);
    ClosedIsEmpty(w);
    hide Inv, Reachable;
  }

  lemma AlarmHasRow(w: World)
    requires Inv(w) && w.alarm.Some?
    ensures w.row.Some?
  {
  }

  lemma ClosedIsEmpty(w: World)
    requires Inv(w)
    ensures Current(w).phase == Closed ==> Current(w).hostId.None? && Current(w).guestIds == []
  {
    hide L.Run, Mirror, Claimants, Bereaved;
  }
}
