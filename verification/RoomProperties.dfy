// The run-level promises of the signalling room.
module RoomProperties {
  import opened Results
  import opened RoomState
  import L = RateLimiter
  import opened RoomSteps
  import opened RoomInvariant

  // What some run from an untouched object ends in.
  ghost predicate Reachable(w: World) {
    exists code: string, t: int, es: seq<Event> :: AllEnabled(Start(code, t), es) && w == Run(Start(code, t), es)
  }

  lemma ReachableInv(w: World)
    requires Reachable(w)
    ensures Inv(w)
  {
    var code: string, t: int, es: seq<Event> :| AllEnabled(Start(code, t), es) && w == Run(Start(code, t), es);
    StartInv(code, t);
    RunKeeps(Start(code, t), es);
  }

  // Every reachable room value is well formed, its live sockets are exactly
  // its host and guests while it is open, and the host has been told exactly
  // the guest list, in join order.
  lemma RoomIsConsistent(w: World)
    requires Reachable(w)
    ensures WellFormed(Current(w), w.nowMs)
    ensures Current(w).phase == Open ==>
              var host := Socket(Current(w).hostId.value, HostRole);
              && w.sockets == [host] + GuestSockets(Current(w).guestIds)
              && |w.sockets| <= 1 + MAX_GUESTS
              && Mirror(w.outbox, host) == Current(w).guestIds
    ensures |Claimants(w.outbox)| <= 1
  {
    ReachableInv(w);
    if Current(w).phase == Open {
      GuestSocketsAt(Current(w).guestIds);
    }
  }

  // ---- Admission ----

  // A host is admitted only to a room nobody ever claimed, a guest only to an
  // open room with a place left.
  lemma AdmissionNeedsRoom(w: World, upgrade: bool, role: Option<Role>, id: ConnectionId, nowMs: int)
    requires Reachable(w) && Enabled(w, FetchEvent(upgrade, role, id, nowMs))
    requires Fetch(w, upgrade, role, id, nowMs).1 == Accepted
    ensures role == Some(HostRole) ==>
              Current(w).phase == WaitingForHost && Claimants(w.outbox) == []
              && Claimants(Fetch(w, upgrade, role, id, nowMs).0.outbox) == [Socket(id, HostRole)]
    ensures role == Some(GuestRole) ==> Current(w).phase == Open && |Current(w).guestIds| < MAX_GUESTS
    ensures Fetch(w, upgrade, role, id, nowMs).0.sockets == w.sockets + [Socket(id, role.value)]
  {
    AcceptedMeans(w, upgrade, role, id, nowMs);
    ReachableInv(w);
    WaitingHasNoClaimant(w);
    assert w.row.Some? ==> LoadState(w, nowMs) == Current(w);
    assert LoadState(w, nowMs).phase == Current(w).phase && LoadState(w, nowMs).guestIds == Current(w).guestIds;
    hide Fetch, L.TryConsume, Claimants, Reachable, Inv, LoadState;
    if role == Some(HostRole) {
      var more := [Sent(Socket(id, HostRole), Created(LoadState(w, nowMs).code))];
      AnnouncementsAppend(w.outbox, more);
      OneClaimant(more[0]);
    }
  }

  lemma WaitingHasNoClaimant(w: World)
    requires Inv(w)
    ensures Current(w).phase == WaitingForHost ==> Claimants(w.outbox) == []
    ensures WellFormed(Current(w), w.nowMs)
  {
    hide Claimants, L.Run, Mirror, Bereaved;
  }

  lemma AcceptedMeans(w: World, upgrade: bool, role: Option<Role>, id: ConnectionId, nowMs: int)
    requires Fetch(w, upgrade, role, id, nowMs).1 == Accepted
    ensures role.Some? && Fetch(w, upgrade, role, id, nowMs).0.sockets == w.sockets + [Socket(id, role.value)]
    ensures role == Some(HostRole) ==>
              && ClaimHost(LoadState(w, nowMs), id, nowMs).Ok?
              && Fetch(w, upgrade, role, id, nowMs).0.outbox
                 == w.outbox + [Sent(Socket(id, HostRole), Created(LoadState(w, nowMs).code))]
    ensures role == Some(GuestRole) ==> JoinGuest(LoadState(w, nowMs), id, nowMs).Ok?
  {
    hide L.TryConsume, NextAlarmMs, ToRole;
    var more: seq<Sent> := [];
    assert forall outbox: seq<Sent> :: outbox + more == outbox;
  }

  lemma OneClaimant(sent: Sent)
    ensures Claimants([sent]) == if sent.frame.Created? then [sent.to] else []
  {
    assert [sent][..0] == [];
  }

  // The collision probe answers exactly what a host's own attempt would meet.
  lemma ProbeAgreesWithClaim(w: World, id: ConnectionId, nowMs: int)
    ensures Probe(w, nowMs) <==> ClaimHost(LoadState(w, nowMs), id, nowMs) == Err(HostAlreadyClaimed)
  {
  }

  // Join attempts that pass the limiter: at most 39 in any 60 seconds.
  lemma AttemptsArePaced(w: World, from: int)
    requires Reachable(w)
    ensures L.CountIn(w.passed, from, from + 60000) <= 39
    ensures L.CountIn(w.passed, from, from + 60001) <= 40
  {
    ReachableInv(w);
    L.AdmittedPerInterval(w.attempts, JOIN_RATE_LIMIT, from);
  }

  // ---- Expiry ----

  // While a saved row is not closed the pending alarm is exactly its deadline,
  // and being expired and having a late alarm are the same thing.
  lemma ExpiredMeansLateAlarm(w: World, nowMs: int)
    requires Reachable(w) && w.row.Some? && Current(w).phase != Closed
    ensures w.alarm == Some(NextAlarmMs(Current(w)))
    ensures IsExpired(Current(w), nowMs) <==> nowMs > w.alarm.value
  {
    ReachableInv(w);
    AlarmIsTheLastMoment(Current(w), nowMs);
  }

  // An alarm never closes a room that was active within ten minutes and is
  // younger than two hours.
  lemma AlarmIsNeverEarly(w: World, nowMs: int)
    requires Reachable(w) && Enabled(w, AlarmEvent(nowMs)) && Current(w).phase != Closed
    ensures nowMs - Current(w).lastActivityMs >= ROOM_IDLE_TTL_MS || nowMs - Current(w).createdAtMs >= ROOM_MAX_LIFETIME_MS
  {
    ReachableInv(w);
  }

  // If no alarm is late, no event ever finds an expired room that is not
  // closed, however much traffic there was.
  lemma PunctualAlarmsKeepRoomsFresh(w: World, e: Event)
    requires Reachable(w) && Enabled(w, e)
    requires w.alarm.Some? ==> e.nowMs <= w.alarm.value
    ensures var state := LoadState(w, e.nowMs); state.phase != Closed ==> !IsExpired(state, e.nowMs)
    ensures e.FetchEvent? ==>
              var response := Fetch(w, e.upgrade, e.role, e.id, e.nowMs).1;
              !(response.RejectedInBand? && response.reason == RoomExpired)
  {
    ReachableInv(w);
    if w.row.Some? && Current(w).phase != Closed {
      AlarmIsTheLastMoment(Current(w), e.nowMs);
    }
  }

  // ---- Relay ----

  // Every message a live socket sends is answered by exactly one frame, except
  // a host's JSON null: an error back to the sender, or a signal to one live
  // socket of the opposite role.
  lemma MessageReachesOneSocket(w: World, socket: Socket, message: Incoming, nowMs: int)
    requires Reachable(w) && Enabled(w, MessageEvent(socket, message, nowMs))
    ensures var after := Message(w, socket, message, nowMs);
            if message.Text? && socket.role == HostRole && message.parsed == JsonNull then
              after.outbox == w.outbox
            else
              && |after.outbox| == |w.outbox| + 1 && after.outbox[..|w.outbox|] == w.outbox
              && var sent := after.outbox[|w.outbox|];
                 if sent.frame.ErrorFrame? then
                   sent.to == socket && after.row == w.row && after.alarm == w.alarm
                 else
                   && sent.to in w.sockets && sent.to != socket && sent.to.role != socket.role
                   && Current(w).phase == Open
                   && (socket.role == HostRole ==>
                         message.Text? && message.parsed.Addressed? && sent.to.id == message.parsed.to
                         && sent.frame == SignalFromHost(message.parsed.body))
                   && (socket.role == GuestRole ==> message.Text? && sent.frame == SignalFromGuest(socket.id, message.text))
                   && after.row.Some? && after.row.value.state == Current(w).(lastActivityMs := nowMs)
  {
    ReachableInv(w);
    hide Inv, RouteSignal, ToIds;
    match message
    case Binary =>
    case Text(text, byteLength, parsed) =>
      var toId := if socket.role == HostRole && parsed.Addressed? then Some(parsed.to) else None;
      var frame := if socket.role == HostRole then SignalFromHost(if parsed.Addressed? then parsed.body else "")
                   else SignalFromGuest(socket.id, text);
      var envelope := RelayEnvelope(socket.id, toId, byteLength);
      assert w.row.Some? ==> LoadState(w, nowMs) == Current(w);
      SocketsNeedRow(w);
      if RouteSignal(Current(w), envelope).Ok? {
        RouteCrosses(w, socket, envelope, frame);
      }
  }

  lemma SocketsNeedRow(w: World)
    requires Inv(w)
    ensures w.sockets != [] ==> w.row.Some?
  {
  }

  // The routed recipient is one live socket on the other side.
  lemma RouteCrosses(w: World, socket: Socket, envelope: RelayEnvelope, frame: Frame)
    requires Inv(w) && socket in w.sockets && envelope.fromId == socket.id
    requires RouteSignal(Current(w), envelope).Ok?
    ensures Current(w).phase == Open
    ensures var recipients := RouteSignal(Current(w), envelope).value;
            exists to ::
              && ToIds(w.sockets, recipients, frame) == [Sent(to, frame)]
              && to in w.sockets && to != socket && to.role != socket.role
              && (socket.role == HostRole ==> Some(to.id) == envelope.toId)
  {
    var state := Current(w);
    var host := OpenRoom(w);
    var recipients := RouteSignal(state, envelope).value;
    GuestSocketsMembers(state.guestIds);
    assert recipients == [recipients[0]];
    if socket == host {
      ToIdsGuest(host, state.guestIds, recipients[0], frame);
    } else {
      assert recipients[0] == host.id;
      ToIdsHost(host, state.guestIds, frame);
    }
  }

  lemma {:induction false} ToIdsAppend(a: seq<Socket>, b: seq<Socket>, ids: seq<ConnectionId>, frame: Frame)
    ensures ToIds(a + b, ids, frame) == ToIds(a, ids, frame) + ToIds(b, ids, frame)
  {
    if b == [] {
      assert a + b == a;
    } else {
      assert (a + b)[..|a + b| - 1] == a + b[..|b| - 1];
      ToIdsAppend(a, b[..|b| - 1], ids, frame);
    }
  }

  lemma {:induction false} ToIdsAmongGuests(guests: seq<ConnectionId>, id: ConnectionId, frame: Frame)
    requires Distinct(guests)
    ensures ToIds(GuestSockets(guests), [id], frame) == if id in guests then [Sent(Socket(id, GuestRole), frame)] else []
  {
    if guests != [] {
      var most, last := guests[..|guests| - 1], guests[|guests| - 1];
      assert guests == most + [last];
      ToIdsAmongGuests(most, id, frame);
      assert GuestSockets(guests)[..|GuestSockets(guests)| - 1] == GuestSockets(most);
      assert last !in most;
    }
  }

  lemma ToIdsGuest(host: Socket, guests: seq<ConnectionId>, id: ConnectionId, frame: Frame)
    requires Distinct(guests) && id in guests && host.id !in guests
    ensures ToIds([host] + GuestSockets(guests), [id], frame) == [Sent(Socket(id, GuestRole), frame)]
  {
    ToIdsAppend([host], GuestSockets(guests), [id], frame);
    ToIdsAmongGuests(guests, id, frame);
    assert [host][..0] == [];
  }

  lemma ToIdsHost(host: Socket, guests: seq<ConnectionId>, frame: Frame)
    requires Distinct(guests) && host.id !in guests
    ensures ToIds([host] + GuestSockets(guests), [host.id], frame) == [Sent(host, frame)]
  {
    ToIdsAppend([host], GuestSockets(guests), [host.id], frame);
    ToIdsAmongGuests(guests, host.id, frame);
    assert [host][..0] == [];
  }

  // ---- Closing ----

  // The departure is announced only by the host's own disconnect, to every
  // guest of the room once, and the room is closed by it.
  lemma DepartureIsTheHosts(w: World, e: Event)
    requires Reachable(w) && Enabled(w, e)
    requires Bereaved(Step(w, e).outbox) != Bereaved(w.outbox)
    ensures e.DisconnectEvent? && e.socket.role == HostRole && Current(w).hostId == Some(e.socket.id)
    ensures Bereaved(w.outbox) == [] && Bereaved(Step(w, e).outbox) == GuestSockets(Current(w).guestIds)
    ensures Current(Step(w, e)).phase == Closed
  {
    ReachableInv(w);
    StepKeeps(w, e);
    if Current(w).phase == Closed {
      ClosedStep(w, e);
    } else if e.DisconnectEvent? && Current(w).hostId == Some(e.socket.id) {
      DepartureFrames(w, e.socket, e.nowMs);
    } else {
      OtherwiseNotClosedByDisconnect(w, e);
    }
  }

  lemma DepartureFrames(w: World, socket: Socket, nowMs: int)
    requires Inv(w) && socket in w.accepted && w.nowMs <= nowMs && Current(w).hostId == Some(socket.id)
    ensures socket.role == HostRole
    ensures Bereaved(Disconnect(w, socket, nowMs).outbox) == GuestSockets(Current(w).guestIds)
    ensures Current(Disconnect(w, socket, nowMs)).phase == Closed
  {
    var host := OpenRoom(w);
    var guests := Current(w).guestIds;
    RemoveKeeps(Current(w), socket.id, w.nowMs, w.nowMs);
    DroppedAppend([host], GuestSockets(guests), host);
    GuestSocketsMembers(guests);
    DroppedMembers(GuestSockets(guests), host);
    assert Dropped([host], host) == [];
    assert Dropped(w.sockets, host) == GuestSockets(guests);
    AnnouncementsAppend(w.outbox, ToRole(GuestSockets(guests), GuestRole, HostLeft));
    BereavedGuests(guests);
  }

  lemma {:induction false} BereavedGuests(guests: seq<ConnectionId>)
    ensures Bereaved(ToRole(GuestSockets(guests), GuestRole, HostLeft)) == GuestSockets(guests)
  {
    if guests != [] {
      var most, last := guests[..|guests| - 1], guests[|guests| - 1];
      var s := GuestSockets(guests);
      assert s[..|s| - 1] == GuestSockets(most);
      var sent := ToRole(s, GuestRole, HostLeft);
      assert sent[..|sent| - 1] == ToRole(GuestSockets(most), GuestRole, HostLeft);
      BereavedGuests(most);
    }
  }

  // No other step announces a departure: it either leaves the room open or
  // sends no such frame.
  lemma OtherwiseNotClosedByDisconnect(w: World, e: Event)
    requires Inv(w) && Inv(Step(w, e)) && Enabled(w, e) && Current(w).phase != Closed
    requires !(e.DisconnectEvent? && Current(w).hostId == Some(e.socket.id))
    ensures Bereaved(Step(w, e).outbox) == []
  {
    if e.AlarmEvent? {
      assert Step(w, e).outbox == w.outbox;
    } else {
      StaysUnclosed(w, e);
    }
  }

  lemma StaysUnclosed(w: World, e: Event)
    requires Inv(w) && Enabled(w, e) && Current(w).phase != Closed && !e.AlarmEvent?
    requires !(e.DisconnectEvent? && Current(w).hostId == Some(e.socket.id))
    ensures Current(Step(w, e)).phase != Closed
  {
    match e
    case FetchEvent(upgrade, role, id, nowMs) => FetchStaysUnclosed(w, upgrade, role, id, nowMs);
    case MessageEvent(socket, message, nowMs) => MessageStaysUnclosed(w, socket, message, nowMs);
    case DisconnectEvent(socket, nowMs) =>
      RemoveKeeps(Current(w), socket.id, w.nowMs, w.nowMs);
      DisconnectStaysUnclosed(w, socket, nowMs);
    case _ =>
  }

  lemma FetchStaysUnclosed(w: World, upgrade: bool, role: Option<Role>, id: ConnectionId, nowMs: int)
    requires Current(w).phase != Closed
    ensures Current(Fetch(w, upgrade, role, id, nowMs).0).phase != Closed
  {
    hide L.TryConsume, NextAlarmMs, ToRole, IsExpired;
  }

  lemma MessageStaysUnclosed(w: World, socket: Socket, message: Incoming, nowMs: int)
    requires Current(w).phase != Closed
    ensures Current(Message(w, socket, message, nowMs)).phase != Closed
  {
    hide NextAlarmMs, ToIds, RouteSignal;
  }

  lemma DisconnectStaysUnclosed(w: World, socket: Socket, nowMs: int)
    requires Current(w).phase != Closed && RemoveConnection(Current(w), socket.id).phase != Closed
    ensures Current(Disconnect(w, socket, nowMs)).phase != Closed
  {
    hide NextAlarmMs, ToRole, Dropped, Without, CloseRoom;
  }

  // In a closed room nothing is admitted or relayed any more: the only frames
  // still sent are errors.
  lemma ClosedStep(w: World, e: Event)
    requires Inv(w) && Enabled(w, e) && Current(w).phase == Closed
    ensures var after := Step(w, e);
            && Current(after).phase == Closed
            && after.accepted == w.accepted
            && (forall s :: s in after.sockets ==> s in w.sockets)
            && OnlyErrorsSince(w.outbox, after.outbox)
            && Bereaved(after.outbox) == Bereaved(w.outbox)
    ensures e.FetchEvent? ==> Fetch(w, e.upgrade, e.role, e.id, e.nowMs).1 != Accepted
  {
    assert w.row.Some?;
    hide L.TryConsume, Inv, NextAlarmMs, Mirror, Claimants, Bereaved;
    match e
    case DisconnectEvent(socket, _) =>
      DroppedMembers(w.sockets, socket);
      assert Step(w, e).outbox == w.outbox;
    case MessageEvent(socket, message, nowMs) =>
      ClosedRoomsAnswerErrors(w, socket, message, nowMs);
    case FetchEvent(upgrade, role, id, nowMs) =>
      ClosedRoomsAdmitNobody(w, upgrade, role, id, nowMs);
    case _ =>
      assert Step(w, e).outbox == w.outbox;
  }

  lemma ClosedRoomsAdmitNobody(w: World, upgrade: bool, role: Option<Role>, id: ConnectionId, nowMs: int)
    requires w.row.Some? && Current(w).phase == Closed
    ensures var (after, response) := Fetch(w, upgrade, role, id, nowMs);
            && response != Accepted && Current(after).phase == Closed
            && after.accepted == w.accepted && after.sockets == w.sockets && after.outbox == w.outbox
  {
    hide L.TryConsume, NextAlarmMs;
  }

  lemma ClosedRoomsAnswerErrors(w: World, socket: Socket, message: Incoming, nowMs: int)
    requires w.row.Some? && Current(w).phase == Closed
    ensures var after := Message(w, socket, message, nowMs);
            && Current(after).phase == Closed
            && after.accepted == w.accepted && after.sockets == w.sockets
            && OnlyErrorsSince(w.outbox, after.outbox)
            && Bereaved(after.outbox) == Bereaved(w.outbox)
  {
    hide Bereaved, Claimants;
    var more := Message(w, socket, message, nowMs).outbox[|w.outbox|..];
    assert Message(w, socket, message, nowMs).outbox == w.outbox + more;
    AnnouncementsAppend(w.outbox, more);
    NoAnnouncements(more);
  }

  ghost predicate OnlyErrorsSince(before: seq<Sent>, after: seq<Sent>) {
    && |before| <= |after| && after[..|before|] == before
    && forall i :: |before| <= i < |after| ==> after[i].frame.ErrorFrame?
  }

  // Closed is for good, over every continuation of the run.
  lemma {:induction false} ClosedForGood(w: World, es: seq<Event>)
    requires Inv(w) && Current(w).phase == Closed && AllEnabled(w, es)
    ensures var after := Run(w, es);
            && Current(after).phase == Closed
            && after.accepted == w.accepted
            && OnlyErrorsSince(w.outbox, after.outbox)
            && Bereaved(after.outbox) == Bereaved(w.outbox)
    decreases es
  {
    hide Inv, Step, Enabled;
    if es != [] {
      var next := Step(w, es[0]);
      StepKeeps(w, es[0]);
      ClosedStep(w, es[0]);
      ClosedForGood(next, es[1..]);
      var after := Run(next, es[1..]);
      assert after.outbox[..|w.outbox|] == after.outbox[..|next.outbox|][..|w.outbox|];
      forall i | |w.outbox| <= i < |after.outbox|
        ensures after.outbox[i].frame.ErrorFrame?
      {
        if i < |next.outbox| {
          assert after.outbox[i] == after.outbox[..|next.outbox|][i];
        }
      }
    }
  }

  // A closed room has told every live socket to close, or will: an alarm is
  // pending. And firing it tells all of them.
  lemma ClosedRoomsDrain(w: World)
    requires Reachable(w) && Current(w).phase == Closed
    ensures w.alarm.Some? || forall s :: s in w.sockets ==> s in w.closing
    ensures forall nowMs :: forall s :: s in Alarm(w, nowMs).sockets ==> s in Alarm(w, nowMs).closing
  {
    ReachableInv(w);
  }

  // An attempt that the limiter lets pass.
  predicate Passes(w: World, e: Event) {
    e.FetchEvent? && e.upgrade && e.role.Some? && L.TryConsume(LoadJoinWindow(w), e.nowMs, JOIN_RATE_LIMIT).Ok?
  }

  // The alarm that ends a closed room's grace period is cleared exactly when it
  // fires, and moves later or earlier exactly when a socket's close is reported,
  // which restarts the grace period, or when an attempt that passes the limiter
  // is refused, which puts the row's old deadline in its place.
  lemma GraceMovesExactly(w: World, e: Event)
    requires Reachable(w) && Enabled(w, e) && Current(w).phase == Closed && w.alarm.Some?
    ensures Step(w, e).alarm.None? <==> e.AlarmEvent?
    ensures Step(w, e).alarm.Some? && Step(w, e).alarm.value > w.alarm.value
            <==> || (e.DisconnectEvent? && e.nowMs + CLOSE_GRACE_MS > w.alarm.value)
                 || (Passes(w, e) && NextAlarmMs(Current(w)) > w.alarm.value)
    ensures Step(w, e).alarm.Some? && Step(w, e).alarm.value < w.alarm.value
            <==> || (e.DisconnectEvent? && e.nowMs + CLOSE_GRACE_MS < w.alarm.value)
                 || (Passes(w, e) && NextAlarmMs(Current(w)) < w.alarm.value)
  {
    ReachableInv(w);
    hide L.TryConsume, NextAlarmMs, Inv, RouteSignal, ToIds, ToRole, Dropped, L.Run, Mirror, Bereaved, Claimants;
    assert w.row.Some?;
  }

  ghost predicate Overwrites(w: World, e: Event, before: int, after: int, at: int) {
    && Reachable(w) && Enabled(w, e) && Current(w).phase == Closed && w.alarm == Some(before)
    && e.FetchEvent? && e.nowMs == at && Step(w, e).alarm == Some(after)
  }

  // Some run reaches a closed room whose alarm one more attempt overwrites.
  ghost predicate Overwritten(before: int, after: int, at: int) {
    exists w, e :: Overwrites(w, e, before, after, at)
  }

  // A host claims a room at 0 and leaves it again before its deadline: at any
  // later time a single refused guest overwrites the grace alarm with that
  // deadline, ten minutes from the claim.
  lemma GraceIsOverwritten(code: string, leaveAt: int, attemptAt: int)
    requires 0 <= leaveAt <= attemptAt
    ensures Overwritten(leaveAt + CLOSE_GRACE_MS, ROOM_IDLE_TTL_MS, attemptAt)
  {
    var host := Socket("host", HostRole);
    var claim := FetchEvent(true, Some(HostRole), "host", 0);
    var leave := DisconnectEvent(host, leaveAt);
    var attempt := FetchEvent(true, Some(GuestRole), "guest", attemptAt);
    var w0 := Start(code, 0);
    var w1 := Step(w0, claim);
    assert w1.sockets == [] + [host] && w1.accepted == {host} && w1.issued == {"host"};
    assert Current(w1) == Room(code, 0, 0, Open, Some("host"), []);
    var w2 := Step(w1, leave);
    assert Current(w2) == Room(code, 0, 0, Closed, None, []) && w2.issued == {"host"};
    assert w2.alarm == Some(leaveAt + CLOSE_GRACE_MS);
    assert "guest" != "host";
    assert Step(w2, attempt).alarm == Some(ROOM_IDLE_TTL_MS);
    assert Enabled(w0, claim) && Enabled(w1, leave) && Enabled(w2, attempt);
    hide Step, Enabled, Start, Current, Run, AllEnabled;
    var es := [claim] + ([leave] + []);
    NoEvents(w2);
    OneMoreEvent(w1, leave, []);
    OneMoreEvent(w0, claim, [leave] + []);
    assert AllEnabled(w0, es) && w2 == Run(w0, es);
    assert Reachable(w2);
    assert Overwrites(w2, attempt, leaveAt + CLOSE_GRACE_MS, ROOM_IDLE_TTL_MS, attemptAt);
  }

  // So the five seconds can become ten minutes, for a host that comes and goes
  // within a millisecond and a guest that tries a millisecond later...
  lemma GraceCanBePostponed(code: string)
    ensures Overwritten(5001, 600000, 2)
  {
    hide Overwritten;
    GraceIsOverwritten(code, 1, 2);
  }

  // ...and can be cut short to nothing, for a host that leaves just before its
  // deadline and a guest that tries at it: the alarm is due at once.
  lemma GraceCanBeCutShort(code: string)
    ensures Overwritten(604999, 600000, 600000)
  {
    hide Overwritten;
    GraceIsOverwritten(code, 599999, 600000);
  }

  lemma NoEvents(w: World)
    ensures Run(w, []) == w && AllEnabled(w, [])
  {
  }

  lemma OneMoreEvent(w: World, e: Event, es: seq<Event>)
    ensures Run(w, [e] + es) == Run(Step(w, e), es)
    ensures AllEnabled(w, [e] + es) <==> Enabled(w, e) && AllEnabled(Step(w, e), es)
  {
    assert ([e] + es)[1..] == es;
  }

  // Alarms and reported closes, the events left when nobody connects or sends
  // any more. A close may be reported again after the socket is gone.
  predicate Winding(w: World, e: Event) {
    Enabled(w, e) && (e.AlarmEvent? || e.DisconnectEvent?)
  }

  predicate AllWinding(w: World, es: seq<Event>)
    decreases es
  {
    es == [] || (Winding(w, es[0]) && AllWinding(Step(w, es[0]), es[1..]))
  }

  function Remaining(w: World): nat {
    2 * |w.sockets| + if w.alarm.Some? then 1 else 0
  }

  // How many of the closes are reports of a socket that is already gone.
  function Repeats(w: World, es: seq<Event>): nat
    decreases es
  {
    if es == [] then 0
    else (if es[0].DisconnectEvent? && es[0].socket !in w.sockets then 1 else 0) + Repeats(Step(w, es[0]), es[1..])
  }

  lemma OneWindingStep(w: World, e: Event)
    requires Winding(w, e)
    ensures 1 + Remaining(Step(w, e)) <= Remaining(w) + if e.DisconnectEvent? && e.socket !in w.sockets then 2 else 0
  {
    if e.DisconnectEvent? {
      DroppedMembers(w.sockets, e.socket);
    }
    hide NextAlarmMs, RemoveConnection, ToRole, Dropped, CloseRoom;
  }

  // They are finitely many: each live socket accounts for at most two, and so
  // does each report of a socket that is already gone.
  lemma {:induction false} WindingDownIsFinite(w: World, es: seq<Event>)
    requires AllWinding(w, es)
    ensures |es| + Remaining(Run(w, es)) <= Remaining(w) + 2 * Repeats(w, es)
    decreases es
  {
    hide Step, Winding, Remaining;
    if es != [] {
      OneWindingStep(w, es[0]);
      WindingDownIsFinite(Step(w, es[0]), es[1..]);
    }
  }
}
