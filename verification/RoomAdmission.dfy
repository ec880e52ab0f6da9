// When an attempt to join is admitted, and why it is refused otherwise: in the
// terms of the stored row and of numbers, and without the reducer.
module RoomAdmission {
  import opened Results
  import opened RoomState
  import L = RateLimiter
  import opened RoomSteps
  import opened RoomInvariant
  import opened RoomProperties

  // Fewer than twenty attempts passed since the stored window began, or it
  // began a minute ago or longer.
  predicate WindowHasRoom(w: World, nowMs: int) {
    w.row.None? || w.row.value.joinWindow.None?
    || w.row.value.joinWindow.value.count < 20 || nowMs - w.row.value.joinWindow.value.windowStartMs >= 60000
  }

  // Younger than two hours and active within ten minutes.
  predicate RowIsFresh(state: Room, nowMs: int) {
    nowMs - state.createdAtMs <= 7200000 && nowMs - state.lastActivityMs <= 600000
  }

  // An attempt that gets as far as the room.
  predicate Asks(w: World, upgrade: bool, role: Option<Role>, nowMs: int) {
    upgrade && role.Some? && WindowHasRoom(w, nowMs)
  }

  lemma LimiterInNumbers(w: World, nowMs: int)
    ensures L.TryConsume(LoadJoinWindow(w), nowMs, JOIN_RATE_LIMIT).Ok? <==> WindowHasRoom(w, nowMs)
  {
  }

  // What the reducer is asked about: the stored row, or a room nobody touched.
  lemma StoredRoom(w: World, nowMs: int)
    requires Inv(w) && w.nowMs <= nowMs
    ensures var state := LoadState(w, nowMs);
            && (state.phase == Open <==> state.hostId.Some?) && |state.guestIds| <= 7
            && (w.row.Some? ==> state == Current(w))
            && (w.row.None? ==> state.phase == WaitingForHost && RowIsFresh(state, nowMs))
            && (IsExpired(state, nowMs) <==> !RowIsFresh(state, nowMs))
    ensures forall id :: id !in w.issued ==> id !in LoadState(w, nowMs).guestIds
  {
    hide L.Run, Mirror, Claimants, Bereaved;
    if w.row.Some? && Current(w).phase == Open {
      var host := OpenRoom(w);
      GuestSocketsMembers(Current(w).guestIds);
      forall id | id in Current(w).guestIds ensures id in w.issued {
        assert Socket(id, GuestRole) in w.sockets;
      }
    }
  }

  // The answer by what the limiter and the reducer say.
  lemma ResponseIs(w: World, upgrade: bool, role: Option<Role>, id: ConnectionId, nowMs: int)
    ensures var response, state := Fetch(w, upgrade, role, id, nowMs).1, LoadState(w, nowMs);
            if !upgrade then response == Rejected(426)
            else if role.None? then response == Rejected(400)
            else if L.TryConsume(LoadJoinWindow(w), nowMs, JOIN_RATE_LIMIT).Err? then response == Rejected(429)
            else
              var claim := if role.value == HostRole then ClaimHost(state, id, nowMs) else JoinGuest(state, id, nowMs);
              response == if claim.Ok? then Accepted else RejectedInBand(claim.error, CloseCode(claim.error))
  {
    hide L.TryConsume, ClaimHost, JoinGuest, NextAlarmMs, ToRole, CloseCode;
  }

  // Every answer an attempt can get, each exactly when.
  lemma AdmittedExactly(w: World, upgrade: bool, role: Option<Role>, id: ConnectionId, nowMs: int)
    requires Reachable(w) && Enabled(w, FetchEvent(upgrade, role, id, nowMs))
    ensures var response, state := Fetch(w, upgrade, role, id, nowMs).1, LoadState(w, nowMs);
            var asks, recent := Asks(w, upgrade, role, nowMs), RowIsFresh(state, nowMs);
            && (response == Accepted <==>
                  asks && recent && if role == Some(HostRole) then state.phase == WaitingForHost
                                    else state.phase == Open && |state.guestIds| < 7)
            && (response == Rejected(426) <==> !upgrade)
            && (response == Rejected(400) <==> upgrade && role.None?)
            && (response == Rejected(429) <==> upgrade && role.Some? && !WindowHasRoom(w, nowMs))
            && (response == RejectedInBand(RoomClosed, 4410) <==> asks && state.phase == Closed)
            && (response == RejectedInBand(RoomNotFound, 4404) <==>
                  asks && role == Some(GuestRole) && state.phase == WaitingForHost)
            && (response == RejectedInBand(RoomExpired, 4409) <==>
                  asks && !recent && (state.phase == Open || (role == Some(HostRole) && state.phase == WaitingForHost)))
            && (response == RejectedInBand(HostAlreadyClaimed, 4411) <==>
                  asks && recent && role == Some(HostRole) && state.phase == Open)
            && (response == RejectedInBand(RoomFull, 4408) <==>
                  asks && recent && role == Some(GuestRole) && state.phase == Open && |state.guestIds| == 7)
  {
    ReachableInv(w);
    StoredRoom(w, nowMs);
    LimiterInNumbers(w, nowMs);
    ResponseIs(w, upgrade, role, id, nowMs);
    hide Fetch, Inv, Reachable, L.TryConsume, WindowHasRoom, IsExpired, RowIsFresh, LoadState;
  }

  // What an admitted attempt leaves behind: the newcomer welcomed, a guest
  // announced to the host, the row touched and the alarm at its deadline.
  lemma AdmissionWrites(w: World, role: Role, id: ConnectionId, nowMs: int)
    requires Reachable(w) && Enabled(w, FetchEvent(true, Some(role), id, nowMs))
    requires Fetch(w, true, Some(role), id, nowMs).1 == Accepted
    ensures var (after, state) := (Fetch(w, true, Some(role), id, nowMs).0, LoadState(w, nowMs));
            var newcomer := Socket(id, role);
            && after.sockets == w.sockets + [newcomer] && after.row.Some?
            && after.row.value.state.phase == Open && after.row.value.state.createdAtMs == state.createdAtMs
            && after.row.value.state.lastActivityMs == nowMs
            && after.alarm == Some(if nowMs + 600000 <= state.createdAtMs + 7200000 then nowMs + 600000
                                   else state.createdAtMs + 7200000)
            && (role == HostRole ==>
                  && after.row.value.state.hostId == Some(id) && after.row.value.state.guestIds == []
                  && after.outbox == w.outbox + [Sent(newcomer, Created(state.code))])
            && (role == GuestRole ==>
                  && after.row.value.state.hostId == state.hostId && state.hostId.Some?
                  && after.row.value.state.guestIds == state.guestIds + [id]
                  && after.outbox == w.outbox + [Sent(newcomer, Joined(state.code)),
                                                 Sent(Socket(state.hostId.value, HostRole), GuestJoined(id))])
  {
    ReachableInv(w);
    AdmittedExactly(w, true, Some(role), id, nowMs);
    WaitingIsEmpty(w, nowMs);
    hide Fetch, Reachable, Inv, RowIsFresh, Asks, ToRole, ClaimHost, JoinGuest, LoadState, NextAlarmMs;
    AcceptedFields(w, role, id, nowMs);
    ClaimWrites(LoadState(w, nowMs), role, id, nowMs);
    if role == GuestRole {
      GuestIsAnnounced(w, id, nowMs);
    }
  }

  // A refused attempt leaves the room as it was. One that got as far as the room
  // is remembered by the limiter and puts the row's deadline back in the alarm.
  lemma RefusalWrites(w: World, upgrade: bool, role: Option<Role>, id: ConnectionId, nowMs: int)
    requires Fetch(w, upgrade, role, id, nowMs).1 != Accepted
    ensures var (after, response) := Fetch(w, upgrade, role, id, nowMs); var state := LoadState(w, nowMs);
            && after.sockets == w.sockets && after.outbox == w.outbox && after.closing == w.closing
            && (response.Rejected? ==> after.row == w.row && after.alarm == w.alarm)
            && (response.RejectedInBand? ==>
                  && after.row.Some? && after.row.value.state == state && after.row.value.joinWindow.Some?
                  && after.alarm == Some(if state.lastActivityMs + 600000 <= state.createdAtMs + 7200000
                                         then state.lastActivityMs + 600000 else state.createdAtMs + 7200000))
  {
    hide L.TryConsume, ClaimHost, JoinGuest, ToRole, CloseCode;
  }

  // What the reducer makes of the row when it agrees.
  lemma ClaimWrites(state: Room, role: Role, id: ConnectionId, nowMs: int)
    requires (if role == HostRole then ClaimHost(state, id, nowMs) else JoinGuest(state, id, nowMs)).Ok?
    requires if role == HostRole then state.phase == WaitingForHost && state.guestIds == [] else state.phase == Open
    ensures var next := (if role == HostRole then ClaimHost(state, id, nowMs) else JoinGuest(state, id, nowMs)).value;
            && next.phase == Open && next.createdAtMs == state.createdAtMs && next.lastActivityMs == nowMs
            && next.code == state.code
            && NextAlarmMs(next) == (if nowMs + 600000 <= state.createdAtMs + 7200000 then nowMs + 600000
                                     else state.createdAtMs + 7200000)
            && (role == HostRole ==> next.hostId == Some(id) && next.guestIds == [])
            && (role == GuestRole ==> next.hostId == state.hostId && next.guestIds == state.guestIds + [id])
  {
  }

  lemma GuestIsAnnounced(w: World, id: ConnectionId, nowMs: int)
    requires Inv(w) && LoadState(w, nowMs).phase == Open && w.row.Some?
    ensures var (state, newcomer) := (LoadState(w, nowMs), Socket(id, GuestRole));
            && state.hostId.Some?
            && var host := Socket(state.hostId.value, HostRole);
               w.outbox + [Sent(newcomer, Joined(state.code))]
               + ToRole(w.sockets + [newcomer], HostRole, GuestJoined(id))
               == w.outbox + [Sent(newcomer, Joined(state.code)), Sent(host, GuestJoined(id))]
  {
    assert LoadState(w, nowMs) == Current(w);
    hide Inv, ToRole;
    var host := OpenRoom(w);
    HostIsTold(host, Current(w).guestIds, Socket(id, GuestRole), GuestJoined(id));
    TwoFrames(w.outbox, Sent(Socket(id, GuestRole), Joined(Current(w).code)), Sent(host, GuestJoined(id)));
  }

  // An accepted attempt writes what the reducer made of the row.
  lemma AcceptedFields(w: World, role: Role, id: ConnectionId, nowMs: int)
    requires Fetch(w, true, Some(role), id, nowMs).1 == Accepted
    ensures var (after, state) := (Fetch(w, true, Some(role), id, nowMs).0, LoadState(w, nowMs));
            var newcomer := Socket(id, role);
            var claim := if role == HostRole then ClaimHost(state, id, nowMs) else JoinGuest(state, id, nowMs);
            && claim.Ok? && after.row.Some? && after.row.value.state == claim.value
            && after.sockets == w.sockets + [newcomer] && after.alarm == Some(NextAlarmMs(claim.value))
            && (role == HostRole ==> after.outbox == w.outbox + [Sent(newcomer, Created(claim.value.code))])
            && (role == GuestRole ==>
                  after.outbox == w.outbox + [Sent(newcomer, Joined(claim.value.code))]
                                + ToRole(w.sockets + [newcomer], HostRole, GuestJoined(id)))
  {
    hide L.TryConsume, ClaimHost, JoinGuest, NextAlarmMs, ToRole;
    var none: seq<Sent> := [];
    assert forall outbox: seq<Sent> :: outbox + none == outbox;
  }

  lemma WaitingIsEmpty(w: World, nowMs: int)
    requires Inv(w)
    ensures LoadState(w, nowMs).phase == WaitingForHost ==> LoadState(w, nowMs).guestIds == []
    ensures LoadState(w, nowMs).phase == Open ==> w.row.Some? && LoadState(w, nowMs).hostId.Some?
  {
    hide L.Run, Mirror, Claimants, Bereaved;
  }

  lemma HostIsTold(host: Socket, guests: seq<ConnectionId>, newcomer: Socket, frame: Frame)
    requires host.role == HostRole && newcomer.role == GuestRole
    ensures ToRole([host] + GuestSockets(guests) + [newcomer], HostRole, frame) == [Sent(host, frame)]
  {
    ToRoleAppend([host] + GuestSockets(guests), [newcomer], HostRole, frame);
    ToRoleOne(newcomer, HostRole, frame);
    OpenRoomRecipients(host.id, guests, frame);
    hide ToRole;
  }

  lemma TwoFrames(outbox: seq<Sent>, first: Sent, second: Sent)
    ensures outbox + [first] + [second] == outbox + [first, second]
  {
  }

  // ----- a room fills up -----

  lemma {:induction false} OneStepFurther(w: World, es: seq<Event>, e: Event)
    requires AllEnabled(w, es) && Enabled(Run(w, es), e)
    ensures AllEnabled(w, es + [e]) && Run(w, es + [e]) == Step(Run(w, es), e)
    decreases es
  {
    hide Step, Enabled;
    if es == [] {
      assert es + [e] == [e] + [];
      NoEvents(Step(w, e));
      OneMoreEvent(w, e, []);
    } else {
      assert es + [e] == [es[0]] + (es[1..] + [e]) && es == [es[0]] + es[1..];
      OneMoreEvent(w, es[0], es[1..] + [e]);
      OneMoreEvent(w, es[0], es[1..]);
      OneStepFurther(Step(w, es[0]), es[1..], e);
    }
  }

  lemma ReachableStep(w: World, e: Event)
    requires Reachable(w) && Enabled(w, e)
    ensures Reachable(Step(w, e))
  {
    var code: string, t: int, es: seq<Event> :| AllEnabled(Start(code, t), es) && w == Run(Start(code, t), es);
    hide Step, Enabled;
    OneStepFurther(Start(code, t), es, e);
    var longer := es + [e];
    assert AllEnabled(Start(code, t), longer) && Step(w, e) == Run(Start(code, t), longer);
  }

  // A reached room with this many guests, all of whom came at once.
  ghost predicate Seats(w: World, n: nat) {
    && Reachable(w) && w.nowMs == 0 && w.row.Some?
    && w.row.value.state.phase == Open && |w.row.value.state.guestIds| == n
    && w.row.value.state.createdAtMs == 0 && w.row.value.state.lastActivityMs == 0
    && w.row.value.joinWindow == Some(L.FixedWindowState(0, n + 1))
    && forall id :: id in w.issued ==> |id| <= n
  }

  function NameOfLength(n: nat): (id: ConnectionId)
    ensures |id| == n
  {
    seq(n, _ => 'g')
  }

  lemma StartIsReachable(code: string)
    ensures Reachable(Start(code, 0)) && Start(code, 0).issued == {}
  {
    NoEvents(Start(code, 0));
  }

  lemma WindowCounts(w: World, id: ConnectionId, role: Role)
    requires Fetch(w, true, Some(role), id, 0).1 == Accepted && WindowHasRoom(w, 0)
    requires w.row.Some? && w.row.value.joinWindow.Some? ==>
               w.row.value.joinWindow.value.windowStartMs == 0 && w.row.value.joinWindow.value.count < 20
    ensures var after := Fetch(w, true, Some(role), id, 0).0;
            && after.nowMs == 0 && after.issued == w.issued + {id} && after.row.Some?
            && after.row.value.joinWindow
               == Some(L.FixedWindowState(0, if w.row.None? || w.row.value.joinWindow.None? then 1
                                              else w.row.value.joinWindow.value.count + 1))
  {
    hide ClaimHost, JoinGuest, NextAlarmMs, ToRole;
  }

  lemma HostSeats(code: string) returns (w: World)
    ensures Seats(w, 0)
  {
    var start := Start(code, 0);
    StartIsReachable(code);
    var e := FetchEvent(true, Some(HostRole), NameOfLength(0), 0);
    AdmittedExactly(start, true, Some(HostRole), NameOfLength(0), 0);
    AdmissionWrites(start, HostRole, NameOfLength(0), 0);
    WindowCounts(start, NameOfLength(0), HostRole);
    ReachableStep(start, e);
    hide Fetch, Reachable;
    w := Step(start, e);
  }

  lemma NextGuest(w: World, n: nat) returns (next: World)
    requires Seats(w, n) && n < 7
    ensures Seats(next, n + 1)
  {
    var id := NameOfLength(n + 1);
    var e := FetchEvent(true, Some(GuestRole), id, 0);
    assert Enabled(w, e);
    hide Reachable, Fetch;
    AdmittedExactly(w, true, Some(GuestRole), id, 0);
    AdmissionWrites(w, GuestRole, id, 0);
    WindowCounts(w, id, GuestRole);
    ReachableStep(w, e);
    next := Step(w, e);
  }

  // Some run seats a host and any number of guests up to seven.
  lemma {:induction false} RoomForSeven(code: string, n: nat) returns (w: World)
    requires n <= 7
    ensures Reachable(w) && Current(w).phase == Open && |Current(w).guestIds| == n && Seats(w, n)
  {
    if n == 0 {
      w := HostSeats(code);
    } else {
      var before := RoomForSeven(code, n - 1);
      w := NextGuest(before, n - 1);
    }
  }

  lemma SevenGuestsFit()
    ensures exists w :: Reachable(w) && Current(w).phase == Open && |Current(w).guestIds| == 7
  {
    var w := RoomForSeven("", 7);
  }
}
