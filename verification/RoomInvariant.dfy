// What every run of the signalling room keeps.
module RoomInvariant {
  import opened Results
  import opened RoomState
  import L = RateLimiter
  import opened RoomSteps

  function GuestSockets(ids: seq<ConnectionId>): seq<Socket> {
    if ids == [] then [] else GuestSockets(ids[..|ids| - 1]) + [Socket(ids[|ids| - 1], GuestRole)]
  }

  // The guests a host knows of from the frames it was sent, in the order it
  // learned of them.
  function Mirror(outbox: seq<Sent>, host: Socket): seq<ConnectionId> {
    if outbox == [] then []
    else
      var known := Mirror(outbox[..|outbox| - 1], host);
      var last := outbox[|outbox| - 1];
      if last.to != host then known
      else if last.frame.GuestJoined? then known + [last.frame.guestId]
      else if last.frame.GuestLeft? then Without(known, last.frame.guestId)
      else known
  }

  // The sockets that were sent a frame announcing the host's departure.
  function Bereaved(outbox: seq<Sent>): seq<Socket> {
    if outbox == [] then []
    else
      var rest := Bereaved(outbox[..|outbox| - 1]);
      var last := outbox[|outbox| - 1];
      if last.frame == HostLeft then rest + [last.to] else rest
  }

  // The sockets that were told the room is theirs.
  function Claimants(outbox: seq<Sent>): seq<Socket> {
    if outbox == [] then []
    else
      var rest := Claimants(outbox[..|outbox| - 1]);
      var last := outbox[|outbox| - 1];
      if last.frame.Created? then rest + [last.to] else rest
  }

  // The row the object would load at its latest time.
  function Current(w: World): Room {
    LoadState(w, w.nowMs)
  }

  // The live sockets are exactly the row's host and guests, in join order.
  ghost predicate SocketsMatchRow(w: World) {
    var state := Current(w);
    && (state.phase == WaitingForHost ==> w.accepted == {} && w.sockets == [])
    && (state.phase == Open && state.hostId.Some? ==>
          w.sockets == [Socket(state.hostId.value, HostRole)] + GuestSockets(state.guestIds))
  }

  ghost predicate IdentitiesUnique(w: World) {
    Identities(w.sockets, w.accepted, w.issued, w.outbox)
  }

  ghost predicate Identities(sockets: seq<Socket>, accepted: set<Socket>, issued: set<ConnectionId>, outbox: seq<Sent>)
  {
    && (forall s :: s in sockets ==> s in accepted)
    && (forall s :: s in accepted ==> s.id in issued)
    && (forall s, t :: s in accepted && t in accepted && s.id == t.id ==> s == t)
    && (forall s, t :: s in accepted && t in accepted && s.role == t.role == HostRole ==> s == t)
    && (forall i :: 0 <= i < |outbox| ==> outbox[i].to in accepted)
  }

  ghost predicate HostIsInformed(w: World) {
    var state := Current(w);
    state.phase == Open && state.hostId.Some? ==>
      Mirror(w.outbox, Socket(state.hostId.value, HostRole)) == state.guestIds
  }

  // While the row is not closed the alarm is exactly at its deadline; once it
  // is, an alarm is pending or every live socket has been told to close.
  ghost predicate AlarmCovers(w: World) {
    var state := Current(w);
    && (w.row.None? ==> w.alarm.None?)
    && (w.row.Some? && state.phase != Closed ==> w.alarm == Some(NextAlarmMs(state)))
    && (state.phase != Closed ==> w.closing == {})
    && (state.phase == Closed && w.alarm.None? ==> forall s :: s in w.sockets ==> s in w.closing)
  }

  // Each room is claimed at most once, and the host's departure announced at
  // most when it closes.
  ghost predicate AnnouncedOnce(w: World) {
    && (Current(w).phase == WaitingForHost ==> Claimants(w.outbox) == [])
    && |Claimants(w.outbox)| <= 1
    && (Current(w).phase != Closed ==> Bereaved(w.outbox) == [])
  }

  ghost predicate LimiterExact(w: World) {
    && L.Sorted(w.attempts)
    && (w.attempts != [] ==> w.attempts[|w.attempts| - 1] <= w.nowMs)
    && L.Run(w.attempts, JOIN_RATE_LIMIT) == L.History(LoadJoinWindow(w), w.passed)
  }

  ghost predicate Inv(w: World) {
    && WellFormed(Current(w), w.nowMs)
    && SocketsMatchRow(w)
    && IdentitiesUnique(w)
    && HostIsInformed(w)
    && AlarmCovers(w)
    && AnnouncedOnce(w)
    && LimiterExact(w)
  }

  lemma StartInv(code: string, nowMs: int)
    ensures Inv(Start(code, nowMs))
  {
  }

  // ---- Sending ----

  lemma {:induction false} ToRoleOfGuests(ids: seq<ConnectionId>, role: Role, frame: Frame)
    ensures role == HostRole ==> ToRole(GuestSockets(ids), role, frame) == []
    ensures role == GuestRole ==>
              |ToRole(GuestSockets(ids), role, frame)| == |ids| == |GuestSockets(ids)|
              && forall i :: 0 <= i < |ids| ==>
                   ToRole(GuestSockets(ids), role, frame)[i] == Sent(Socket(ids[i], GuestRole), frame)
  {
    if ids != [] {
      var most, last := ids[..|ids| - 1], ids[|ids| - 1];
      assert ids == most + [last];
      ToRoleOfGuests(most, role, frame);
      GuestSocketsAppend(most, last);
      GuestSocketsAt(most);
      hide ToRole, GuestSockets;
      ToRoleAppend(GuestSockets(most), [Socket(last, GuestRole)], role, frame);
      ToRoleOne(Socket(last, GuestRole), role, frame);
    }
  }

  lemma {:induction false} GuestSocketsAt(ids: seq<ConnectionId>)
    ensures |GuestSockets(ids)| == |ids|
    ensures forall i :: 0 <= i < |ids| ==> GuestSockets(ids)[i] == Socket(ids[i], GuestRole)
  {
    if ids != [] {
      GuestSocketsAt(ids[..|ids| - 1]);
    }
  }

  lemma {:induction false} ToRoleAppend(a: seq<Socket>, b: seq<Socket>, role: Role, frame: Frame)
    ensures ToRole(a + b, role, frame) == ToRole(a, role, frame) + ToRole(b, role, frame)
  {
    if b == [] {
      assert a + b == a;
    } else {
      assert (a + b)[..|a + b| - 1] == a + b[..|b| - 1];
      ToRoleAppend(a, b[..|b| - 1], role, frame);
    }
  }

  lemma ToRoleOne(s: Socket, role: Role, frame: Frame)
    ensures ToRole([s], role, frame) == if s.role == role then [Sent(s, frame)] else []
  {
    assert [s][..0] == [];
  }

  // In an open room a frame for the host reaches the host only, and a frame
  // for the guests each guest once.
  lemma OpenRoomRecipients(host: ConnectionId, guests: seq<ConnectionId>, frame: Frame)
    ensures var sockets := [Socket(host, HostRole)] + GuestSockets(guests);
            && ToRole(sockets, HostRole, frame) == [Sent(Socket(host, HostRole), frame)]
            && ToRole(sockets, GuestRole, frame) == ToRole(GuestSockets(guests), GuestRole, frame)
  {
    var h := Socket(host, HostRole);
    forall role: Role
      ensures ToRole([h] + GuestSockets(guests), role, frame)
              == ToRole([h], role, frame) + ToRole(GuestSockets(guests), role, frame)
    {
      ToRoleAppend([h], GuestSockets(guests), role, frame);
    }
    ToRoleOne(h, HostRole, frame);
    ToRoleOne(h, GuestRole, frame);
    ToRoleOfGuests(guests, HostRole, frame);
  }

  // ---- Dropping a socket ----

  lemma {:induction false} DroppedAppend(a: seq<Socket>, b: seq<Socket>, s: Socket)
    ensures Dropped(a + b, s) == Dropped(a, s) + Dropped(b, s)
  {
    if a == [] {
      assert a + b == b;
    } else {
      assert (a + b)[1..] == a[1..] + b;
      DroppedAppend(a[1..], b, s);
    }
  }

  lemma {:induction false} DroppedMembers(sockets: seq<Socket>, s: Socket)
    ensures forall t :: t in Dropped(sockets, s) <==> t in sockets && t != s
    ensures s !in sockets ==> Dropped(sockets, s) == sockets
    ensures s in sockets ==> |Dropped(sockets, s)| < |sockets|
    ensures |Dropped(sockets, s)| <= |sockets|
  {
    if sockets != [] {
      DroppedMembers(sockets[1..], s);
    }
  }

  lemma {:induction false} DroppedGuest(ids: seq<ConnectionId>, id: ConnectionId)
    ensures Dropped(GuestSockets(ids), Socket(id, GuestRole)) == GuestSockets(Without(ids, id))
  {
    if ids != [] {
      var most, last := ids[..|ids| - 1], ids[|ids| - 1];
      var s, t := Socket(id, GuestRole), Socket(last, GuestRole);
      assert ids == most + [last];
      DroppedGuest(most, id);
      DroppedAppend(GuestSockets(most), [t], s);
      WithoutAppend(most, [last], id);
      assert Dropped([t], s) == if t == s then [] else [t];
      assert Without([last], id) == if last == id then [] else [last];
      GuestSocketsAppend(Without(most, id), last);
      assert Without(ids, id) == if last == id then Without(most, id) else Without(most, id) + [last];
    }
  }

  lemma GuestSocketsAppend(ids: seq<ConnectionId>, id: ConnectionId)
    ensures GuestSockets(ids + [id]) == GuestSockets(ids) + [Socket(id, GuestRole)]
  {
    assert (ids + [id])[..|ids|] == ids;
  }

  // ---- Reading the frames sent so far ----

  lemma {:induction false} MirrorAppend(outbox: seq<Sent>, more: seq<Sent>, host: Socket)
    requires forall i :: 0 <= i < |more| ==>
               more[i].to != host || !(more[i].frame.GuestJoined? || more[i].frame.GuestLeft?)
    ensures Mirror(outbox + more, host) == Mirror(outbox, host)
  {
    if more == [] {
      assert outbox + more == outbox;
    } else {
      assert (outbox + more)[..|outbox + more| - 1] == outbox + more[..|more| - 1];
      MirrorAppend(outbox, more[..|more| - 1], host);
    }
  }

  lemma MirrorOne(outbox: seq<Sent>, sent: Sent, host: Socket)
    requires sent.to == host
    ensures sent.frame.GuestJoined? ==> Mirror(outbox + [sent], host) == Mirror(outbox, host) + [sent.frame.guestId]
    ensures sent.frame.GuestLeft? ==> Mirror(outbox + [sent], host) == Without(Mirror(outbox, host), sent.frame.guestId)
  {
    assert (outbox + [sent])[..|outbox|] == outbox;
  }

  lemma {:induction false} MirrorOfStranger(outbox: seq<Sent>, host: Socket)
    requires forall i :: 0 <= i < |outbox| ==> outbox[i].to != host
    ensures Mirror(outbox, host) == []
  {
    if outbox != [] {
      MirrorOfStranger(outbox[..|outbox| - 1], host);
    }
  }

  lemma {:induction false} AnnouncementsAppend(outbox: seq<Sent>, more: seq<Sent>)
    ensures Claimants(outbox + more) == Claimants(outbox) + Claimants(more)
    ensures Bereaved(outbox + more) == Bereaved(outbox) + Bereaved(more)
  {
    if more == [] {
      assert outbox + more == outbox;
    } else {
      assert (outbox + more)[..|outbox + more| - 1] == outbox + more[..|more| - 1];
      AnnouncementsAppend(outbox, more[..|more| - 1]);
    }
  }

  lemma {:induction false} NoAnnouncements(more: seq<Sent>)
    requires forall i :: 0 <= i < |more| ==> !more[i].frame.Created?
    ensures Claimants(more) == []
    ensures (forall i :: 0 <= i < |more| ==> more[i].frame != HostLeft) ==> Bereaved(more) == []
  {
    if more != [] {
      NoAnnouncements(more[..|more| - 1]);
    }
  }

  lemma {:induction false} SentToLive(sockets: seq<Socket>, role: Role, ids: seq<ConnectionId>, frame: Frame)
    ensures forall i :: 0 <= i < |ToRole(sockets, role, frame)| ==>
              ToRole(sockets, role, frame)[i].to in sockets && ToRole(sockets, role, frame)[i].frame == frame
    ensures forall i :: 0 <= i < |ToIds(sockets, ids, frame)| ==>
              ToIds(sockets, ids, frame)[i].to in sockets && ToIds(sockets, ids, frame)[i].frame == frame
  {
    if sockets != [] {
      SentToLive(sockets[..|sockets| - 1], role, ids, frame);
    }
  }

  // The one shape an open room can have.
  lemma OpenRoom(w: World) returns (host: Socket)
    requires Inv(w) && Current(w).phase == Open
    ensures host.role == HostRole && Current(w).hostId == Some(host.id)
    ensures host in w.accepted && w.sockets == [host] + GuestSockets(Current(w).guestIds)
    ensures Current(w).phase == Open && WellFormed(Current(w), w.nowMs) && w.row.Some?
    ensures forall s :: s in w.accepted && s.id == host.id ==> s == host
    ensures forall s :: s in w.accepted && s.role == HostRole ==> s == host
  {
    host := Socket(Current(w).hostId.value, HostRole);
    assert host in w.sockets;
  }

  // ---- Every step keeps the invariant ----

  lemma TimePasses(w: World, nowMs: int)
    requires Inv(w) && w.nowMs <= nowMs
    ensures Inv(w.(nowMs := nowMs))
  {
    hide L.Run;
  }

  // Frames that announce nothing leave what has been announced as it was.
  ghost predicate Plain(w: World, more: seq<Sent>) {
    forall i :: 0 <= i < |more| ==>
      && more[i].to in w.accepted
      && !more[i].frame.Created? && more[i].frame != HostLeft
      && !more[i].frame.GuestJoined? && !more[i].frame.GuestLeft?
  }

  lemma PlainFramesKeep(w: World, more: seq<Sent>)
    requires Inv(w) && Plain(w, more)
    ensures Inv(w.(outbox := w.outbox + more))
  {
    hide L.Run, L.Sorted, WellFormed, NextAlarmMs, GuestSockets, Mirror, Claimants, Bereaved;
    var state := Current(w);
    if state.hostId.Some? {
      MirrorAppend(w.outbox, more, Socket(state.hostId.value, HostRole));
    }
    AnnouncementsAppend(w.outbox, more);
    NoAnnouncements(more);
    assert w.outbox + [] == w.outbox;
  }

  // An attempt the limiter refuses, and one it admits.
  lemma LimiterCounts(w: World, nowMs: int)
    requires LimiterExact(w) && w.nowMs <= nowMs
    ensures L.Sorted(w.attempts + [nowMs])
    ensures L.Run(w.attempts + [nowMs], JOIN_RATE_LIMIT)
            == match L.TryConsume(LoadJoinWindow(w), nowMs, JOIN_RATE_LIMIT)
               case Ok(window) => L.History(Some(window), w.passed + [nowMs])
               case Err(_) => L.History(LoadJoinWindow(w), w.passed)
  {
    var all := w.attempts + [nowMs];
    assert all[..|all| - 1] == w.attempts;
    assert forall i :: 0 <= i < |w.attempts| ==> w.attempts[i] <= w.attempts[|w.attempts| - 1];
  }

  lemma FetchKeeps(w: World, upgrade: bool, role: Option<Role>, id: ConnectionId, nowMs: int)
    requires Inv(w) && w.nowMs <= nowMs && id !in w.issued
    ensures Inv(Fetch(w, upgrade, role, id, nowMs).0)
  {
    hide L.Run, L.TryConsume, Mirror, Claimants, Bereaved, NextAlarmMs;
    TimePasses(w, nowMs);
    LimiterCounts(w, nowMs);
    if upgrade && role.Some? {
      var state := LoadState(w, nowMs);
      match L.TryConsume(LoadJoinWindow(w), nowMs, JOIN_RATE_LIMIT)
      case Err(_) =>
      case Ok(window) =>
        var passing := w.(nowMs := nowMs, attempts := w.attempts + [nowMs], passed := w.passed + [nowMs],
                          issued := w.issued + {id});
        match (if role.value == HostRole then ClaimHost(state, id, nowMs) else JoinGuest(state, id, nowMs))
        case Err(_) =>
          RefusalKeeps(w, passing, window);
        case Ok(next) =>
          if role.value == HostRole {
            HostAdmissionKeeps(w, passing, id, window);
          } else {
            GuestAdmissionKeeps(w, passing, id, window);
          }
    }
  }

  // A world that differs from a good one by an admitted attempt not yet saved.
  ghost predicate Attempted(w: World, passing: World, window: L.FixedWindowState) {
    && Inv(w) && w.nowMs <= passing.nowMs
    && w.issued <= passing.issued
    && passing == w.(nowMs := passing.nowMs, attempts := passing.attempts, passed := passing.passed,
                     issued := passing.issued)
    && L.Sorted(passing.attempts)
    && passing.attempts != [] && passing.attempts[|passing.attempts| - 1] == passing.nowMs
    && L.Run(passing.attempts, JOIN_RATE_LIMIT) == L.History(Some(window), passing.passed)
  }

  lemma RefusalKeeps(w: World, passing: World, window: L.FixedWindowState)
    requires Attempted(w, passing, window)
    ensures var state := LoadState(w, passing.nowMs);
            Inv(SaveState(passing, state, Some(window)).(alarm := Some(NextAlarmMs(state))))
  {
    hide L.Run, L.Sorted, Mirror, Claimants, Bereaved, NextAlarmMs;
    TimePasses(w, passing.nowMs);
  }

  lemma HostAdmissionKeeps(w: World, passing: World, id: ConnectionId, window: L.FixedWindowState)
    requires Attempted(w, passing, window) && id !in w.issued && id in passing.issued
    requires ClaimHost(LoadState(w, passing.nowMs), id, passing.nowMs).Ok?
    ensures var next := ClaimHost(LoadState(w, passing.nowMs), id, passing.nowMs).value;
            Inv(Admit(passing, Socket(id, HostRole), next, window))
  {
    hide L.Run, L.Sorted, NextAlarmMs;
    var state, host := LoadState(w, passing.nowMs), Socket(id, HostRole);
    TimePasses(w, passing.nowMs);
    ClaimKeeps(state, id, passing.nowMs, passing.nowMs);
    var next := ClaimHost(state, id, passing.nowMs).value;
    var after := Admit(passing, host, next, window);
    NothingSentYet(w);
    assert after.outbox == [Sent(host, Created(next.code))];
    assert after.outbox[..0] == [];
    assert after.sockets == [host] + GuestSockets([]);
    MirrorAppend([], after.outbox, host);
    assert [] + after.outbox == after.outbox;
  }

  // Accepting at most one newcomer, a guest with a fresh id, and sending to
  // accepted sockets only keeps identities unique.
  lemma IdentitiesGrow(w: World, newcomers: set<Socket>, issued: set<ConnectionId>, sockets: seq<Socket>,
                       more: seq<Sent>)
    requires IdentitiesUnique(w) && w.issued <= issued
    requires forall s :: s in newcomers ==> s.role == GuestRole && s.id !in w.issued && s.id in issued
    requires forall s, t :: s in newcomers && t in newcomers ==> s == t
    requires forall s :: s in sockets ==> s in w.sockets || s in newcomers
    requires forall i :: 0 <= i < |more| ==> more[i].to in w.accepted || more[i].to in newcomers
    ensures Identities(sockets, w.accepted + newcomers, issued, w.outbox + more)
  {
  }

  lemma NothingSentYet(w: World)
    requires IdentitiesUnique(w)
    ensures |w.outbox| > 0 ==> w.outbox[0].to in w.accepted
  {
  }

  // What makes a room with an open row a good one.
  lemma OpenRowInv(w: World, state: Room, host: Socket)
    requires w.row.Some? && w.row.value.state == state && state.phase == Open && state.hostId == Some(host.id)
    requires host.role == HostRole && w.sockets == [host] + GuestSockets(state.guestIds)
    requires WellFormed(state, w.nowMs) && w.alarm == Some(NextAlarmMs(state)) && w.closing == {}
    requires Mirror(w.outbox, host) == state.guestIds
    requires |Claimants(w.outbox)| <= 1 && Bereaved(w.outbox) == []
    requires IdentitiesUnique(w) && LimiterExact(w)
    ensures Inv(w)
  {
    hide WellFormed, IdentitiesUnique, LimiterExact, Mirror, Claimants, Bereaved, GuestSockets, NextAlarmMs;
    assert host == Socket(state.hostId.value, HostRole);
  }

  // And what an open room has.
  lemma OpenRowHas(w: World, host: Socket)
    requires Inv(w) && Current(w).phase == Open && Current(w).hostId == Some(host.id) && host.role == HostRole
    ensures |Claimants(w.outbox)| <= 1 && Bereaved(w.outbox) == [] && w.closing == {}
    ensures IdentitiesUnique(w) && LimiterExact(w) && w.alarm == Some(NextAlarmMs(Current(w)))
  {
    hide WellFormed, IdentitiesUnique, LimiterExact, Mirror, Claimants, Bereaved, GuestSockets, NextAlarmMs;
  }

  lemma AttemptedHas(w: World, passing: World, window: L.FixedWindowState)
    requires Attempted(w, passing, window)
    ensures Inv(w) && w.nowMs <= passing.nowMs && w.issued <= passing.issued
    ensures passing.row == w.row && passing.sockets == w.sockets && passing.accepted == w.accepted
    ensures passing.outbox == w.outbox && passing.closing == w.closing && passing.code == w.code
  {
    hide Inv, L.Run, L.Sorted;
  }

  lemma LimiterSaved(w: World, passing: World, window: L.FixedWindowState, after: World)
    requires Attempted(w, passing, window) && after.row.Some? && after.row.value.joinWindow == Some(window)
    requires after.attempts == passing.attempts && after.passed == passing.passed && after.nowMs == passing.nowMs
    ensures LimiterExact(after)
  {
    hide Inv, L.Run, L.Sorted;
  }

  lemma GuestAdmissionKeeps(w: World, passing: World, id: ConnectionId, window: L.FixedWindowState)
    requires Attempted(w, passing, window) && id !in w.issued && id in passing.issued
    requires JoinGuest(LoadState(w, passing.nowMs), id, passing.nowMs).Ok?
    ensures var next := JoinGuest(LoadState(w, passing.nowMs), id, passing.nowMs).value;
            Inv(Admit(passing, Socket(id, GuestRole), next, window))
  {
    AttemptedHas(w, passing, window);
    var next := JoinGuest(LoadState(w, passing.nowMs), id, passing.nowMs).value;
    var after := Admit(passing, Socket(id, GuestRole), next, window);
    assert Current(w).phase == Open && w.row.Some? by {
      hide Inv, Attempted, Admit;
      JoinsOpen(w, id, passing.nowMs);
    }
    var host := OpenRoom(w);
    OpenRowHas(w, host);
    hide Inv, Attempted, Admit, JoinGuest, WellFormed, NextAlarmMs, Mirror, Claimants, Bereaved, GuestSockets;
    hide LimiterExact, Identities, Touch;
    assert host.id != id by { HostIsOld(w, host); }
    GuestAdmission(w, passing, host, id, window);
    GuestAdmissionAnnounced(w, id, host);
    GuestAdmissionIdentities(w, id, host, passing.issued);
    LimiterSaved(w, passing, window, after);
    OpenRowInv(after, next, host);
  }

  lemma JoinsOpen(w: World, id: ConnectionId, nowMs: int)
    requires JoinGuest(LoadState(w, nowMs), id, nowMs).Ok?
    ensures Current(w).phase == Open && w.row.Some?
  {
  }

  lemma HostIsOld(w: World, host: Socket)
    requires Inv(w) && host in w.accepted
    ensures host.id in w.issued
  {
    hide WellFormed, SocketsMatchRow, HostIsInformed, AlarmCovers, AnnouncedOnce, LimiterExact;
  }

  lemma GuestAdmissionIdentities(w: World, id: ConnectionId, host: Socket, issued: set<ConnectionId>)
    requires IdentitiesUnique(w) && w.issued <= issued && id !in w.issued && id in issued
    requires w.sockets == [host] + GuestSockets(Current(w).guestIds)
    ensures var guest := Socket(id, GuestRole);
            Identities([host] + GuestSockets(Current(w).guestIds + [id]), w.accepted + {guest}, issued,
                       w.outbox + [Sent(guest, Joined(Current(w).code))] + [Sent(host, GuestJoined(id))])
  {
    hide Identities, GuestSockets, Current;
    var guest := Socket(id, GuestRole);
    GuestSocketsAppend(Current(w).guestIds, id);
    assert host in w.sockets;
    SocketsAccepted(w);
    var news := [Sent(guest, Joined(Current(w).code)), Sent(host, GuestJoined(id))];
    IdentitiesGrow(w, {guest}, issued, w.sockets + [guest], news);
    assert w.outbox + news == w.outbox + [news[0]] + [news[1]];
    assert w.sockets + [guest] == [host] + GuestSockets(Current(w).guestIds + [id]);
  }

  lemma SocketsAccepted(w: World)
    requires IdentitiesUnique(w)
    ensures forall s :: s in w.sockets ==> s in w.accepted
  {
  }

  lemma GuestSocketsMembers(ids: seq<ConnectionId>)
    ensures forall s: Socket :: s in GuestSockets(ids) <==> s.role == GuestRole && s.id in ids
  {
    GuestSocketsAt(ids);
    forall s: Socket | s.role == GuestRole && s.id in ids
      ensures s in GuestSockets(ids)
    {
      var i :| 0 <= i < |ids| && ids[i] == s.id;
      assert GuestSockets(ids)[i] == s;
    }
  }

  // What admitting a guest writes.
  lemma GuestAdmission(w: World, passing: World, host: Socket, id: ConnectionId, window: L.FixedWindowState)
    requires Current(w).hostId == Some(host.id) && host.role == HostRole && host.id != id
    requires w.row.Some? && w.sockets == [host] + GuestSockets(Current(w).guestIds)
    requires WellFormed(Current(w), w.nowMs) && w.nowMs <= passing.nowMs
    requires passing.row == w.row && passing.sockets == w.sockets && passing.accepted == w.accepted
    requires passing.outbox == w.outbox
    requires JoinGuest(LoadState(w, passing.nowMs), id, passing.nowMs).Ok?
    ensures Current(w) == LoadState(w, passing.nowMs)
    ensures var next := JoinGuest(Current(w), id, passing.nowMs).value;
            && next == Touch(Current(w).(guestIds := Current(w).guestIds + [id]), passing.nowMs)
            && WellFormed(next, passing.nowMs)
            && Admit(passing, Socket(id, GuestRole), next, window)
               == passing.(
                    row := Some(Row(next, Some(window))),
                    sockets := [host] + GuestSockets(next.guestIds),
                    accepted := w.accepted + {Socket(id, GuestRole)},
                    alarm := Some(NextAlarmMs(next)),
                    outbox := w.outbox + [Sent(Socket(id, GuestRole), Joined(next.code))]
                              + [Sent(host, GuestJoined(id))])
  {
    var state, guest := Current(w), Socket(id, GuestRole);
    JoinKeeps(state, id, w.nowMs, passing.nowMs);
    var next := JoinGuest(state, id, passing.nowMs).value;
    assert next == Touch(state.(guestIds := state.guestIds + [id]), passing.nowMs);
    hide NextAlarmMs, WellFormed, JoinGuest, ToRole, GuestSockets;
    GuestSocketsAppend(state.guestIds, id);
    assert w.sockets + [guest] == [host] + GuestSockets(next.guestIds);
    OpenRoomRecipients(host.id, next.guestIds, GuestJoined(id));
  }

  lemma GuestAdmissionAnnounced(w: World, id: ConnectionId, host: Socket)
    requires Inv(w) && Current(w).phase == Open && Current(w).hostId == Some(host.id) && host.role == HostRole
    ensures var outbox := w.outbox + [Sent(Socket(id, GuestRole), Joined(Current(w).code))] + [Sent(host, GuestJoined(id))];
            && Mirror(outbox, host) == Current(w).guestIds + [id]
            && Claimants(outbox) == Claimants(w.outbox)
            && Bereaved(outbox) == Bereaved(w.outbox)
  {
    hide L.Run, L.Sorted, NextAlarmMs, Mirror, Claimants, Bereaved, WellFormed;
    var guest := Socket(id, GuestRole);
    var welcome, news := [Sent(guest, Joined(Current(w).code))], [Sent(host, GuestJoined(id))];
    MirrorAppend(w.outbox, welcome, host);
    MirrorOne(w.outbox + welcome, news[0], host);
    AnnouncementsAppend(w.outbox, welcome);
    AnnouncementsAppend(w.outbox + welcome, news);
    NoAnnouncements(welcome);
    NoAnnouncements(news);
  }

  lemma MessageKeeps(w: World, socket: Socket, message: Incoming, nowMs: int)
    requires Inv(w) && w.nowMs <= nowMs && socket in w.sockets
    ensures Inv(Message(w, socket, message, nowMs))
  {
    hide Inv, Relay;
    TimePasses(w, nowMs);
    var now := w.(nowMs := nowMs);
    forall reason: Reason
      ensures Inv(Reply(now, socket, reason))
    {
      ReplyKeeps(now, socket, reason);
    }
    forall toId: Option<ConnectionId>, byteLength: nat, frame: Frame | frame.SignalFromHost? || frame.SignalFromGuest?
      ensures Inv(Relay(now, socket, toId, byteLength, frame))
    {
      RelayKeeps(now, socket, toId, byteLength, frame);
    }
  }

  lemma ReplyKeeps(w: World, socket: Socket, reason: Reason)
    requires Inv(w) && socket in w.sockets
    ensures Inv(Reply(w, socket, reason))
  {
    PlainFramesKeep(w, [Sent(socket, ErrorFrame(reason))]);
  }

  lemma RelayKeeps(w: World, socket: Socket, toId: Option<ConnectionId>, byteLength: nat, frame: Frame)
    requires Inv(w) && socket in w.sockets && (frame.SignalFromHost? || frame.SignalFromGuest?)
    ensures Inv(Relay(w, socket, toId, byteLength, frame))
  {
    var state := LoadState(w, w.nowMs);
    match RouteSignal(state, RelayEnvelope(socket.id, toId, byteLength))
    case Err(reason) =>
      ReplyKeeps(w, socket, reason);
    case Ok(recipients) =>
      SentToLive(w.sockets, HostRole, recipients, frame);
      PlainFramesKeep(w, ToIds(w.sockets, recipients, frame));
      TouchKeeps(w.(outbox := w.outbox + ToIds(w.sockets, recipients, frame)));
  }

  lemma TouchKeeps(w: World)
    requires Inv(w) && Current(w).phase == Open
    ensures var touched := Touch(Current(w), w.nowMs);
            Inv(SaveState(w, touched, None).(alarm := Some(NextAlarmMs(touched))))
  {
    hide L.Run, L.Sorted, Mirror, Claimants, Bereaved, NextAlarmMs, GuestSockets;
  }

  lemma AlarmKeeps(w: World, nowMs: int)
    requires Inv(w) && w.nowMs <= nowMs && w.alarm.Some?
    ensures Inv(Alarm(w, nowMs))
  {
    hide L.Run, L.Sorted, Mirror, Claimants, Bereaved, NextAlarmMs, GuestSockets;
    TimePasses(w, nowMs);
  }

  lemma DisconnectKeeps(w: World, socket: Socket, nowMs: int)
    requires Inv(w) && w.nowMs <= nowMs && socket in w.accepted
    ensures Inv(Disconnect(w, socket, nowMs))
  {
    TimePasses(w, nowMs);
    var now := w.(nowMs := nowMs);
    if Current(now).phase == Closed {
      LateDisconnectKeeps(now, socket);
    } else if Current(now).hostId == Some(socket.id) {
      HostDepartureKeeps(now, socket);
    } else {
      GuestDepartureKeeps(now, socket);
    }
  }

  lemma LateDisconnectKeeps(w: World, socket: Socket)
    requires Inv(w) && socket in w.accepted && Current(w).phase == Closed
    ensures Inv(Disconnect(w, socket, w.nowMs))
  {
    hide L.Run, L.Sorted, Mirror, Claimants, Bereaved, NextAlarmMs, GuestSockets;
    DroppedMembers(w.sockets, socket);
    assert w.outbox + [] == w.outbox;
  }

  lemma HostDepartureKeeps(w: World, socket: Socket)
    requires Inv(w) && socket in w.accepted && Current(w).phase != Closed && Current(w).hostId == Some(socket.id)
    ensures Inv(Disconnect(w, socket, w.nowMs))
  {
    hide L.Run, L.Sorted, Mirror, Claimants, Bereaved, NextAlarmMs, GuestSockets;
    RemoveKeeps(Current(w), socket.id, w.nowMs, w.nowMs);
    DroppedMembers(w.sockets, socket);
    var left := Dropped(w.sockets, socket);
    var farewell := ToRole(left, GuestRole, HostLeft);
    SentToLive(left, GuestRole, [], HostLeft);
    AnnouncementsAppend(w.outbox, farewell);
    NoAnnouncements(farewell);
  }

  lemma GuestDepartureKeeps(w: World, socket: Socket)
    requires Inv(w) && socket in w.accepted && Current(w).phase != Closed && Current(w).hostId != Some(socket.id)
    ensures Inv(Disconnect(w, socket, w.nowMs))
  {
    AcceptedMeansOpen(w, socket);
    var after := Disconnect(w, socket, w.nowMs);
    var host := OpenRoom(w);
    OpenRowHas(w, host);
    hide Inv, Disconnect, WellFormed, NextAlarmMs, Dropped, Without, Mirror, Claimants, Bereaved, GuestSockets;
    hide LimiterExact, Identities, Touch;
    GuestDeparture(w, host, socket);
    GuestDepartureAnnounced(w, socket.id, host);
    DepartureIdentities(w, host, socket);
    LimiterKept(w, after);
    OpenRowInv(after, Current(w).(guestIds := Without(Current(w).guestIds, socket.id)), host);
  }

  lemma AcceptedMeansOpen(w: World, socket: Socket)
    requires Inv(w) && socket in w.accepted && Current(w).phase != Closed
    ensures Current(w).phase == Open
  {
    hide WellFormed, IdentitiesUnique, HostIsInformed, AlarmCovers, AnnouncedOnce, LimiterExact;
  }

  lemma LimiterKept(w: World, after: World)
    requires LimiterExact(w) && after.row.Some? && after.row.value.joinWindow == LoadJoinWindow(w)
    requires after.attempts == w.attempts && after.passed == w.passed && after.nowMs == w.nowMs
    ensures LimiterExact(after)
  {
    hide L.Run, L.Sorted;
  }

  lemma DepartureIdentities(w: World, host: Socket, socket: Socket)
    requires IdentitiesUnique(w) && host in w.accepted
    ensures Identities(Dropped(w.sockets, socket), w.accepted, w.issued,
                       w.outbox + [Sent(host, GuestLeft(socket.id))])
  {
    SocketsAccepted(w);
    hide Identities;
    DroppedMembers(w.sockets, socket);
    IdentitiesGrow(w, {}, w.issued, Dropped(w.sockets, socket), [Sent(host, GuestLeft(socket.id))]);
    assert w.accepted + {} == w.accepted;
  }

  // What a guest's departure from an open room writes; a departure reported a
  // second time writes the same room again.
  lemma GuestDeparture(w: World, host: Socket, socket: Socket)
    requires Current(w).hostId == Some(host.id) && host.role == HostRole && socket.role == GuestRole
    requires socket.id != host.id
    requires w.row.Some? && w.sockets == [host] + GuestSockets(Current(w).guestIds)
    requires WellFormed(Current(w), w.nowMs)
    ensures var next := Current(w).(guestIds := Without(Current(w).guestIds, socket.id));
            && WellFormed(next, w.nowMs)
            && NextAlarmMs(next) == NextAlarmMs(Current(w))
            && Disconnect(w, socket, w.nowMs)
               == w.(
                    row := Some(Row(next, LoadJoinWindow(w))),
                    sockets := Dropped(w.sockets, socket),
                    outbox := w.outbox + [Sent(host, GuestLeft(socket.id))])
            && Dropped(w.sockets, socket) == [host] + GuestSockets(next.guestIds)
  {
    var state := Current(w);
    var left := Without(state.guestIds, socket.id);
    GuestRemoved(state, socket.id, w.nowMs);
    hide WellFormed, RemoveConnection, Dropped, ToRole, GuestSockets, Without, NextAlarmMs;
    DroppedFromOpen(host, state.guestIds, socket.id);
    OpenRoomRecipients(host.id, left, GuestLeft(socket.id));
  }

  lemma GuestRemoved(state: Room, id: ConnectionId, nowMs: int)
    requires WellFormed(state, nowMs) && state.hostId.Some? && state.hostId != Some(id)
    ensures var next := state.(guestIds := Without(state.guestIds, id));
            && RemoveConnection(state, id) == next && WellFormed(next, nowMs)
            && NextAlarmMs(next) == NextAlarmMs(state) && next.phase == Open
  {
    RemoveKeeps(state, id, nowMs, nowMs);
    WithoutKeeps(state.guestIds, id);
  }

  lemma DroppedFromOpen(host: Socket, guests: seq<ConnectionId>, id: ConnectionId)
    requires host.role == HostRole
    ensures Dropped([host] + GuestSockets(guests), Socket(id, GuestRole)) == [host] + GuestSockets(Without(guests, id))
  {
    DroppedAppend([host], GuestSockets(guests), Socket(id, GuestRole));
    DroppedGuest(guests, id);
    assert Dropped([host], Socket(id, GuestRole)) == [host];
  }

  lemma GuestDepartureAnnounced(w: World, id: ConnectionId, host: Socket)
    requires Inv(w) && Current(w).phase == Open && Current(w).hostId == Some(host.id) && host.role == HostRole
    ensures var outbox := w.outbox + [Sent(host, GuestLeft(id))];
            && Mirror(outbox, host) == Without(Current(w).guestIds, id)
            && Claimants(outbox) == Claimants(w.outbox)
            && Bereaved(outbox) == Bereaved(w.outbox)
  {
    hide L.Run, L.Sorted, NextAlarmMs, Mirror, Claimants, Bereaved, WellFormed;
    var news := [Sent(host, GuestLeft(id))];
    MirrorOne(w.outbox, news[0], host);
    AnnouncementsAppend(w.outbox, news);
    NoAnnouncements(news);
  }

  lemma StepKeeps(w: World, e: Event)
    requires Inv(w) && Enabled(w, e)
    ensures Inv(Step(w, e))
  {
    hide Inv;
    match e
    case FetchEvent(upgrade, role, id, nowMs) => FetchKeeps(w, upgrade, role, id, nowMs);
    case MessageEvent(socket, message, nowMs) => MessageKeeps(w, socket, message, nowMs);
    case DisconnectEvent(socket, nowMs) => DisconnectKeeps(w, socket, nowMs);
    case AlarmEvent(nowMs) => AlarmKeeps(w, nowMs);
    case ProbeEvent(nowMs) => TimePasses(w, nowMs);
  }

  // The invariant holds after every run.
  lemma {:induction false} RunKeeps(w: World, es: seq<Event>)
    requires Inv(w) && AllEnabled(w, es)
    ensures Inv(Run(w, es))
    decreases es
  {
    hide Inv, Step, Enabled;
    if es != [] {
      StepKeeps(w, es[0]);
      RunKeeps(Step(w, es[0]), es[1..]);
    }
  }
}
