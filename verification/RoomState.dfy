// room_state.ts: the pure reducer of the signalling room.
module RoomState {
  import opened Results

  const MAX_GUESTS := 7
  const ROOM_IDLE_TTL_MS := 10 * 60 * 1000
  const ROOM_MAX_LIFETIME_MS := 2 * 60 * 60 * 1000
  const MAX_SIGNAL_BYTES := 16 * 1024

  type ConnectionId = string

  datatype RoomPhase = WaitingForHost | Open | Closed

  datatype Room = Room(
    code: string,
    createdAtMs: int,
    lastActivityMs: int,
    phase: RoomPhase,
    hostId: Option<ConnectionId>,
    guestIds: seq<ConnectionId>)

  datatype Reason =
    | RoomClosed
    | RoomExpired
    | HostAlreadyClaimed
    | RoomNotFound
    | AlreadyJoined
    | RoomFull
    | RoomNotOpen
    | MessageTooLarge
    | MissingTarget
    | UnknownTarget
    | NoHost
    | UnknownSender
    | BinaryNotSupported
    | InvalidEnvelope

  function NewRoom(code: string, nowMs: int): Room {
    Room(code, nowMs, nowMs, WaitingForHost, None, [])
  }

  function Touch(state: Room, nowMs: int): Room {
    state.(lastActivityMs := nowMs)
  }

  predicate IsExpired(state: Room, nowMs: int) {
    nowMs - state.createdAtMs > ROOM_MAX_LIFETIME_MS || nowMs - state.lastActivityMs > ROOM_IDLE_TTL_MS
  }

  function NextAlarmMs(state: Room): int {
    var idle, cap := state.lastActivityMs + ROOM_IDLE_TTL_MS, state.createdAtMs + ROOM_MAX_LIFETIME_MS;
    if idle <= cap then idle else cap
  }

  predicate IsRoomClaimedByHost(state: Room, nowMs: int) {
    state.phase != Closed && !IsExpired(state, nowMs) && state.hostId.Some?
  }

  function ClaimHost(state: Room, id: ConnectionId, nowMs: int): Result<Room, Reason> {
    if state.phase == Closed then Err(RoomClosed)
    else if IsExpired(state, nowMs) then Err(RoomExpired)
    else if IsRoomClaimedByHost(state, nowMs) then Err(HostAlreadyClaimed)
    else Ok(Touch(state.(phase := Open, hostId := Some(id)), nowMs))
  }

  function JoinGuest(state: Room, id: ConnectionId, nowMs: int): Result<Room, Reason> {
    if state.phase == Closed then Err(RoomClosed)
    else if state.phase == WaitingForHost then Err(RoomNotFound)
    else if IsExpired(state, nowMs) then Err(RoomExpired)
    else if id in state.guestIds then Err(AlreadyJoined)
    else if |state.guestIds| >= MAX_GUESTS then Err(RoomFull)
    else Ok(Touch(state.(guestIds := state.guestIds + [id]), nowMs))
  }

  function Without(ids: seq<ConnectionId>, id: ConnectionId): seq<ConnectionId> {
    if ids == [] then []
    else if ids[0] == id then Without(ids[1..], id)
    else [ids[0]] + Without(ids[1..], id)
  }

  function RemoveConnection(state: Room, id: ConnectionId): Room {
    if state.phase == Closed then state
    else if state.hostId == Some(id) then CloseRoom(state)
    else if id in state.guestIds then state.(guestIds := Without(state.guestIds, id))
    else state
  }

  function CloseRoom(state: Room): Room {
    if state.phase == Closed then state else state.(phase := Closed, hostId := None, guestIds := [])
  }

  predicate HostDeparted(before: Room, after: Room) {
    before.phase != Closed && before.hostId.Some? && after.phase == Closed
  }

  datatype RelayEnvelope = RelayEnvelope(fromId: ConnectionId, toId: Option<ConnectionId>, byteLength: nat)

  function RouteSignal(state: Room, envelope: RelayEnvelope): Result<seq<ConnectionId>, Reason> {
    if state.phase != Open then Err(RoomNotOpen)
    else if envelope.byteLength > MAX_SIGNAL_BYTES then Err(MessageTooLarge)
    else if Some(envelope.fromId) == state.hostId then
      if envelope.toId.None? then Err(MissingTarget)
      else if envelope.toId.value !in state.guestIds then Err(UnknownTarget)
      else Ok([envelope.toId.value])
    else if envelope.fromId in state.guestIds then
      if state.hostId.None? then Err(NoHost) else Ok([state.hostId.value])
    else Err(UnknownSender)
  }

  ghost predicate Distinct(ids: seq<ConnectionId>) {
    forall i, j :: 0 <= i < j < |ids| ==> ids[i] != ids[j]
  }

  // What every room value a run can reach satisfies at a given time.
  ghost predicate WellFormed(state: Room, nowMs: int) {
    && (state.phase == Open <==> state.hostId.Some?)
    && (state.phase != Open ==> state.guestIds == [])
    && |state.guestIds| <= MAX_GUESTS
    && Distinct(state.guestIds)
    && (state.hostId.Some? ==> state.hostId.value !in state.guestIds)
    && state.createdAtMs <= state.lastActivityMs <= nowMs
  }

  lemma DistinctCons(id: ConnectionId, ids: seq<ConnectionId>)
    requires id !in ids && Distinct(ids)
    ensures Distinct([id] + ids)
  {
  }

  // Leaving removes exactly that id and keeps the order of the others.
  lemma {:induction false} WithoutKeeps(ids: seq<ConnectionId>, id: ConnectionId)
    ensures forall other :: other in Without(ids, id) <==> other in ids && other != id
    ensures |Without(ids, id)| <= |ids|
    ensures id !in ids ==> Without(ids, id) == ids
    ensures Distinct(ids) ==> Distinct(Without(ids, id))
  {
    if ids != [] {
      var rest := ids[1..];
      WithoutKeeps(rest, id);
      if Distinct(ids) {
        assert Distinct(rest) && ids[0] !in rest;
        DistinctCons(ids[0], Without(rest, id));
      }
      hide Distinct;
    }
  }

  lemma {:induction false} WithoutAppend(ids: seq<ConnectionId>, more: seq<ConnectionId>, id: ConnectionId)
    ensures Without(ids + more, id) == Without(ids, id) + Without(more, id)
  {
    if ids == [] {
      assert ids + more == more;
    } else {
      assert (ids + more)[1..] == ids[1..] + more;
      WithoutAppend(ids[1..], more, id);
    }
  }

  // A guest that leaves right after joining leaves no trace but the activity.
  lemma JoinThenLeave(state: Room, id: ConnectionId, nowMs: int)
    requires WellFormed(state, nowMs) && state.hostId != Some(id) && JoinGuest(state, id, nowMs).Ok?
    ensures RemoveConnection(JoinGuest(state, id, nowMs).value, id) == Touch(state, nowMs)
  {
    WithoutAppend(state.guestIds, [id], id);
    WithoutKeeps(state.guestIds, id);
  }

  // The reducer keeps every room well formed as long as new ids are fresh.
  lemma ClaimKeeps(state: Room, id: ConnectionId, before: int, nowMs: int)
    requires WellFormed(state, before) && before <= nowMs && ClaimHost(state, id, nowMs).Ok?
    ensures WellFormed(ClaimHost(state, id, nowMs).value, nowMs)
    ensures state.phase == WaitingForHost
  {
  }

  lemma JoinKeeps(state: Room, id: ConnectionId, before: int, nowMs: int)
    requires WellFormed(state, before) && before <= nowMs && state.hostId != Some(id)
    requires JoinGuest(state, id, nowMs).Ok?
    ensures WellFormed(JoinGuest(state, id, nowMs).value, nowMs)
    ensures state.phase == Open
  {
  }

  lemma RemoveKeeps(state: Room, id: ConnectionId, before: int, nowMs: int)
    requires WellFormed(state, before) && before <= nowMs
    ensures WellFormed(RemoveConnection(state, id), nowMs)
    ensures RemoveConnection(state, id).phase == Closed <==> state.phase == Closed || state.hostId == Some(id)
    ensures HostDeparted(state, RemoveConnection(state, id)) <==> state.hostId == Some(id)
  {
    WithoutKeeps(state.guestIds, id);
  }

  // The alarm deadline is the last moment at which the room is not expired.
  lemma AlarmIsTheLastMoment(state: Room, nowMs: int)
    ensures nowMs > NextAlarmMs(state) <==> IsExpired(state, nowMs)
  {
  }
}
