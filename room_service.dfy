/**
 * The lobby: a table of rooms keyed by room code, with creation, joining, leaving,
 * the ready toggle and the start of a game. Every refusal is an error outcome that
 * leaves the table and the rooms as they were.
 */
module RoomLifecycle {
  import opened Wrappers
  import opened OrderedMaps
  import opened GameRoomMemory

  datatype RoomError =
    | RoomNotFound
    | AlreadyStarted
    | RoomFull
    | NotHost
    | TooFewPlayers
    | NotAllReady
    | PlayerNotFound
    | HostCannotToggle

  /** A service call either returns its value or fails with the reason the source throws. */
  datatype Outcome<T> = Ok(value: T) | Err(error: RoomError)

  /** `maxPlayers || 2`: a missing or zero capacity means two seats. */
  function Capacity(requested: Option<int>): int {
    if requested.None? || requested.value == 0 then 2 else requested.value
  }

  /** The host's seat as the room is created; the name is filled in when the host joins. */
  function HostSeat(hostId: string): Player {
    Player(hostId, "Host", true, true)
  }

  /** The seat of a new joiner: neither host nor ready. */
  function Joiner(pid: string, name: string): Player {
    Player(pid, name, false, false)
  }

  /** `players.find(p => p.id === pid)`: the index of the first player with that id, or -1. */
  function FindPlayer(ps: seq<Player>, pid: string): (i: int)
    ensures -1 <= i < |ps|
    ensures i >= 0 ==> ps[i].id == pid
    ensures forall j :: 0 <= j < |ps| && (i < 0 || j < i) ==> ps[j].id != pid
  {
    if ps == [] then -1
    else if ps[0].id == pid then 0
    else
      var k := FindPlayer(ps[1..], pid);
      if k < 0 then -1 else k + 1
  }

  function Rename(ps: seq<Player>, i: nat, name: string): seq<Player>
    requires i < |ps|
  {
    ps[i := ps[i].(name := name)]
  }

  function ToggleAt(ps: seq<Player>, i: nat): seq<Player>
    requires i < |ps|
  {
    ps[i := ps[i].(isReady := !ps[i].isReady)]
  }

  /** The first remaining player becomes host. */
  function HandOver(ps: seq<Player>): seq<Player>
    requires ps != []
  {
    ps[0 := ps[0].(isHost := true)]
  }

  /** `players.every(p => p.isReady || p.isHost)`. */
  predicate ReadyToStart(ps: seq<Player>) {
    forall i :: 0 <= i < |ps| ==> ps[i].isReady || ps[i].isHost
  }

  /**
   * The seating of a room in the table: no id is seated twice, the host is seated,
   * and exactly the host's seat carries the host flag.
   */
  ghost predicate Seated(ps: seq<Player>, hostId: string) {
    && (forall i, j :: 0 <= i < j < |ps| ==> ps[i].id != ps[j].id)
    && (exists i :: 0 <= i < |ps| && ps[i].id == hostId)
    && (forall i :: 0 <= i < |ps| ==> (ps[i].isHost <==> ps[i].id == hostId))
  }

  // Properties of the seating operations

  /** Toggling twice gives back the same seats. */
  lemma ToggleTwice(ps: seq<Player>, i: nat)
    requires i < |ps|
    ensures ToggleAt(ToggleAt(ps, i), i) == ps
    ensures forall j :: 0 <= j < |ps| && j != i ==> ToggleAt(ps, i)[j] == ps[j]
    ensures ToggleAt(ps, i)[i].isReady != ps[i].isReady
  {
  }

  /** A new room is seated: its only player is the host. */
  lemma CreatedSeated(hostId: string)
    ensures Seated([HostSeat(hostId)], hostId)
  {
    assert [HostSeat(hostId)][0].id == hostId;
  }

  /** Joining keeps the seating: a rejoin only renames, a new joiner is not the host. */
  lemma JoinKeepsSeating(ps: seq<Player>, hostId: string, pid: string, name: string)
    requires Seated(ps, hostId)
    ensures var i := FindPlayer(ps, pid);
      && (i >= 0 ==> Seated(Rename(ps, i, name), hostId))
      && (i < 0 ==> pid != hostId && Seated(ps + [Joiner(pid, name)], hostId))
  {
    var i := FindPlayer(ps, pid);
    var h :| 0 <= h < |ps| && ps[h].id == hostId;
    if i >= 0 {
      assert Rename(ps, i, name)[h].id == hostId;
    } else {
      var qs := ps + [Joiner(pid, name)];
      assert qs[h].id == hostId;
    }
  }

  /** Toggling readiness keeps the seating. */
  lemma ToggleKeepsSeating(ps: seq<Player>, hostId: string, i: nat)
    requires Seated(ps, hostId) && i < |ps|
    ensures Seated(ToggleAt(ps, i), hostId)
  {
    var h :| 0 <= h < |ps| && ps[h].id == hostId;
    assert ToggleAt(ps, i)[h].id == hostId;
  }

  /**
   * Leaving keeps the seating of a room that is not emptied: when the host leaves,
   * the first remaining player takes over, flag and id.
   */
  lemma LeaveKeepsSeating(ps: seq<Player>, hostId: string, pid: string)
    requires Seated(ps, hostId)
    ensures var rest := Remaining(ps, pid);
      rest != [] ==>
        if hostId == pid then Seated(HandOver(rest), rest[0].id) else Seated(rest, hostId)
  {
    var rest := Remaining(ps, pid);
    RemainingMembers(ps, pid);
    if rest != [] {
      forall i, j | 0 <= i < j < |rest| ensures rest[i].id != rest[j].id {
        RemainingOrder(ps, pid, i, j);
      }
      forall i | 0 <= i < |rest| ensures rest[i] in ps { }
      if hostId == pid {
        var hs := HandOver(rest);
        assert hs[0].id == rest[0].id;
        forall i | 0 <= i < |hs| ensures hs[i].isHost <==> hs[i].id == rest[0].id {
          if i != 0 {
            assert rest[i] in ps;
          }
        }
      } else {
        var h :| 0 <= h < |ps| && ps[h].id == hostId;
        assert ps[h] in rest;
      }
    }
  }

  /** Two seats left after filtering were two distinct seats before, in the same order. */
  lemma {:induction false} RemainingOrder(ps: seq<Player>, pid: string, i: nat, j: nat)
    requires i < j < |Remaining(ps, pid)|
    ensures exists a, b :: 0 <= a < b < |ps| && ps[a] == Remaining(ps, pid)[i] && ps[b] == Remaining(ps, pid)[j]
  {
    var tail := Remaining(ps[1..], pid);
    if ps[0].id == pid {
      RemainingOrder(ps[1..], pid, i, j);
      var a, b :| 0 <= a < b < |ps[1..]| && ps[1..][a] == tail[i] && ps[1..][b] == tail[j];
      assert ps[a + 1] == Remaining(ps, pid)[i] && ps[b + 1] == Remaining(ps, pid)[j];
    } else if i == 0 {
      RemainingMembers(ps[1..], pid);
      assert tail[j - 1] in ps[1..];
      var b :| 0 <= b < |ps[1..]| && ps[1..][b] == tail[j - 1];
      assert ps[0] == Remaining(ps, pid)[0] && ps[b + 1] == Remaining(ps, pid)[j];
    } else {
      RemainingOrder(ps[1..], pid, i - 1, j - 1);
      var a, b :| 0 <= a < b < |ps[1..]| && ps[1..][a] == tail[i - 1] && ps[1..][b] == tail[j - 1];
      assert ps[a + 1] == Remaining(ps, pid)[i] && ps[b + 1] == Remaining(ps, pid)[j];
    }
  }

  /** In a seated room the start condition says: every player but the host is ready. */
  lemma StartCondition(ps: seq<Player>, hostId: string)
    requires Seated(ps, hostId)
    ensures ReadyToStart(ps) <==> forall i :: 0 <= i < |ps| && ps[i].id != hostId ==> ps[i].isReady
  {
  }

  /** `Array.from(rooms.values()).filter(r => r.status === 'waiting')`, in table order. */
  function WaitingIn(keys: seq<string>, m: map<string, GameRoom>): (rs: seq<GameRoom>)
    requires forall k :: k in keys ==> k in m
    reads m.Values
    ensures forall i :: 0 <= i < |rs| ==> rs[i].status == Waiting && rs[i] in m.Values
    ensures forall k :: k in keys && m[k].status == Waiting ==> m[k] in rs
  {
    if keys == [] then []
    else (if m[keys[0]].status == Waiting then [m[keys[0]]] else []) + WaitingIn(keys[1..], m)
  }

  /** A room as the table keeps it: under its own id, within capacity and seated. */
  ghost predicate Filed(room: GameRoom, k: string)
    reads room
  {
    room.id == k && room.Valid() && Seated(room.players, room.hostId)
  }

  class GameRoomService {
    var rooms: OrderedMap<GameRoom>

    /** Every room is filed under its own id, within capacity and seated. */
    ghost predicate Valid()
      reads this, rooms.m.Values
    {
      && rooms.Wf()
      && forall k :: k in rooms.m ==> Filed(rooms.m[k], k)
    }

    /** The room under `k`, as a frame. */
    function Slot(k: string): set<GameRoom>
      reads this
    {
      if k in rooms.m then {rooms.m[k]} else {}
    }

    constructor ()
      ensures rooms == Empty() && Valid()
    {
      rooms := Empty();
    }

    /**
     * `createRoom`: a fresh waiting room with the host as its only, ready player, filed under
     * the given code (which replaces a room already there). A capacity below one seat
     * refuses the host and nothing is filed.
     */
    method CreateRoom(roomId: string, roomName: string, hostId: string, requested: Option<int>) returns (r: Outcome<GameRoom>)
      requires Valid()
      modifies this
      ensures Valid()
      ensures Capacity(requested) < 1 ==> r == Err(RoomFull) && rooms == old(rooms)
      ensures Capacity(requested) >= 1 ==>
        && r.Ok? && fresh(r.value)
        && rooms == old(rooms).Set(roomId, r.value)
        && r.value.id == roomId && r.value.name == roomName && r.value.hostId == hostId
        && r.value.maxPlayers == Capacity(requested)
        && r.value.players == [HostSeat(hostId)]
        && r.value.status == Waiting && r.value.gameState.None?
    {
      var room := new GameRoom(roomId, roomName, hostId, Capacity(requested));
      var full := room.AddPlayer(HostSeat(hostId));
      if full {
        return Err(RoomFull);
      }
      CreatedSeated(hostId);
      ghost var before := rooms;
      rooms := rooms.Set(roomId, room);
      forall k | k in rooms.m ensures Filed(rooms.m[k], k) {
        if k != roomId {
          assert rooms.m[k] == before.m[k];
        }
      }
      r := Ok(room);
    }

    /**
     * `joinRoom`: refused for a missing or started room; a player already seated is only
     * renamed; a new player takes the last seat unless the room is full.
     */
    method JoinRoom(roomId: string, pid: string, name: string) returns (r: Outcome<GameRoom>)
      requires Valid()
      modifies Slot(roomId)
      ensures Valid() && rooms == old(rooms)
      ensures roomId !in rooms.m ==> r == Err(RoomNotFound)
      ensures roomId in rooms.m ==>
        var room: GameRoom := rooms.m[roomId];
        var ps := old(room.players);
        var i := FindPlayer(ps, pid);
        && unchanged(room`id, room`name, room`hostId, room`maxPlayers, room`status, room`gameState)
        && (old(room.status) != Waiting ==> r == Err(AlreadyStarted) && room.players == ps)
        && (old(room.status) == Waiting && i >= 0 ==> r == Ok(room) && room.players == Rename(ps, i, name))
        && (old(room.status) == Waiting && i < 0 && |ps| >= room.maxPlayers ==>
              r == Err(RoomFull) && room.players == ps)
        && (old(room.status) == Waiting && i < 0 && |ps| < room.maxPlayers ==>
              r == Ok(room) && room.players == ps + [Joiner(pid, name)])
    {
      var found := rooms.Get(roomId);
      if found.None? {
        return Err(RoomNotFound);
      }
      var room := found.value;
      if room.status != Waiting {
        return Err(AlreadyStarted);
      }
      JoinKeepsSeating(room.players, room.hostId, pid, name);
      var i := FindPlayer(room.players, pid);
      if i >= 0 {
        room.players := Rename(room.players, i, name);
        return Ok(room);
      }
      if |room.players| >= room.maxPlayers {
        return Err(RoomFull);
      }
      var full := room.AddPlayer(Joiner(pid, name));
      assert !full;
      r := Ok(room);
    }

    /**
     * `leaveRoom`: refused for a missing room; otherwise the player's seats are vacated,
     * an emptied room is dropped from the table (no room is returned), and when the host
     * left the first remaining player becomes host.
     */
    method LeaveRoom(roomId: string, pid: string) returns (r: Outcome<Option<GameRoom>>)
      requires Valid()
      modifies this, Slot(roomId)
      ensures Valid()
      ensures roomId !in old(rooms.m) ==> r == Err(RoomNotFound) && rooms == old(rooms)
      ensures roomId in old(rooms.m) ==>
        var room: GameRoom := old(rooms.m[roomId]);
        var rest := Remaining(old(room.players), pid);
        && unchanged(room`id, room`name, room`maxPlayers, room`status, room`gameState)
        && (rest == [] ==> r == Ok(None) && rooms == old(rooms).Remove(roomId) && room.players == [])
        && (rest != [] && old(room.hostId) == pid ==>
              r == Ok(Some(room)) && rooms == old(rooms)
              && room.hostId == rest[0].id && room.players == HandOver(rest))
        && (rest != [] && old(room.hostId) != pid ==>
              r == Ok(Some(room)) && rooms == old(rooms)
              && room.hostId == old(room.hostId) && room.players == rest)
    {
      var found := rooms.Get(roomId);
      if found.None? {
        return Err(RoomNotFound);
      }
      var room := found.value;
      LeaveKeepsSeating(room.players, room.hostId, pid);
      room.RemovePlayer(pid);
      if |room.players| == 0 {
        rooms := rooms.Remove(roomId);
        return Ok(None);
      }
      if room.hostId == pid {
        room.hostId := room.players[0].id;
        room.players := HandOver(room.players);
      }
      forall k | k in rooms.m ensures Filed(rooms.m[k], k) {
        if k != roomId {
          assert old(Filed(rooms.m[k], k));
        }
      }
      r := Ok(Some(room));
    }

    /**
     * `startGame`: only the host may start, with at least two players, every one of them
     * ready or host; then the room is playing.
     */
    method StartGame(roomId: string, hostId: string) returns (r: Outcome<GameRoom>)
      requires Valid()
      modifies Slot(roomId)
      ensures Valid() && rooms == old(rooms)
      ensures roomId !in rooms.m ==> r == Err(RoomNotFound)
      ensures roomId in rooms.m ==>
        var room: GameRoom := rooms.m[roomId];
        && unchanged(room`id, room`name, room`hostId, room`maxPlayers, room`players, room`gameState)
        && r == (if room.hostId != hostId then Err(NotHost)
                 else if |room.players| < 2 then Err(TooFewPlayers)
                 else if !ReadyToStart(room.players) then Err(NotAllReady)
                 else Ok(room))
        && room.status == (if r.Ok? then Playing else old(room.status))
    {
      var found := rooms.Get(roomId);
      if found.None? {
        return Err(RoomNotFound);
      }
      var room := found.value;
      if room.hostId != hostId {
        return Err(NotHost);
      }
      if |room.players| < 2 {
        return Err(TooFewPlayers);
      }
      if !ReadyToStart(room.players) {
        return Err(NotAllReady);
      }
      room.StartGame();
      r := Ok(room);
    }

    /** `toggleReady`: refused for a missing room, an unknown player or the host; otherwise flips readiness. */
    method ToggleReady(roomId: string, pid: string) returns (r: Outcome<GameRoom>)
      requires Valid()
      modifies Slot(roomId)
      ensures Valid() && rooms == old(rooms)
      ensures roomId !in rooms.m ==> r == Err(RoomNotFound)
      ensures roomId in rooms.m ==>
        var room: GameRoom := rooms.m[roomId];
        var ps := old(room.players);
        var i := FindPlayer(ps, pid);
        && unchanged(room`id, room`name, room`hostId, room`maxPlayers, room`status, room`gameState)
        && r == (if i < 0 then Err(PlayerNotFound) else if ps[i].isHost then Err(HostCannotToggle) else Ok(room))
        && room.players == (if r.Ok? then ToggleAt(ps, i) else ps)
    {
      var found := rooms.Get(roomId);
      if found.None? {
        return Err(RoomNotFound);
      }
      var room := found.value;
      var i := FindPlayer(room.players, pid);
      if i < 0 {
        return Err(PlayerNotFound);
      }
      if room.players[i].isHost {
        return Err(HostCannotToggle);
      }
      ToggleKeepsSeating(room.players, room.hostId, i);
      room.players := ToggleAt(room.players, i);
      r := Ok(room);
    }

    /** `getRoom`: the room filed under that code, if any. */
    method GetRoom(roomId: string) returns (r: Option<GameRoom>)
      ensures r.Some? <==> roomId in rooms.m
      ensures r.Some? ==> r.value == rooms.m[roomId] && r.value.id == roomId
      requires Valid()
    {
      r := rooms.Get(roomId);
    }

    /** `getAllRooms`: exactly the waiting rooms, in the order they were filed. */
    method GetAllRooms() returns (rs: seq<GameRoom>)
      requires Valid()
      ensures rs == WaitingIn(rooms.keys, rooms.m)
      ensures forall i :: 0 <= i < |rs| ==> rs[i].status == Waiting && rs[i] in rooms.m.Values
      ensures forall k :: k in rooms.m && rooms.m[k].status == Waiting ==> rooms.m[k] in rs
    {
      rs := WaitingIn(rooms.keys, rooms.m);
    }
  }
}
