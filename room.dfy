/**
 * The in-memory room of the lobby: its seats, its host, its capacity and its status.
 * Players are values in a sequence the room reassigns; the room itself is an object
 * the lobby's table refers to and updates in place.
 */
module GameRoomMemory {
  import opened Wrappers
  import GameTypes

  /** A seat in the room. */
  datatype Player = Player(id: string, name: string, isHost: bool, isReady: bool)

  datatype RoomStatus = Waiting | Playing | Finished

  /** `players.filter(p => p.id !== pid)`: the players without that id. */
  function Remaining(ps: seq<Player>, pid: string): (r: seq<Player>)
    ensures |r| <= |ps|
    ensures forall i :: 0 <= i < |r| ==> r[i].id != pid
  {
    if ps == [] then []
    else (if ps[0].id == pid then [] else [ps[0]]) + Remaining(ps[1..], pid)
  }

  /** Exactly the players with another id remain. */
  lemma {:induction false} RemainingMembers(ps: seq<Player>, pid: string)
    ensures forall p :: p in Remaining(ps, pid) <==> p in ps && p.id != pid
  {
    if ps != [] {
      RemainingMembers(ps[1..], pid);
      assert ps == [ps[0]] + ps[1..];
    }
  }

  /** Filtering works piecewise, so the survivors keep their original order. */
  lemma {:induction false} RemainingAppend(ps: seq<Player>, qs: seq<Player>, pid: string)
    ensures Remaining(ps + qs, pid) == Remaining(ps, pid) + Remaining(qs, pid)
  {
    if ps != [] {
      RemainingAppend(ps[1..], qs, pid);
      assert (ps + qs)[1..] == ps[1..] + qs;
    } else {
      assert ps + qs == qs;
    }
  }

  /** Removing an id nobody has changes nothing. */
  lemma {:induction false} RemainingAbsent(ps: seq<Player>, pid: string)
    requires forall i :: 0 <= i < |ps| ==> ps[i].id != pid
    ensures Remaining(ps, pid) == ps
  {
    if ps != [] {
      RemainingAbsent(ps[1..], pid);
      assert ps == [ps[0]] + ps[1..];
    }
  }

  class GameRoom {
    var id: string
    var name: string
    var hostId: string
    var maxPlayers: int
    var players: seq<Player>
    var status: RoomStatus
    var gameState: Option<GameTypes.GameDoc>

    /** The room never holds more players than its capacity. */
    ghost predicate Valid()
      reads this
    {
      players == [] || |players| <= maxPlayers
    }

    /** A new room is waiting, empty and without a game. */
    constructor (id: string, name: string, hostId: string, maxPlayers: int)
      ensures this.id == id && this.name == name && this.hostId == hostId && this.maxPlayers == maxPlayers
      ensures players == [] && status == Waiting && gameState.None?
      ensures Valid()
    {
      this.id := id;
      this.name := name;
      this.hostId := hostId;
      this.maxPlayers := maxPlayers;
      players := [];
      status := Waiting;
      gameState := None;
    }

    /** `addPlayer`: a full room refuses (the source throws); otherwise the player takes the last seat. */
    method AddPlayer(p: Player) returns (full: bool)
      requires Valid()
      modifies this`players
      ensures full <==> |old(players)| >= maxPlayers
      ensures players == if full then old(players) else old(players) + [p]
      ensures Valid()
    {
      if |players| >= maxPlayers {
        return true;
      }
      players := players + [p];
      full := false;
    }

    /** `removePlayer`: every seat with that id is vacated, the others keep their order. */
    method RemovePlayer(pid: string)
      requires Valid()
      modifies this`players
      ensures players == Remaining(old(players), pid)
      ensures Valid()
    {
      players := Remaining(players, pid);
    }

    method StartGame()
      modifies this`status
      ensures status == Playing
    {
      status := Playing;
    }

    method FinishGame()
      modifies this`status
      ensures status == Finished
    {
      status := Finished;
    }
  }
}
