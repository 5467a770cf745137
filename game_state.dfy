/**
 * The `GameState` entity: the mutable board, players and turn record of one game, with
 * the breadth-first connectivity search, medal scoring, the win check, the pending
 * action, snapshots and the document conversion. Each method is proved against the pure
 * definitions of `GameModel`.
 */
module GameStateEntity {
  import opened Wrappers
  import opened OrderedMaps
  import opened GameTypes
  import GameModel
  import Board

  /** Growing a set inside a fixed universe leaves fewer elements outside it. */
  lemma FewerLeft(universe: set<string>, before: set<string>, after: set<string>)
    requires before < after <= universe
    ensures |universe - after| < |universe - before|
  {
    assert after == before + (after - before);
    assert universe - before == (universe - after) + (after - before);
    assert (universe - after) * (after - before) == {};
  }

  class GameState {
    var vertices: OrderedMap<Vertex>
    var adjacencyList: map<string, seq<string>>
    var players: OrderedMap<Player>
    var currentTurn: Option<string>
    var turnCount: int
    var gameStatus: GameStatus
    var winner: Option<string>
    var turnStartSnapshot: Option<GameDoc>
    var pendingAction: Option<PendingAction>
    var medalZones: seq<MedalZone>

    /** The fields, as one value. */
    function Value(): Game
      reads this
    {
      Game(vertices, adjacencyList, players, currentTurn, turnCount, gameStatus, winner,
           turnStartSnapshot, pendingAction, medalZones)
    }

    /** Both maps list each of their keys exactly once, in insertion order. */
    ghost predicate Valid()
      reads this
    {
      vertices.Wf() && players.Wf()
    }

    /** A new game: the board built, no players, turn 0, waiting, the eight open zones. */
    constructor()
      ensures Value() == GameModel.NewGame() && Valid()
    {
      vertices := Empty();
      adjacencyList := map[];
      players := Empty();
      currentTurn := None;
      turnCount := 0;
      gameStatus := Waiting;
      winner := None;
      turnStartSnapshot := None;
      pendingAction := None;
      medalZones := GameModel.InitialMedalZones;
      new;
      InitializeMap();
      Board.InitialBoard();
    }

    /** Every listed vertex with an empty stack and an empty list, then each edge linked both ways. */
    method InitializeMap()
      requires vertices == Empty() && adjacencyList == map[]
      modifies this
      ensures Value() == old(Value()).(vertices := Board.InitialVertices(), adjacency := Board.Adjacency())
    {
      AddVertices(Board.VertexData);
      LinkEdges(Board.Edges);
    }

    /** The `vertexData.forEach` pass: a vertex record with an empty stack and an empty list per entry. */
    method AddVertices(data: seq<(string, VertexType)>)
      requires vertices == Empty() && adjacencyList == map[]
      modifies this
      ensures Value() == old(Value()).(vertices := Board.VerticesOf(data), adjacency := Board.EmptyListsOf(data))
    {
      for i := 0 to |data|
        invariant vertices == Board.VerticesOf(data[..i])
        invariant adjacencyList == Board.EmptyListsOf(data[..i])
        invariant Value() == old(Value()).(vertices := vertices, adjacency := adjacencyList)
      {
        var (id, vtype) := data[i];
        assert data[..i + 1][..i] == data[..i];
        vertices := vertices.Set(id, Vertex(id, vtype, []));
        adjacencyList := adjacencyList[id := []];
      }
      assert data[..|data|] == data;
    }

    /** The `edges.forEach` pass: each endpoint present gets the other appended to its list. */
    method LinkEdges(es: seq<(string, string)>)
      modifies this
      ensures Value() == old(Value()).(adjacency := Board.AddEdges(old(adjacencyList), es))
    {
      for j := 0 to |es|
        invariant adjacencyList == Board.AddEdges(old(adjacencyList), es[..j])
        invariant Value() == old(Value()).(adjacency := adjacencyList)
      {
        var (a, b) := es[j];
        assert es[..j + 1][..j] == es[..j];
        if a in adjacencyList {
          adjacencyList := adjacencyList[a := adjacencyList[a] + [b]];
        }
        if b in adjacencyList {
          adjacencyList := adjacencyList[b := adjacencyList[b] + [a]];
        }
      }
      assert es[..|es|] == es;
    }

    /**
     * `isPathConnected`: breadth-first search from `from`, entering only vertices whose top
     * soldier is `p`'s, succeeding as soon as `to` shows up among the neighbours of a
     * visited vertex.
     */
    method IsPathConnected(from: string, to: string, p: string) returns (r: bool)
      ensures r <==> GameModel.Connected(adjacencyList, vertices, from, to, p)
    {
      if from == to {
        return true;
      }
      ghost var universe := vertices.m.Keys + {from};
      var visited := {from};
      var queue := [from];
      ghost var done: set<string> := {};
      ghost var walks: map<string, seq<string>> := map[from := [from]];
      while queue != []
        invariant visited <= universe && vertices.m.Keys <= universe
        invariant Search(from, to, p, visited, queue, done, walks)
        decreases |universe - visited|, |queue|
      {
        var current := queue[0];
        ghost var before := visited;
        ghost var queue0 := queue;
        var found;
        found, visited, queue, walks := VisitNeighbors(from, to, p, current, visited, queue[1..], walks, universe);
        if found {
          return true;
        }
        SearchStep(from, to, p, current, before, queue0, done, visited, queue, walks);
        done := done + {current};
        if visited != before {
          FewerLeft(universe, before, visited);
        }
      }
      NoWalkToTarget(from, to, p, done, visited, walks);
      return false;
    }

    /**
     * The search's bookkeeping: `from` is visited, the queue holds visited vertices, a visited
     * vertex is processed or still queued, and every visited vertex is reachable.
     */
    ghost predicate Search(from: string, to: string, p: string, visited: set<string>, queue: seq<string>,
                           done: set<string>, walks: map<string, seq<string>>)
      reads this
    {
      && from in visited && done <= visited
      && (forall v :: v in queue ==> v in visited)
      && (forall v :: v in visited ==> v in done || v in queue)
      && Reachable(from, p, visited, walks)
      && Closed(done, visited, to, p)
    }

    /** Processing the head of the queue keeps the bookkeeping, with the head now processed. */
    lemma SearchStep(from: string, to: string, p: string, current: string, before: set<string>, queue0: seq<string>,
                     done: set<string>, visited: set<string>, queue: seq<string>, walks: map<string, seq<string>>)
      requires queue0 != [] && current == queue0[0]
      requires from in before && done <= before
      requires forall v :: v in queue0 ==> v in before
      requires forall v :: v in before ==> v in done || v in queue0
      requires Closed(done, before, to, p)
      requires before <= visited && forall v :: v in queue <==> v in queue0[1..] || v in visited - before
      requires Reachable(from, p, visited, walks)
      requires to !in GameModel.Neighbors(adjacencyList, current)
      requires forall w :: w in GameModel.Neighbors(adjacencyList, current) && GameModel.OwnedBy(vertices, w, p) ==> w in visited
      ensures Search(from, to, p, visited, queue, done + {current}, walks)
    {
      ClosedGrows(done, before, visited, to, p);
      forall v | v in before && v !in done && v != current ensures v in queue {
        assert v in queue0;
        var i :| 0 <= i < |queue0| && queue0[i] == v;
        assert queue0[1..][i - 1] == v;
      }
    }

    /**
     * The body of the search loop for the dequeued vertex `current`: its neighbours in order,
     * `to` among them ending the search, each unvisited one owned by `p` marked and enqueued.
     */
    method VisitNeighbors(from: string, to: string, p: string, current: string, visited0: set<string>, queue0: seq<string>,
                          ghost walks0: map<string, seq<string>>, ghost universe: set<string>)
      returns (found: bool, visited: set<string>, queue: seq<string>, ghost walks: map<string, seq<string>>)
      requires current in visited0 && visited0 <= universe && vertices.m.Keys <= universe
      requires Reachable(from, p, visited0, walks0)
      ensures found ==> GameModel.Connected(adjacencyList, vertices, from, to, p)
      ensures visited0 <= visited <= universe && (visited == visited0 ==> queue == queue0)
      ensures forall v :: v in queue <==> v in queue0 || v in visited - visited0
      ensures Reachable(from, p, visited, walks)
      ensures !found ==> to !in GameModel.Neighbors(adjacencyList, current)
      ensures !found ==> forall w :: w in GameModel.Neighbors(adjacencyList, current) && GameModel.OwnedBy(vertices, w, p) ==> w in visited
    {
      visited, queue, walks := visited0, queue0, walks0;
      var neighbors := GameModel.Neighbors(adjacencyList, current);
      for j := 0 to |neighbors|
        invariant visited0 <= visited <= universe && (visited == visited0 ==> queue == queue0)
        invariant forall v :: v in queue <==> v in queue0 || v in visited - visited0
        invariant Reachable(from, p, visited, walks)
        invariant forall k :: 0 <= k < j ==> neighbors[k] != to
        invariant forall k :: 0 <= k < j && GameModel.OwnedBy(vertices, neighbors[k], p) ==> neighbors[k] in visited
      {
        var neighbor := neighbors[j];
        if neighbor == to {
          assert GameModel.IsWalk(adjacencyList, vertices, p, walks[current]);
          return true, visited, queue, walks;
        }
        if neighbor !in visited {
          if GameModel.VertexOwner(vertices, neighbor) == Some(p) {
            ExtendWalk(from, p, walks[current], neighbor);
            walks := walks[neighbor := walks[current] + [neighbor]];
            visited := visited + {neighbor};
            queue := queue + [neighbor];
          }
        }
      }
      found := false;
    }

    lemma ClosedGrows(done: set<string>, visited: set<string>, visited': set<string>, to: string, p: string)
      requires Closed(done, visited, to, p) && visited <= visited'
      ensures Closed(done, visited', to, p)
    {
    }

    /** Every visited vertex ends a recorded walk from `from`. */
    ghost predicate Reachable(from: string, p: string, visited: set<string>, walks: map<string, seq<string>>)
      reads this
    {
      forall v :: v in visited ==>
        && v in walks
        && GameModel.IsWalk(adjacencyList, vertices, p, walks[v])
        && walks[v][0] == from
        && walks[v][|walks[v]| - 1] == v
    }

    /** A processed vertex is not next to `to`, and its neighbours owned by `p` are visited. */
    ghost predicate Closed(done: set<string>, visited: set<string>, to: string, p: string)
      reads this
    {
      forall d :: d in done ==>
        && to !in GameModel.Neighbors(adjacencyList, d)
        && forall w :: w in GameModel.Neighbors(adjacencyList, d) && GameModel.OwnedBy(vertices, w, p) ==> w in visited
    }

    lemma ExtendWalk(from: string, p: string, walk: seq<string>, next: string)
      requires GameModel.IsWalk(adjacencyList, vertices, p, walk)
      requires next in GameModel.Neighbors(adjacencyList, walk[|walk| - 1]) && GameModel.OwnedBy(vertices, next, p)
      ensures GameModel.IsWalk(adjacencyList, vertices, p, walk + [next]) && (walk + [next])[0] == walk[0]
    {
      var w := walk + [next];
      forall i | 0 < i < |w|
        ensures w[i] in GameModel.Neighbors(adjacencyList, w[i - 1]) && GameModel.OwnedBy(vertices, w[i], p)
      {
        if i < |walk| {
          assert w[i] == walk[i] && w[i - 1] == walk[i - 1];
        }
      }
    }

    /** Once the queue is empty, no walk from `from` reaches a neighbour of `to`. */
    lemma NoWalkToTarget(from: string, to: string, p: string, done: set<string>, visited: set<string>,
                         walks: map<string, seq<string>>)
      requires from != to && Search(from, to, p, visited, [], done, walks)
      ensures !GameModel.Connected(adjacencyList, vertices, from, to, p)
    {
      assert visited == done;
      forall path | GameModel.IsWalk(adjacencyList, vertices, p, path) && path[0] == from
        ensures to !in GameModel.Neighbors(adjacencyList, path[|path| - 1])
      {
        WalkStaysInside(path, p, done, |path|);
      }
    }

    lemma {:induction false} WalkStaysInside(path: seq<string>, p: string, done: set<string>, n: nat)
      requires GameModel.IsWalk(adjacencyList, vertices, p, path) && path[0] in done
      requires forall d :: d in done ==>
        forall w :: w in GameModel.Neighbors(adjacencyList, d) && GameModel.OwnedBy(vertices, w, p) ==> w in done
      requires 0 < n <= |path|
      ensures path[n - 1] in done
      decreases n
    {
      if n > 1 {
        WalkStaysInside(path, p, done, n - 1);
      }
    }

    /**
     * `checkAndAwardMedals`: each open zone fully owned by `p` is claimed and, when `p`
     * plays, its points go to `p`'s medals and to the reported total.
     */
    method CheckAndAwardMedals(p: string) returns (total: int)
      modifies this
      ensures (Value(), total) == GameModel.AwardMedals(old(Value()), p)
    {
      total := 0;
      ghost var g0 := Value();
      GameModel.AwardUpToNone(g0, p);
      for i := 0 to |medalZones|
        invariant |medalZones| == |g0.medalZones|
        invariant (Value(), total) == GameModel.AwardUpTo(g0, p, i)
      {
        GameModel.AwardStep(g0, p, i);
        var zone := medalZones[i];
        if !zone.claimed && GameModel.ZoneOwnedBy(vertices, zone, p) {
          medalZones := medalZones[i := zone.(claimed := true, claimedBy := Some(p))];
          if p in players.m {
            var player := players.m[p];
            players := players.Set(p, player.(medals := player.medals + zone.points));
            total := total + zone.points;
          }
        }
      }
      GameModel.AwardUpToAll(g0, p);
    }

    /** `checkWinCondition`: the players in order, the first with 7 medals or the other base wins. */
    method CheckWinCondition() returns (r: Option<string>)
      requires Valid()
      ensures r == GameModel.CheckWinCondition(Value())
    {
      var keys := players.keys;
      for i := 0 to |keys|
        invariant GameModel.FirstWinner(keys[i..], players.m, vertices) == GameModel.CheckWinCondition(Value())
      {
        assert keys[i..][1..] == keys[i + 1..];
        var id := keys[i];
        var player := players.m[id];
        if player.medals >= 7 {
          return Some(id);
        }
        var opponentBase := if player.color == Red then "Y" else "X";
        if GameModel.VertexOwner(vertices, opponentBase) == Some(id) {
          return Some(id);
        }
      }
      return None;
    }

    /** `createTurnSnapshot`: the current document is kept as the turn's starting point. */
    method CreateTurnSnapshot()
      requires Valid()
      modifies this
      ensures Value() == old(Value()).(turnStartSnapshot := Some(GameModel.ToDoc(old(Value()))))
      ensures Valid()
    {
      var d := ToJSON();
      turnStartSnapshot := Some(d);
    }

    /** `restoreFromSnapshot`: with a snapshot, every field takes the value read back from it. */
    method RestoreFromSnapshot()
      modifies this
      ensures old(turnStartSnapshot).None? ==> Value() == old(Value())
      ensures old(turnStartSnapshot).Some? ==> Value() == GameModel.FromDoc(old(turnStartSnapshot).value) && Valid()
    {
      if turnStartSnapshot.Some? {
        var restored := FromJSON(turnStartSnapshot.value);
        Assign(restored);
      }
    }

    /** `Object.assign(this, other)` for a state whose every field is set: all fields copied. */
    method Assign(other: GameState)
      modifies this
      ensures Value() == old(other.Value())
    {
      var v := other.Value();
      vertices := v.vertices;
      adjacencyList := v.adjacency;
      players := v.players;
      currentTurn := v.currentTurn;
      turnCount := v.turnCount;
      gameStatus := v.gameStatus;
      winner := v.winner;
      turnStartSnapshot := v.turnStartSnapshot;
      pendingAction := v.pendingAction;
      medalZones := v.medalZones;
    }

    method SetPendingAction(action: PendingAction)
      modifies this
      ensures Value() == old(Value()).(pendingAction := Some(action))
    {
      pendingAction := Some(action);
    }

    method ClearPendingAction()
      modifies this
      ensures Value() == old(Value()).(pendingAction := None)
    {
      pendingAction := None;
    }

    /** `toJSON`; reading the document back gives this state with the board's own adjacency. */
    method ToJSON() returns (d: GameDoc)
      requires Valid()
      ensures d == GameModel.ToDoc(Value())
      ensures GameModel.FromDoc(d) == Value().(adjacency := Board.Adjacency())
    {
      d := GameDoc(Some(vertices.Entries()), Some(players.Entries()), currentTurn, Some(turnCount),
                   Some(gameStatus), winner, Some(medalZones), turnStartSnapshot, pendingAction);
      GameModel.DocRoundTrip(Value());
    }

    /** `fromJSON`: a new state whose fields other than the adjacency are read from the document. */
    static method FromJSON(d: GameDoc) returns (gs: GameState)
      ensures fresh(gs) && gs.Value() == GameModel.FromDoc(d) && gs.Valid()
    {
      gs := new GameState();
      gs.Load(GameModel.FromDoc(d));
    }

    /** The assignments of `fromJSON` after construction: every field but the adjacency. */
    method Load(g: Game)
      modifies this
      ensures Value() == g.(adjacency := old(adjacencyList))
    {
      vertices := g.vertices;
      players := g.players;
      currentTurn := g.currentTurn;
      turnCount := g.turnCount;
      gameStatus := g.gameStatus;
      winner := g.winner;
      medalZones := g.medalZones;
      turnStartSnapshot := g.turnStartSnapshot;
      pendingAction := g.pendingAction;
    }
  }
}
