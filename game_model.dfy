/**
 * Read-only queries and pure transitions of the game state: vertex ownership, the base
 * of a player, reachability through owned vertices, medal-zone scoring, the win check
 * and the document round trip of `toJSON`/`fromJSON`.
 */
module GameModel {
  import opened Wrappers
  import opened OrderedMaps
  import opened GameTypes
  import Board

  /** The state a freshly constructed `GameState` holds. */
  function NewGame(): (g: Game)
    ensures g.vertices.Wf() && g.players.Wf() && g.players.keys == []
    ensures g.turnCount == 0 && g.gameStatus == Waiting && g.pendingAction == None
  {
    Board.InitialBoard();
    Game(Board.InitialVertices(), Board.Adjacency(), Empty(), None, 0, Waiting, None, None, None, InitialMedalZones)
  }

  /** The eight scoring zones every new game starts with, all unclaimed. */
  const InitialMedalZones: seq<MedalZone> := [
    MedalZone(["X", "X1", "X2", "Y1", "Y2", "M2"], 3, false, None),
    MedalZone(["Y", "X3", "X4", "Y3", "Y4", "M2"], 3, false, None),
    MedalZone(["M1", "M2", "Y1", "Y3"], 2, false, None),
    MedalZone(["M2", "M3", "Y2", "Y4"], 2, false, None),
    MedalZone(["Y1", "S1", "M1"], 1, false, None),
    MedalZone(["Y2", "S2", "M3"], 1, false, None),
    MedalZone(["Y3", "S3", "M1"], 1, false, None),
    MedalZone(["Y4", "S4", "M3"], 1, false, None)
  ]

  /** The neighbour list of `u`, empty for an unknown vertex. */
  function Neighbors(adj: map<string, seq<string>>, u: string): seq<string> {
    if u in adj then adj[u] else []
  }

  /** The player whose soldier is on top of the stack at `id`; none for an unknown or empty vertex. */
  function VertexOwner(vs: OrderedMap<Vertex>, id: string): (r: Option<string>)
    ensures r.None? <==> id !in vs.m || vs.m[id].soldiers == []
    ensures r.Some? ==> r.value == vs.m[id].soldiers[|vs.m[id].soldiers| - 1].playerId
  {
    if id !in vs.m || vs.m[id].soldiers == [] then None
    else Some(vs.m[id].soldiers[|vs.m[id].soldiers| - 1].playerId)
  }

  /** The stack at `id` with `s` pushed on top. */
  function Push(vs: OrderedMap<Vertex>, id: string, s: Soldier): OrderedMap<Vertex>
    requires id in vs.m
  {
    vs.Set(id, vs.m[id].(soldiers := vs.m[id].soldiers + [s]))
  }

  /** Pushing a soldier makes its player the owner of that vertex and of no other new one. */
  lemma OwnerAfterPush(vs: OrderedMap<Vertex>, id: string, s: Soldier, other: string)
    requires id in vs.m
    ensures VertexOwner(Push(vs, id, s), id) == Some(s.playerId)
    ensures other != id ==> VertexOwner(Push(vs, id, s), other) == VertexOwner(vs, other)
  {
  }

  /** The base of a known red player is X; every other id, known or not, gets Y. */
  function PlayerBase(players: OrderedMap<Player>, pid: string): (r: string)
    ensures r == "X" <==> pid in players.m && players.m[pid].color == Red
    ensures r == "X" || r == "Y"
    ensures pid in players.m ==>
      r == Board.BaseOf(players.m[pid].color) && r != OpponentBase(players.m[pid].color)
  {
    if pid in players.m && players.m[pid].color == Red then "X" else "Y"
  }

  /**
   * Taking the top soldier off the stack at `id` hands the vertex to the soldier beneath it,
   * or leaves it unowned; no other vertex changes owner.
   */
  lemma OwnerAfterPop(vs: OrderedMap<Vertex>, id: string, other: string)
    requires id in vs.m && vs.m[id].soldiers != []
    ensures var stack := vs.m[id].soldiers;
      var popped := vs.Set(id, vs.m[id].(soldiers := stack[..|stack| - 1]));
      && VertexOwner(popped, id) == (if |stack| == 1 then None else Some(stack[|stack| - 2].playerId))
      && (other != id ==> VertexOwner(popped, other) == VertexOwner(vs, other))
  {
  }

  /** A vertex whose top soldier is `p`'s. */
  predicate OwnedBy(vs: OrderedMap<Vertex>, v: string, p: string) {
    VertexOwner(vs, v) == Some(p)
  }

  /** A walk that moves along the adjacency lists and enters only vertices `p` owns. */
  ghost predicate IsWalk(adj: map<string, seq<string>>, vs: OrderedMap<Vertex>, p: string, path: seq<string>) {
    && path != []
    && forall i :: 0 < i < |path| ==> path[i] in Neighbors(adj, path[i - 1]) && OwnedBy(vs, path[i], p)
  }

  /**
   * `to` is `from` itself, or is adjacent to the end of a walk from `from` through vertices
   * owned by `p`. The start need not be owned, and neither need the target.
   */
  ghost predicate Connected(adj: map<string, seq<string>>, vs: OrderedMap<Vertex>, from: string, to: string, p: string) {
    from == to || exists path :: IsWalk(adj, vs, p, path) && path[0] == from && to in Neighbors(adj, path[|path| - 1])
  }

  /** A direct neighbour is connected whoever owns it. */
  lemma NeighbourConnected(adj: map<string, seq<string>>, vs: OrderedMap<Vertex>, from: string, to: string, p: string)
    requires to in Neighbors(adj, from)
    ensures Connected(adj, vs, from, to, p)
  {
    assert IsWalk(adj, vs, p, [from]);
  }

  /** Connection extends by one step through an owned vertex. */
  lemma ConnectedThrough(adj: map<string, seq<string>>, vs: OrderedMap<Vertex>, from: string, mid: string, to: string, p: string)
    requires from != mid && Connected(adj, vs, from, mid, p) && OwnedBy(vs, mid, p)
    requires to in Neighbors(adj, mid)
    ensures Connected(adj, vs, from, to, p)
  {
    var path :| IsWalk(adj, vs, p, path) && path[0] == from && mid in Neighbors(adj, path[|path| - 1]);
    var path' := path + [mid];
    forall i | 0 < i < |path'| ensures path'[i] in Neighbors(adj, path'[i - 1]) && OwnedBy(vs, path'[i], p) {
      if i < |path| {
        assert path'[i] == path[i] && path'[i - 1] == path[i - 1];
      }
    }
    assert IsWalk(adj, vs, p, path');
  }

  // Medal zones

  /** Every vertex of the zone is topped by `p`'s soldier. */
  predicate ZoneOwnedBy(vs: OrderedMap<Vertex>, z: MedalZone, p: string) {
    forall v :: v in z.vertices ==> OwnedBy(vs, v, p)
  }

  /** One zone after `p`'s scoring pass: claimed when still open and fully owned by `p`. */
  function Award(z: MedalZone, vs: OrderedMap<Vertex>, p: string): MedalZone {
    if !z.claimed && ZoneOwnedBy(vs, z, p) then z.(claimed := true, claimedBy := Some(p)) else z
  }

  function AwardZones(zones: seq<MedalZone>, vs: OrderedMap<Vertex>, p: string): (r: seq<MedalZone>)
    ensures |r| == |zones|
    ensures forall i :: 0 <= i < |zones| ==> r[i] == Award(zones[i], vs, p)
    ensures ClaimsKept(zones, r)
    ensures forall i :: 0 <= i < |zones| && !zones[i].claimed ==>
      && (r[i].claimed <==> ZoneOwnedBy(vs, zones[i], p))
      && (r[i].claimed ==> r[i].claimedBy == Some(p))
      && r[i].vertices == zones[i].vertices && r[i].points == zones[i].points
  {
    seq(|zones|, i requires 0 <= i < |zones| => Award(zones[i], vs, p))
  }

  /** The points of the open zones `p` fully owns. */
  function ZonePoints(zones: seq<MedalZone>, vs: OrderedMap<Vertex>, p: string): int {
    if zones == [] then 0
    else
      var z := zones[|zones| - 1];
      ZonePoints(zones[..|zones| - 1], vs, p) + (if !z.claimed && ZoneOwnedBy(vs, z, p) then z.points else 0)
  }

  /**
   * `checkAndAwardMedals`: the new state and the points awarded. A zone is claimed even when
   * `p` is not a player, but then no medals are added and nothing is reported.
   */
  function AwardMedals(g: Game, p: string): (res: (Game, int))
    ensures res.0 == g.(medalZones := res.0.medalZones, players := res.0.players)
    ensures res.0.players.keys == g.players.keys
    ensures g.players.Wf() ==> res.0.players.Wf()
  {
    var zones := AwardZones(g.medalZones, g.vertices, p);
    var points := ZonePoints(g.medalZones, g.vertices, p);
    if p in g.players.m then
      var pl := g.players.m[p];
      (g.(medalZones := zones, players := g.players.Set(p, pl.(medals := pl.medals + points))), points)
    else
      (g.(medalZones := zones), 0)
  }

  /** The scoring pass stopped after the first `i` zones: the state and the running total. */
  function AwardUpTo(g: Game, p: string, i: nat): (Game, int)
    requires i <= |g.medalZones|
  {
    var zones := AwardZones(g.medalZones[..i], g.vertices, p) + g.medalZones[i..];
    var points := ZonePoints(g.medalZones[..i], g.vertices, p);
    if p in g.players.m then
      var pl := g.players.m[p];
      (g.(medalZones := zones, players := g.players.Set(p, pl.(medals := pl.medals + points))), points)
    else
      (g.(medalZones := zones), 0)
  }

  /** Before the first zone nothing has changed. */
  lemma AwardUpToNone(g: Game, p: string)
    ensures AwardUpTo(g, p, 0) == (g, 0)
  {
    assert g.medalZones[..0] == [] && g.medalZones[0..] == g.medalZones;
    assert AwardZones(g.medalZones[..0], g.vertices, p) == [];
    assert ZonePoints(g.medalZones[..0], g.vertices, p) == 0;
    if p in g.players.m {
      var pl := g.players.m[p];
      assert pl.(medals := pl.medals + 0) == pl;
      assert g.players.m[p := pl] == g.players.m;
      assert g.players.Set(p, pl) == g.players;
      assert AwardUpTo(g, p, 0).0 == g.(medalZones := [] + g.medalZones, players := g.players.Set(p, pl));
      assert [] + g.medalZones == g.medalZones;
      assert g.(medalZones := g.medalZones, players := g.players) == g;
      assert AwardUpTo(g, p, 0).1 == 0;
      assert AwardUpTo(g, p, 0).0 == g;
    } else {
      assert AwardUpTo(g, p, 0).0 == g.(medalZones := [] + g.medalZones);
      assert [] + g.medalZones == g.medalZones;
    }
  }

  /** Having passed every zone is the whole pass. */
  lemma AwardUpToAll(g: Game, p: string)
    ensures AwardUpTo(g, p, |g.medalZones|) == AwardMedals(g, p)
  {
    var zs := g.medalZones;
    assert zs[..|zs|] == zs && zs[|zs|..] == [];
    assert AwardZones(zs[..|zs|], g.vertices, p) + zs[|zs|..] == AwardZones(zs, g.vertices, p);
    assert ZonePoints(zs[..|zs|], g.vertices, p) == ZonePoints(zs, g.vertices, p);
  }

  /** One more zone: claimed, and its points credited to a playing `p`, exactly when it is open and all `p`'s. */
  lemma AwardStep(g: Game, p: string, i: nat)
    requires i < |g.medalZones|
    ensures var (h, total) := AwardUpTo(g, p, i);
      var z := h.medalZones[i];
      && z == g.medalZones[i] && h.vertices == g.vertices
      && AwardUpTo(g, p, i + 1) ==
           if !z.claimed && ZoneOwnedBy(h.vertices, z, p) then
             var h' := h.(medalZones := h.medalZones[i := z.(claimed := true, claimedBy := Some(p))]);
             if p in h.players.m then
               (h'.(players := h.players.Set(p, h.players.m[p].(medals := h.players.m[p].medals + z.points))), total + z.points)
             else (h', total)
           else (h, total)
  {
    var zs := g.medalZones;
    var vs := g.vertices;
    assert zs[..i + 1][..i] == zs[..i];
    var before := AwardZones(zs[..i], vs, p) + zs[i..];
    var after := AwardZones(zs[..i + 1], vs, p) + zs[i + 1..];
    assert before[i] == zs[i];
    assert after == before[i := Award(zs[i], vs, p)] by {
      forall j | 0 <= j < |after| ensures after[j] == before[i := Award(zs[i], vs, p)][j] {
        if j < i {
          assert zs[..i + 1][j] == zs[..i][j];
        }
      }
    }
    var pts := ZonePoints(zs[..i], vs, p);
    var pts' := ZonePoints(zs[..i + 1], vs, p);
    assert pts' == pts + (if !zs[i].claimed && ZoneOwnedBy(vs, zs[i], p) then zs[i].points else 0);
    if p in g.players.m {
      var pl := g.players.m[p];
      var h := g.(medalZones := before, players := g.players.Set(p, pl.(medals := pl.medals + pts)));
      assert AwardUpTo(g, p, i) == (h, pts);
      assert h.players.m[p] == pl.(medals := pl.medals + pts);
      assert h.players.Set(p, pl.(medals := pl.medals + pts')) == g.players.Set(p, pl.(medals := pl.medals + pts'));
      var z := zs[i];
      if !z.claimed && ZoneOwnedBy(vs, z, p) {
        assert pts' == pts + z.points;
        assert AwardUpTo(g, p, i + 1) == (g.(medalZones := after, players := g.players.Set(p, pl.(medals := pl.medals + pts'))), pts');
        assert Award(z, vs, p) == z.(claimed := true, claimedBy := Some(p));
        var h' := h.(medalZones := h.medalZones[i := z.(claimed := true, claimedBy := Some(p))]);
        assert h'.(players := h.players.Set(p, h.players.m[p].(medals := h.players.m[p].medals + z.points)))
          == g.(medalZones := after, players := g.players.Set(p, pl.(medals := pl.medals + pts')));
      } else {
        assert pts' == pts;
        assert after == before;
      }
    } else {
      var z := zs[i];
      if !z.claimed && ZoneOwnedBy(vs, z, p) {
        assert Award(z, vs, p) == z.(claimed := true, claimedBy := Some(p));
      } else {
        assert after == before;
      }
    }
  }

  /** Scoring leaves claimed zones alone, and claims an open zone exactly when `p` owns all of it. */
  lemma AwardMedalsZones(g: Game, p: string, i: int)
    requires 0 <= i < |g.medalZones|
    ensures var zs := AwardMedals(g, p).0.medalZones;
      && |zs| == |g.medalZones|
      && (g.medalZones[i].claimed ==> zs[i] == g.medalZones[i])
      && (!g.medalZones[i].claimed ==>
            (zs[i].claimed <==> ZoneOwnedBy(g.vertices, g.medalZones[i], p))
            && (zs[i].claimed ==> zs[i].claimedBy == Some(p)))
      && zs[i].vertices == g.medalZones[i].vertices && zs[i].points == g.medalZones[i].points
  {
  }

  /** The acting player's medals rise by exactly the reported total; nobody else's change. */
  lemma AwardMedalsCount(g: Game, p: string, q: string)
    requires g.players.Wf()
    ensures var (g', total) := AwardMedals(g, p);
      && g'.players.keys == g.players.keys
      && (p in g.players.m ==> g'.players.m[p].medals == g.players.m[p].medals + total)
      && (p !in g.players.m ==> total == 0)
      && (q != p && q in g.players.m ==> g'.players.m[q] == g.players.m[q])
      && g'.vertices == g.vertices && g'.currentTurn == g.currentTurn && g'.pendingAction == g.pendingAction
  {
  }

  /** Awarded points are never negative when zone points are not. */
  lemma {:induction false} ZonePointsNonNegative(zones: seq<MedalZone>, vs: OrderedMap<Vertex>, p: string)
    requires forall i :: 0 <= i < |zones| ==> zones[i].points >= 0
    ensures ZonePoints(zones, vs, p) >= 0
  {
    if zones != [] {
      ZonePointsNonNegative(zones[..|zones| - 1], vs, p);
    }
  }

  /** A claim, once made, survives any further scoring pass by anyone. */
  predicate ClaimsKept(before: seq<MedalZone>, after: seq<MedalZone>) {
    && |before| == |after|
    && forall i :: 0 <= i < |before| && before[i].claimed ==> after[i] == before[i]
  }

  lemma AwardKeepsClaims(g: Game, p: string)
    ensures ClaimsKept(g.medalZones, AwardMedals(g, p).0.medalZones)
  {
  }

  // The win check

  function OpponentBase(c: PlayerColor): string {
    if c == Red then "Y" else "X"
  }

  /** The player under key `k` has 7 medals, or its soldier tops the other colour's base. */
  predicate Wins(players: map<string, Player>, vs: OrderedMap<Vertex>, k: string) {
    k in players && (players[k].medals >= 7 || OwnedBy(vs, OpponentBase(players[k].color), k))
  }

  /** The first key, in order, whose player wins. */
  function FirstWinner(keys: seq<string>, players: map<string, Player>, vs: OrderedMap<Vertex>): (r: Option<string>)
    ensures r.None? <==> forall i :: 0 <= i < |keys| ==> !Wins(players, vs, keys[i])
    ensures r.Some? ==> r.value in keys && Wins(players, vs, r.value)
  {
    if keys == [] then None
    else if Wins(players, vs, keys[0]) then Some(keys[0])
    else FirstWinner(keys[1..], players, vs)
  }

  /** The winner reported comes before every other winner in the player order. */
  lemma {:induction false} FirstWinnerIsFirst(keys: seq<string>, players: map<string, Player>, vs: OrderedMap<Vertex>)
    ensures var r := FirstWinner(keys, players, vs);
      r.Some? ==> exists i :: (0 <= i < |keys| && keys[i] == r.value &&
                               forall j :: 0 <= j < i ==> !Wins(players, vs, keys[j]))
  {
    if keys != [] && !Wins(players, vs, keys[0]) {
      FirstWinnerIsFirst(keys[1..], players, vs);
      var r := FirstWinner(keys, players, vs);
      if r.Some? {
        var i :| 0 <= i < |keys[1..]| && keys[1..][i] == r.value && forall j :: 0 <= j < i ==> !Wins(players, vs, keys[1..][j]);
        assert keys[i + 1] == r.value && forall j :: 0 <= j < i + 1 ==> !Wins(players, vs, keys[j]);
      }
    }
  }

  /** `checkWinCondition`. */
  function CheckWinCondition(g: Game): (r: Option<string>)
    ensures r.Some? ==> r.value in g.players.keys && Wins(g.players.m, g.vertices, r.value)
    ensures (forall k :: k in g.players.m ==> !Wins(g.players.m, g.vertices, k)) ==> r.None?
  {
    FirstWinner(g.players.keys, g.players.m, g.vertices)
  }

  /** A reported winner is a player that wins; no report means no player wins. */
  lemma WinConditionMeaning(g: Game)
    requires g.players.Wf()
    ensures var r := CheckWinCondition(g);
      && (r.Some? ==> r.value in g.players.m && Wins(g.players.m, g.vertices, r.value))
      && (r.None? <==> forall k :: k in g.players.m ==> !Wins(g.players.m, g.vertices, k))
  {
    var r := CheckWinCondition(g);
    if r.None? {
      forall k | k in g.players.m ensures !Wins(g.players.m, g.vertices, k) {
        var i :| 0 <= i < |g.players.keys| && g.players.keys[i] == k;
      }
    }
  }

  // The document round trip

  /** `toJSON`: the maps become their entry lists, every other field is copied. */
  function ToDoc(g: Game): (d: GameDoc)
    requires g.vertices.Wf() && g.players.Wf()
  {
    GameDoc(Some(g.vertices.Entries()), Some(g.players.Entries()), g.currentTurn, Some(g.turnCount),
            Some(g.gameStatus), g.winner, Some(g.medalZones), g.turnStartSnapshot, g.pendingAction)
  }

  function OrElse<T>(o: Option<T>, d: T): T {
    if o.Some? then o.value else d
  }

  /**
   * `fromJSON`: maps rebuilt from their entries, missing parts defaulted (no entries, turn 0,
   * waiting, no zones). The adjacency is the freshly built board's, not the document's.
   */
  function FromDoc(d: GameDoc): (g: Game)
    ensures g.vertices.Wf() && g.players.Wf()
  {
    Game(FromEntries(OrElse(d.vertices, [])), Board.Adjacency(), FromEntries(OrElse(d.players, [])),
         d.currentTurn, OrElse(d.turnCount, 0), OrElse(d.gameStatus, Waiting), d.winner,
         d.turnStartSnapshot, d.pendingAction, OrElse(d.medalZones, []))
  }

  /** Reading back a written document gives back the state, with the board's own adjacency. */
  lemma DocRoundTrip(g: Game)
    requires g.vertices.Wf() && g.players.Wf()
    ensures FromDoc(ToDoc(g)) == g.(adjacency := Board.Adjacency())
  {
    FromEntriesOfEntries(g.vertices);
    FromEntriesOfEntries(g.players);
  }

  /** An empty document reads as a game with no vertices, no players, turn 0, waiting, no zones. */
  lemma EmptyDocDefaults()
    ensures var g := FromDoc(GameDoc(None, None, None, None, None, None, None, None, None));
      && g.vertices.keys == [] && g.players.keys == [] && g.turnCount == 0 && g.gameStatus == Waiting
      && g.medalZones == [] && g.currentTurn == None && g.pendingAction == None
  {
  }
}
