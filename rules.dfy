/**
 * The move rules of `GameLogicService` as pure transitions on the game value: the draw,
 * the placement check and placement, the soldier effects, the Giant's selection, the
 * turn advance and the initial deal.
 */
module Rules {
  import opened Wrappers
  import opened OrderedMaps
  import opened GameTypes
  import opened Cards
  import opened GameModel
  import Board

  // Drawing

  /** `drawTwoSoldiers`: refused for an unknown player or a full stand; one card at 7, else two. */
  function DrawTwo(g: Game, pid: string): (res: (Game, bool))
    ensures res.0 == g.(players := res.0.players) && res.0.players.keys == g.players.keys
    ensures g.players.Wf() ==> res.0.players.Wf()
  {
    if pid !in g.players.m then (g, false)
    else
      var pl := g.players.m[pid];
      if |pl.stand| >= 8 then (g, false)
      else
        var count := if |pl.stand| == 7 then 1 else 2;
        (g.(players := g.players.Set(pid, DrawCards(pl, pid, count))), true)
  }

  /** Every player's stand holds at most 8 cards. */
  ghost predicate StandsCapped(g: Game) {
    forall k :: k in g.players.m ==> |g.players.m[k].stand| <= 8
  }

  /** A refused draw changes nothing; an accepted one moves `min(count, deck)` cards and keeps stands capped. */
  lemma DrawTwoEffect(g: Game, pid: string)
    requires StandsCapped(g)
    ensures var (g', ok) := DrawTwo(g, pid);
      && (ok <==> pid in g.players.m && |g.players.m[pid].stand| < 8)
      && (!ok ==> g' == g)
      && (ok ==> var pl := g.players.m[pid];
                 var k := Min(if |pl.stand| == 7 then 1 else 2, |pl.deck|);
                 |g'.players.m[pid].stand| == |pl.stand| + k
                 && |g'.players.m[pid].deck| == |pl.deck| - k)
      && StandsCapped(g')
  {
  }

  // Placement

  /** The placement verdict; each refusal is named after its reason, in the order they are checked. */
  datatype Verdict = Allowed | NoPlayer | BadIndex | NoVertex | OwnBase | NotConnected | Outpowered

  /** `canPlaceSoldier`. */
  ghost function PlaceCheck(g: Game, pid: string, idx: int, target: string): (v: Verdict)
    ensures v == Allowed ==>
      && pid in g.players.m && 0 <= idx < |g.players.m[pid].stand| && target in g.vertices.m
      && target != Board.BaseOf(g.players.m[pid].color)
  {
    if pid !in g.players.m then NoPlayer
    else
      var pl := g.players.m[pid];
      if idx < 0 || idx >= |pl.stand| then BadIndex
      else
        var s := pl.stand[idx];
        if target !in g.vertices.m then NoVertex
        else if target == Board.BaseOf(pl.color) then OwnBase
        else if s.rank != 4 && !Connected(g.adjacency, g.vertices, PlayerBase(g.players, pid), target, pid) then NotConnected
        else
          var stack := g.vertices.m[target].soldiers;
          if stack != [] && s.rank != 8 && stack[|stack| - 1].playerId != pid && s.power <= stack[|stack| - 1].power
          then Outpowered
          else Allowed
  }

  /** A soldier of equal power cannot replace an opponent's top soldier; only a stronger one or the joker can. */
  lemma DominanceRule(g: Game, pid: string, idx: int, target: string)
    requires pid in g.players.m && 0 <= idx < |g.players.m[pid].stand|
    requires target in g.vertices.m && g.vertices.m[target].soldiers != []
    requires PlaceCheck(g, pid, idx, target) in {Allowed, Outpowered}
    ensures var s := g.players.m[pid].stand[idx];
      var top := g.vertices.m[target].soldiers[|g.vertices.m[target].soldiers| - 1];
      PlaceCheck(g, pid, idx, target) == Allowed <==> s.rank == 8 || top.playerId == pid || s.power > top.power
  {
  }

  /** The Coco captain (rank 4) skips the connection test; every other rank needs it. */
  lemma ConnectionRule(g: Game, pid: string, idx: int, target: string)
    requires pid in g.players.m && 0 <= idx < |g.players.m[pid].stand|
    requires PlaceCheck(g, pid, idx, target) == Allowed
    ensures g.players.m[pid].stand[idx].rank != 4 ==>
      Connected(g.adjacency, g.vertices, Board.BaseOf(g.players.m[pid].color), target, pid)
    ensures target != Board.BaseOf(g.players.m[pid].color) && target in g.vertices.m
  {
  }

  function RemoveAt<T>(s: seq<T>, i: nat): (r: seq<T>)
    requires i < |s|
    ensures |r| == |s| - 1 && multiset(r) + multiset{s[i]} == multiset(s)
  {
    assert s == s[..i] + [s[i]] + s[i + 1..];
    s[..i] + s[i + 1..]
  }

  /** What `placeSoldier` reports. */
  datatype PlaceResult = PlaceResult(success: bool, medalAwarded: int, gameEnded: bool)

  /** The placement itself: the stand card moves to the top of the target stack. */
  function Move(g: Game, pid: string, idx: nat, target: string): (g': Game)
    requires pid in g.players.m && idx < |g.players.m[pid].stand| && target in g.vertices.m
    ensures g'.vertices.keys == g.vertices.keys && g'.players.keys == g.players.keys
    ensures target in g'.vertices.m && pid in g'.players.m
    ensures g'.vertices.m[target].soldiers == g.vertices.m[target].soldiers + [g.players.m[pid].stand[idx]]
    ensures |g'.players.m[pid].stand| == |g.players.m[pid].stand| - 1
    ensures multiset(g'.players.m[pid].stand) + multiset{g.players.m[pid].stand[idx]} == multiset(g.players.m[pid].stand)
    ensures g'.players.m[pid].deck == g.players.m[pid].deck && g'.players.m[pid].discardPile == g.players.m[pid].discardPile
    ensures forall k :: k in g.players.m && k != pid ==> k in g'.players.m && g'.players.m[k] == g.players.m[k]
    ensures forall u :: u in g.vertices.m && u != target ==> u in g'.vertices.m && g'.vertices.m[u] == g.vertices.m[u]
    ensures g' == g.(players := g'.players, vertices := g'.vertices)
  {
    var pl := g.players.m[pid];
    g.(players := g.players.Set(pid, pl.(stand := RemoveAt(pl.stand, idx))),
       vertices := Push(g.vertices, target, pl.stand[idx]))
  }

  /**
   * `placeSoldier`: check, then move the card and resolve its consequences; `r` is the
   * draw the XB-42 effect uses.
   */
  ghost function Place(g: Game, pid: string, idx: int, target: string, r: real): (res: (Game, PlaceResult))
    requires 0.0 <= r < 1.0
    ensures res.1.success <==> PlaceCheck(g, pid, idx, target) == Allowed
    ensures !res.1.success ==> res.0 == g && !res.1.gameEnded
    ensures g.players.Wf() ==> res.0.players.Wf()
    ensures res.0.players.m.Keys == g.players.m.Keys
  {
    if PlaceCheck(g, pid, idx, target) != Allowed then (g, PlaceResult(false, 0, false))
    else Resolve(Move(g, pid, idx, target), pid, g.players.m[pid].stand[idx], target, r)
  }

  /**
   * The `if (winner)` test of `placeSoldier`: a found id counts only when it is truthy, so a
   * player whose id is the empty string never ends the game.
   */
  predicate EndsGame(w: Option<string>) {
    w.Some? && w.value != ""
  }

  /** After the move: apply the soldier's effect, score the zones, then look for a winner. */
  function Resolve(g0: Game, pid: string, s: Soldier, target: string, r: real): (res: (Game, PlaceResult))
    requires 0.0 <= r < 1.0
    ensures res.1.success && (g0.players.Wf() ==> res.0.players.Wf())
    ensures res.0.players.m.Keys == g0.players.m.Keys
    ensures res.0.vertices == g0.vertices && res.0.players.keys == g0.players.keys && res.0.adjacency == g0.adjacency
  {
    var g1 := ApplyEffect(g0, pid, s, target, r);
    var (g2, medals) := AwardMedals(g1, pid);
    var w := CheckWinCondition(g2);
    if EndsGame(w) then (g2.(gameStatus := Finished, winner := w), PlaceResult(true, medals, true))
    else (g2, PlaceResult(true, medals, false))
  }

  // Effects

  /** A neighbour the Giant may hit: it holds a soldier of another player that is not a base marker. */
  predicate Removable(vs: OrderedMap<Vertex>, v: string, pid: string) {
    && v in vs.m && vs.m[v].soldiers != []
    && var top := vs.m[v].soldiers[|vs.m[v].soldiers| - 1];
    && top.playerId != pid && top.rank != 0
  }

  /** The removable vertices among `nbrs`, in order. */
  function GiantTargets(vs: OrderedMap<Vertex>, pid: string, nbrs: seq<string>): (r: seq<string>)
    ensures forall v :: v in r <==> v in nbrs && Removable(vs, v, pid)
    ensures |r| <= |nbrs|
  {
    if nbrs == [] then []
    else
      var rest := GiantTargets(vs, pid, nbrs[..|nbrs| - 1]);
      var v := nbrs[|nbrs| - 1];
      assert nbrs == nbrs[..|nbrs| - 1] + [v];
      if Removable(vs, v, pid) then rest + [v] else rest
  }

  /** `removeAdjacentEnemySoldier`: a Giant selection becomes pending only if there is a target. */
  function GiantEffect(g: Game, pid: string, target: string): (g': Game)
    ensures g' == g.(pendingAction := g'.pendingAction)
  {
    var targets := GiantTargets(g.vertices, pid, Neighbors(g.adjacency, target));
    if |targets| > 0 then g.(pendingAction := Some(SelectGiantTarget(pid, targets, target))) else g
  }

  /** An enemy for the XB-42: a player record with another id and a non-empty stand. */
  predicate Victim(players: map<string, Player>, k: string, pid: string) {
    k in players && players[k].id != pid && |players[k].stand| > 0
  }

  /** The first key, in order, whose player is a victim. */
  function FirstVictim(keys: seq<string>, players: map<string, Player>, pid: string): (r: Option<string>)
    ensures r.None? <==> forall i :: 0 <= i < |keys| ==> !Victim(players, keys[i], pid)
    ensures r.Some? ==> r.value in keys && Victim(players, r.value, pid)
  {
    if keys == [] then None
    else if Victim(players, keys[0], pid) then Some(keys[0])
    else FirstVictim(keys[1..], players, pid)
  }

  /** The victim chosen comes before every other victim. */
  lemma {:induction false} FirstVictimIsFirst(keys: seq<string>, players: map<string, Player>, pid: string)
    ensures var r := FirstVictim(keys, players, pid);
      r.Some? ==> exists i :: (0 <= i < |keys| && keys[i] == r.value &&
                               forall j :: 0 <= j < i ==> !Victim(players, keys[j], pid))
  {
    if keys != [] && !Victim(players, keys[0], pid) {
      FirstVictimIsFirst(keys[1..], players, pid);
      var r := FirstVictim(keys, players, pid);
      if r.Some? {
        var i :| 0 <= i < |keys[1..]| && keys[1..][i] == r.value && forall j :: 0 <= j < i ==> !Victim(players, keys[1..][j], pid);
        assert keys[i + 1] == r.value && forall j :: 0 <= j < i + 1 ==> !Victim(players, keys[j], pid);
      }
    }
  }

  /** One stand card, chosen by the draw, moved to the same player's discard pile. */
  function Discard(pl: Player, r: real): Player
    requires |pl.stand| > 0 && 0.0 <= r < 1.0
  {
    var j := Pick(r, |pl.stand|);
    pl.(stand := RemoveAt(pl.stand, j), discardPile := pl.discardPile + [pl.stand[j]])
  }

  /** `removeRandomEnemyStandSoldier`. */
  function RemoveEnemyStandSoldier(g: Game, pid: string, r: real): (g': Game)
    requires 0.0 <= r < 1.0
    ensures g' == g.(players := g'.players) && g'.players.keys == g.players.keys
    ensures g.players.Wf() ==> g'.players.Wf()
  {
    var v := FirstVictim(g.players.keys, g.players.m, pid);
    if v.None? then g
    else g.(players := g.players.Set(v.value, Discard(g.players.m[v.value], r)))
  }

  /** The Rainbow's draw: one card, only if the deck has one and the stand has room. */
  function DrawOne(g: Game, pid: string): (g': Game)
    requires pid in g.players.m
    ensures g' == g.(players := g'.players) && g'.players.keys == g.players.keys
    ensures g.players.Wf() ==> g'.players.Wf()
  {
    var pl := g.players.m[pid];
    if |pl.deck| > 0 && |pl.stand| < 8 then g.(players := g.players.Set(pid, DrawCards(pl, pid, 1))) else g
  }

  /** `applySoldierEffect`: what the soldier just placed on `target` does. */
  function ApplyEffect(g: Game, pid: string, s: Soldier, target: string, r: real): (g': Game)
    requires 0.0 <= r < 1.0
    ensures g' == g.(players := g'.players, pendingAction := g'.pendingAction)
    ensures g'.players.keys == g.players.keys && g'.players.m.Keys == g.players.m.Keys
    ensures g.players.Wf() ==> g'.players.Wf()
  {
    if pid !in g.players.m then g
    else if s.rank == 1 then DrawTwo(g, pid).0
    else if s.rank == 2 then g.(pendingAction := Some(PlaceAdditionalSoldier(pid)))
    else if s.rank == 3 then GiantEffect(g, pid, target)
    else if s.rank == 5 then RemoveEnemyStandSoldier(g, pid, r)
    else if s.rank == 6 then DrawOne(g, pid)
    else g
  }

  // The Giant's selection

  /** The pending action is a Giant selection by `pid` that lists `v`. */
  predicate GiantMayTake(g: Game, pid: string, v: string) {
    && g.pendingAction.Some?
    && g.pendingAction.value.SelectGiantTarget?
    && g.pendingAction.value.playerId == pid
    && v in g.pendingAction.value.availableTargets
  }

  /** `executeGiantSelection`: pop the chosen stack's top into its owner's discard pile (if the owner plays). */
  function GiantSelection(g: Game, pid: string, v: string): (res: (Game, bool))
    ensures res.1 <==> GiantMayTake(g, pid, v)
    ensures res.0 == g.(vertices := res.0.vertices, players := res.0.players, pendingAction := res.0.pendingAction)
    ensures res.1 ==> res.0.pendingAction == None
    ensures forall u :: u in g.vertices.m && u != v ==> u in res.0.vertices.m && res.0.vertices.m[u] == g.vertices.m[u]
  {
    if !GiantMayTake(g, pid, v) then (g, false)
    else if v in g.vertices.m && g.vertices.m[v].soldiers != [] then
      var stack := g.vertices.m[v].soldiers;
      var top := stack[|stack| - 1];
      var vs := g.vertices.Set(v, g.vertices.m[v].(soldiers := stack[..|stack| - 1]));
      var ps := if top.playerId in g.players.m
                then g.players.Set(top.playerId, g.players.m[top.playerId].(discardPile := g.players.m[top.playerId].discardPile + [top]))
                else g.players;
      (g.(vertices := vs, players := ps, pendingAction := None), true)
    else (g.(pendingAction := None), true)
  }

  // The turn

  /** The first position of `x` in `keys`, or -1 (`indexOf`). */
  function IndexOf(keys: seq<string>, x: Option<string>): (r: int)
    ensures -1 <= r < |keys|
    ensures r >= 0 ==> x.Some? && keys[r] == x.value && forall j :: 0 <= j < r ==> keys[j] != x.value
    ensures r == -1 ==> x.None? || x.value !in keys
  {
    if x.None? || keys == [] then -1
    else if keys[0] == x.value then 0
    else
      var r := IndexOf(keys[1..], x);
      if r == -1 then -1 else r + 1
  }

  /** `nextTurn`: the player after the current one, wrapping; with no players the turn is undefined. */
  function NextTurn(g: Game): (g': Game)
    ensures g'.turnCount == g.turnCount + 1
  {
    var keys := g.players.keys;
    var i := IndexOf(keys, g.currentTurn);
    var next := if |keys| == 0 then None else Some(keys[(i + 1) % |keys|]);
    g.(currentTurn := next, turnCount := g.turnCount + 1)
  }

  /** The turn moves one place along the player order, wrapping; an unknown current player hands it to the first. */
  lemma NextTurnOrder(g: Game, i: int)
    requires g.players.Wf() && 0 <= i < |g.players.keys|
    ensures g.currentTurn == Some(g.players.keys[i]) ==>
      NextTurn(g).currentTurn == Some(g.players.keys[(i + 1) % |g.players.keys|])
    ensures (g.currentTurn.None? || g.currentTurn.value !in g.players.m) ==>
      NextTurn(g).currentTurn == Some(g.players.keys[0])
  {
    var keys := g.players.keys;
    var j := IndexOf(keys, g.currentTurn);
    if g.currentTurn == Some(keys[i]) {
      assert keys[j] == keys[i];
      assert j == i;
    } else if g.currentTurn.None? || g.currentTurn.value !in g.players.m {
      assert j == -1;
      assert (j + 1) % |keys| == 0;
    }
  }

  /** With two players the turn alternates: two advances give it back. */
  lemma TwoPlayersAlternate(g: Game)
    requires g.players.Wf() && |g.players.keys| == 2
    requires g.currentTurn.Some? && g.currentTurn.value in g.players.m
    ensures NextTurn(g).currentTurn != g.currentTurn
    ensures NextTurn(NextTurn(g)).currentTurn == g.currentTurn
  {
    var keys := g.players.keys;
    var i :| 0 <= i < 2 && keys[i] == g.currentTurn.value;
    NextTurnOrder(g, i);
    NextTurnOrder(NextTurn(g), (i + 1) % 2);
  }
}
