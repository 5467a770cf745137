/**
 * Properties of the move rules: what a placement does to the board, the stand and the
 * pending action, the stand cap, the permanence of claims, and the conservation of soldiers.
 */
module RuleLemmas {
  import opened Wrappers
  import opened OrderedMaps
  import opened GameTypes
  import opened Cards
  import opened GameModel
  import opened Rules

  /** Cards a player holds anywhere: supply, stand and discard pile. */
  function PlayerCards(pl: Player): int {
    |pl.deck| + |pl.stand| + |pl.discardPile|
  }

  function StackSize(v: Vertex): int {
    |v.soldiers|
  }

  /** Every soldier in the game: the players' cards plus the board's stacks. */
  function Total(g: Game): int {
    SumOf(g.players.keys, g.players.m, PlayerCards) + SumOf(g.vertices.keys, g.vertices.m, StackSize)
  }

  /** A successful placement is the move followed by its resolution. */
  lemma PlaceIsMoveThenResolve(g: Game, pid: string, idx: int, target: string, r: real)
    requires 0.0 <= r < 1.0
    requires Place(g, pid, idx, target, r).1.success
    ensures pid in g.players.m && 0 <= idx < |g.players.m[pid].stand| && target in g.vertices.m
    ensures Place(g, pid, idx, target, r) == Resolve(Move(g, pid, idx, target), pid, g.players.m[pid].stand[idx], target, r)
  {
  }

  /** On success the chosen stand card is the new top of the target stack; nothing else on the board moves. */
  lemma PlacePutsOnTop(g: Game, pid: string, idx: int, target: string, r: real)
    requires 0.0 <= r < 1.0
    requires Place(g, pid, idx, target, r).1.success
    ensures pid in g.players.m && 0 <= idx < |g.players.m[pid].stand| && target in g.vertices.m
    ensures Place(g, pid, idx, target, r).0.vertices == Push(g.vertices, target, g.players.m[pid].stand[idx])
  {
    PlaceIsMoveThenResolve(g, pid, idx, target, r);
  }

  /** An effect only appends to the acting player's stand, provided that player's record carries its own key. */
  lemma EffectKeepsStandPrefix(g: Game, pid: string, s: Soldier, target: string, r: real)
    requires 0.0 <= r < 1.0
    requires pid in g.players.m && g.players.m[pid].id == pid
    ensures var stand := ApplyEffect(g, pid, s, target, r).players.m[pid].stand;
      |g.players.m[pid].stand| <= |stand| && stand[..|g.players.m[pid].stand|] == g.players.m[pid].stand
  {
    var pl := g.players.m[pid];
    if s.rank == 1 {
      DrawCardsMoves(pl, pid, if |pl.stand| == 7 then 1 else 2);
    } else if s.rank == 5 {
      var v := FirstVictim(g.players.keys, g.players.m, pid);
      assert v.Some? ==> v.value != pid;
    } else if s.rank == 6 {
      DrawCardsMoves(pl, pid, 1);
    }
  }

  /**
   * On success the placing player's stand is the old stand without the chosen card,
   * followed by whatever the effect drew; a player whose record carries its own key is never
   * the XB-42's victim.
   */
  lemma PlaceTakesFromStand(g: Game, pid: string, idx: int, target: string, r: real)
    requires 0.0 <= r < 1.0
    requires Place(g, pid, idx, target, r).1.success
    requires pid in g.players.m && g.players.m[pid].id == pid
    ensures 0 <= idx < |g.players.m[pid].stand|
    ensures var stand := Place(g, pid, idx, target, r).0.players.m[pid].stand;
      var rest := RemoveAt(g.players.m[pid].stand, idx);
      |rest| <= |stand| && stand[..|rest|] == rest
  {
    PlaceIsMoveThenResolve(g, pid, idx, target, r);
    var s := g.players.m[pid].stand[idx];
    var g0 := Move(g, pid, idx, target);
    EffectKeepsStandPrefix(g0, pid, s, target, r);
  }

  /** The pending action after an effect: a Captain sets an extra placement, a Giant a selection when it has targets. */
  lemma EffectPending(g: Game, pid: string, s: Soldier, target: string, r: real)
    requires 0.0 <= r < 1.0 && pid in g.players.m
    ensures var pending := ApplyEffect(g, pid, s, target, r).pendingAction;
      var targets := GiantTargets(g.vertices, pid, Neighbors(g.adjacency, target));
      && (s.rank == 2 ==> pending == Some(PlaceAdditionalSoldier(pid)))
      && (s.rank == 3 && |targets| > 0 ==> pending == Some(SelectGiantTarget(pid, targets, target)))
      && (s.rank == 3 && |targets| == 0 ==> pending == g.pendingAction)
      && (s.rank != 2 && s.rank != 3 ==> pending == g.pendingAction)
  {
  }

  /** The pending action after a placement, computed on the board with the new soldier on top. */
  lemma PlacePending(g: Game, pid: string, idx: int, target: string, r: real)
    requires 0.0 <= r < 1.0
    requires Place(g, pid, idx, target, r).1.success
    ensures pid in g.players.m && 0 <= idx < |g.players.m[pid].stand| && target in g.vertices.m
    ensures var s := g.players.m[pid].stand[idx];
      var pending := Place(g, pid, idx, target, r).0.pendingAction;
      var targets := GiantTargets(Push(g.vertices, target, s), pid, Neighbors(g.adjacency, target));
      && (s.rank == 2 ==> pending == Some(PlaceAdditionalSoldier(pid)))
      && (s.rank == 3 && |targets| > 0 ==> pending == Some(SelectGiantTarget(pid, targets, target)))
      && (s.rank == 3 && |targets| == 0 ==> pending == g.pendingAction)
      && (s.rank != 2 && s.rank != 3 ==> pending == g.pendingAction)
  {
    PlaceIsMoveThenResolve(g, pid, idx, target, r);
    EffectPending(Move(g, pid, idx, target), pid, g.players.m[pid].stand[idx], target, r);
  }

  /** Replacing one player by one whose stand holds at most 8 keeps all stands capped. */
  lemma SetKeepsCapped(g: Game, k: string, pl: Player)
    requires StandsCapped(g) && |pl.stand| <= 8
    ensures StandsCapped(g.(players := g.players.Set(k, pl)))
  {
  }

  /** No effect lets a stand grow past 8. */
  lemma EffectKeepsStandsCapped(g: Game, pid: string, s: Soldier, target: string, r: real)
    requires 0.0 <= r < 1.0 && StandsCapped(g)
    ensures StandsCapped(ApplyEffect(g, pid, s, target, r))
  {
    if pid in g.players.m {
      var pl := g.players.m[pid];
      if s.rank == 1 {
        DrawTwoEffect(g, pid);
      } else if s.rank == 5 {
        var v := FirstVictim(g.players.keys, g.players.m, pid);
        if v.Some? {
          SetKeepsCapped(g, v.value, Discard(g.players.m[v.value], r));
        }
      } else if s.rank == 6 && |pl.deck| > 0 && |pl.stand| < 8 {
        SetKeepsCapped(g, pid, DrawCards(pl, pid, 1));
      }
    }
  }

  /** No placement lets a stand grow past 8. */
  lemma PlaceKeepsStandsCapped(g: Game, pid: string, idx: int, target: string, r: real)
    requires 0.0 <= r < 1.0 && StandsCapped(g)
    ensures StandsCapped(Place(g, pid, idx, target, r).0)
  {
    if Place(g, pid, idx, target, r).1.success {
      PlaceIsMoveThenResolve(g, pid, idx, target, r);
      var s := g.players.m[pid].stand[idx];
      var g0 := Move(g, pid, idx, target);
      assert StandsCapped(g0);
      var g1 := ApplyEffect(g0, pid, s, target, r);
      EffectKeepsStandsCapped(g0, pid, s, target, r);
      assert StandsCapped(AwardMedals(g1, pid).0);
    }
  }

  /**
   * The resolution reports the end of the game exactly when it finds a winner whose id is not
   * empty, and then records it.
   */
  lemma ResolveEnds(g0: Game, pid: string, s: Soldier, target: string, r: real)
    requires 0.0 <= r < 1.0
    ensures var (g', res) := Resolve(g0, pid, s, target, r);
      && (res.gameEnded <==> CheckWinCondition(g').Some? && CheckWinCondition(g').value != "")
      && (res.gameEnded ==> g'.gameStatus == Finished && g'.winner == CheckWinCondition(g')
                            && g'.winner.value != "" && Wins(g'.players.m, g'.vertices, g'.winner.value))
      && (!res.gameEnded ==> g'.gameStatus == g0.gameStatus && g'.winner == g0.winner)
      && ClaimsKept(g0.medalZones, g'.medalZones)
  {
    var g1 := ApplyEffect(g0, pid, s, target, r);
    AwardKeepsClaims(g1, pid);
  }

  /** A placement ends the game exactly when it finds a winner with a non-empty id, records it, and keeps every claim. */
  lemma PlaceEnds(g: Game, pid: string, idx: int, target: string, r: real)
    requires 0.0 <= r < 1.0
    ensures var (g', res) := Place(g, pid, idx, target, r);
      && (res.gameEnded ==> res.success && g'.gameStatus == Finished && g'.winner == CheckWinCondition(g')
                            && g'.winner.value != "" && Wins(g'.players.m, g'.vertices, g'.winner.value))
      && (res.success && !res.gameEnded ==> CheckWinCondition(g').None? || CheckWinCondition(g').value == "")
      && (!res.gameEnded ==> g'.gameStatus == g.gameStatus && g'.winner == g.winner)
      && ClaimsKept(g.medalZones, g'.medalZones)
  {
    if Place(g, pid, idx, target, r).1.success {
      PlaceIsMoveThenResolve(g, pid, idx, target, r);
      ResolveEnds(Move(g, pid, idx, target), pid, g.players.m[pid].stand[idx], target, r);
    }
  }

  /** Moving the card keeps the number of soldiers. */
  lemma MoveConserves(g: Game, pid: string, idx: nat, target: string)
    requires g.players.Wf() && g.vertices.Wf()
    requires pid in g.players.m && idx < |g.players.m[pid].stand| && target in g.vertices.m
    ensures Total(Move(g, pid, idx, target)) == Total(g)
  {
    var pl := g.players.m[pid];
    SumAfterSet(g.players, PlayerCards, pid, pl.(stand := RemoveAt(pl.stand, idx)));
    var v := g.vertices.m[target];
    SumAfterSet(g.vertices, StackSize, target, v.(soldiers := v.soldiers + [pl.stand[idx]]));
  }

  /** Replacing one player by another holding as many cards keeps the total. */
  lemma SetPlayerConserves(g: Game, k: string, pl: Player)
    requires Distinct(g.players.keys) && Distinct(g.vertices.keys) && k in g.players.m
    requires PlayerCards(pl) == PlayerCards(g.players.m[k])
    ensures Total(g.(players := g.players.Set(k, pl))) == Total(g)
  {
    SumAfterSet(g.players, PlayerCards, k, pl);
  }

  lemma DrawTwoConserves(g: Game, pid: string)
    requires Distinct(g.players.keys) && Distinct(g.vertices.keys)
    ensures Total(DrawTwo(g, pid).0) == Total(g)
  {
    if DrawTwo(g, pid).1 {
      var pl := g.players.m[pid];
      SetPlayerConserves(g, pid, DrawCards(pl, pid, if |pl.stand| == 7 then 1 else 2));
    }
  }

  lemma DrawOneConserves(g: Game, pid: string)
    requires Distinct(g.players.keys) && Distinct(g.vertices.keys) && pid in g.players.m
    ensures Total(DrawOne(g, pid)) == Total(g)
  {
    var pl := g.players.m[pid];
    if |pl.deck| > 0 && |pl.stand| < 8 {
      SetPlayerConserves(g, pid, DrawCards(pl, pid, 1));
    }
  }

  lemma EnemyStandConserves(g: Game, pid: string, r: real)
    requires Distinct(g.players.keys) && Distinct(g.vertices.keys) && 0.0 <= r < 1.0
    ensures Total(RemoveEnemyStandSoldier(g, pid, r)) == Total(g)
  {
    var v := FirstVictim(g.players.keys, g.players.m, pid);
    if v.Some? {
      SetPlayerConserves(g, v.value, Discard(g.players.m[v.value], r));
    }
  }

  /** Effects move cards between a player's piles and create or destroy none. */
  lemma EffectConserves(g: Game, pid: string, s: Soldier, target: string, r: real)
    requires Distinct(g.players.keys) && Distinct(g.vertices.keys) && 0.0 <= r < 1.0
    ensures Total(ApplyEffect(g, pid, s, target, r)) == Total(g)
  {
    if pid in g.players.m {
      if s.rank == 1 {
        DrawTwoConserves(g, pid);
      } else if s.rank == 5 {
        EnemyStandConserves(g, pid, r);
      } else if s.rank == 6 {
        DrawOneConserves(g, pid);
      }
    }
  }

  /** Scoring changes medal counts only. */
  lemma AwardConserves(g: Game, pid: string)
    requires Distinct(g.players.keys) && Distinct(g.vertices.keys)
    ensures Total(AwardMedals(g, pid).0) == Total(g)
  {
    if pid in g.players.m {
      var pl := g.players.m[pid];
      SetPlayerConserves(g, pid, pl.(medals := pl.medals + ZonePoints(g.medalZones, g.vertices, pid)));
    }
  }

  /** The resolution moves cards between piles and changes no stack. */
  lemma ResolveConserves(g0: Game, pid: string, s: Soldier, target: string, r: real)
    requires Distinct(g0.players.keys) && Distinct(g0.vertices.keys) && 0.0 <= r < 1.0
    ensures Total(Resolve(g0, pid, s, target, r).0) == Total(g0)
  {
    var g1 := ApplyEffect(g0, pid, s, target, r);
    EffectConserves(g0, pid, s, target, r);
    var g2 := AwardMedals(g1, pid).0;
    AwardConserves(g1, pid);
    var g3 := Resolve(g0, pid, s, target, r).0;
    assert g3.players == g2.players && g3.vertices == g2.vertices;
  }

  /** A placement, with its effect, scoring and win check, neither creates nor destroys a soldier. */
  lemma PlaceConserves(g: Game, pid: string, idx: int, target: string, r: real)
    requires g.players.Wf() && g.vertices.Wf() && 0.0 <= r < 1.0
    ensures Total(Place(g, pid, idx, target, r).0) == Total(g)
  {
    if Place(g, pid, idx, target, r).1.success {
      PlaceIsMoveThenResolve(g, pid, idx, target, r);
      MoveConserves(g, pid, idx, target);
      ResolveConserves(Move(g, pid, idx, target), pid, g.players.m[pid].stand[idx], target, r);
    }
  }

  /** The chosen stand card goes to the same player's discard pile; nothing else of the player changes. */
  lemma DiscardMoves(pl: Player, r: real)
    requires |pl.stand| > 0 && 0.0 <= r < 1.0
    ensures var pl' := Discard(pl, r);
      && |pl'.stand| == |pl.stand| - 1
      && multiset(pl'.stand) + multiset(pl'.discardPile) == multiset(pl.stand) + multiset(pl.discardPile)
      && pl'.discardPile[..|pl.discardPile|] == pl.discardPile && |pl'.discardPile| == |pl.discardPile| + 1
      && pl' == pl.(stand := pl'.stand, discardPile := pl'.discardPile)
  {
  }

  /**
   * The XB-42 changes only the first victim in player order, and nobody if there is none;
   * a player whose record carries its own key is never its own victim.
   */
  lemma EnemyStandEffect(g: Game, pid: string, r: real)
    requires 0.0 <= r < 1.0
    ensures var g' := RemoveEnemyStandSoldier(g, pid, r);
      var v := FirstVictim(g.players.keys, g.players.m, pid);
      && ((forall k :: k in g.players.m ==> !Victim(g.players.m, k, pid)) ==> g' == g)
      && (v.Some? ==> Victim(g.players.m, v.value, pid)
                      && g'.players.m == g.players.m[v.value := Discard(g.players.m[v.value], r)])
      && (pid in g.players.m && g.players.m[pid].id == pid ==> g'.players.m[pid] == g.players.m[pid])
  {
  }

  /** A Giant selection that is not pending for this player and vertex is refused and changes nothing. */
  lemma GiantSelectionRefused(g: Game, pid: string, v: string)
    requires !GiantMayTake(g, pid, v)
    ensures GiantSelection(g, pid, v) == (g, false)
  {
  }

  /**
   * An accepted Giant selection clears the pending action and pops the chosen stack into
   * its top soldier's owner's discard pile; the soldier is lost only if that owner is not a player.
   */
  lemma GiantSelectionEffect(g: Game, pid: string, v: string)
    requires g.players.Wf() && g.vertices.Wf() && GiantMayTake(g, pid, v)
    ensures var (g', ok) := GiantSelection(g, pid, v);
      && ok && g'.pendingAction == None
      && (v in g.vertices.m && g.vertices.m[v].soldiers != [] ==>
            var stack := g.vertices.m[v].soldiers;
            var top := stack[|stack| - 1];
            && g'.vertices.m[v].soldiers == stack[..|stack| - 1]
            && (top.playerId in g.players.m ==>
                  var o := g.players.m[top.playerId];
                  g'.players.m[top.playerId] == o.(discardPile := o.discardPile + [top]))
            && (forall k :: k in g.players.m && k != top.playerId ==> k in g'.players.m && g'.players.m[k] == g.players.m[k])
            && Total(g') == Total(g) - (if top.playerId in g.players.m then 0 else 1))
      && (!(v in g.vertices.m && g.vertices.m[v].soldiers != []) ==> g' == g.(pendingAction := None))
      && g' == g.(vertices := g'.vertices, players := g'.players, pendingAction := None)
      && g'.vertices.keys == g.vertices.keys && g'.players.keys == g.players.keys
      && (forall u :: u in g.vertices.m && u != v ==> u in g'.vertices.m && g'.vertices.m[u] == g.vertices.m[u])
  {
    if v in g.vertices.m && g.vertices.m[v].soldiers != [] {
      var stack := g.vertices.m[v].soldiers;
      var top := stack[|stack| - 1];
      var vx := g.vertices.m[v].(soldiers := stack[..|stack| - 1]);
      SumAfterSet(g.vertices, StackSize, v, vx);
      var h := g.(vertices := g.vertices.Set(v, vx));
      if top.playerId in g.players.m {
        var o := g.players.m[top.playerId];
        SumAfterSet(h.players, PlayerCards, top.playerId, o.(discardPile := o.discardPile + [top]));
      }
    }
  }
}
