/**
 * The turn protocol of the socket gateway: each request restores the stored game document,
 * checks whose move it is, runs the engine, decides whether the turn passes, and stores the
 * new document. A rejected request stores nothing, so the stored game is unchanged.
 */
module TurnProtocol {
  import opened Wrappers
  import opened OrderedMaps
  import opened GameTypes
  import opened GameModel
  import opened Rules
  import GameLogic
  import opened GameStateEntity
  import opened RuleLemmas

  /** `draw_soldiers`: only on one's own turn, with room on the stand and a card in the deck; then the turn passes. */
  function DrawStep(g: Game, pid: string): (r: Option<Game>)
  {
    if g.currentTurn != Some(pid) || pid !in g.players.m then None
    else
      var pl := g.players.m[pid];
      if |pl.stand| >= 8 || |pl.deck| == 0 then None
      else
        var (g1, ok) := DrawTwo(g, pid);
        if !ok then None else Some(Rules.NextTurn(g1))
  }

  /** The mover may place: it is their turn, or a Captain's extra placement is pending for them. */
  predicate MayPlace(g: Game, pid: string) {
    g.currentTurn == Some(pid) || g.pendingAction == Some(PlaceAdditionalSoldier(pid))
  }

  /** The state the placement runs on: a pending Captain placement of the mover's is cleared first. */
  function BeforePlace(g: Game, pid: string): Game {
    if g.pendingAction == Some(PlaceAdditionalSoldier(pid)) then g.(pendingAction := None) else g
  }

  /**
   * `place_soldier`: the placement runs on `BeforePlace`; a refused placement is rejected;
   * otherwise the turn passes exactly when no action is pending afterwards.
   */
  ghost function PlaceStep(g: Game, pid: string, idx: int, target: string, r: real): Option<(Game, PlaceResult)>
    requires 0.0 <= r < 1.0
  {
    if !MayPlace(g, pid) then None
    else
      var (g2, res) := Place(BeforePlace(g, pid), pid, idx, target, r);
      if !res.success then None else Some((Settle(g2), res))
  }

  /** After a placement the turn passes only if no action is pending. */
  function Settle(g: Game): Game {
    if g.pendingAction.None? then Rules.NextTurn(g) else g
  }

  /** `select_giant_target`: the selection must be accepted; the turn then always passes. */
  function GiantStep(g: Game, pid: string, v: string): Option<Game> {
    var (g1, ok) := GiantSelection(g, pid, v);
    if !ok then None else Some(Rules.NextTurn(g1))
  }

  // Properties of the protocol

  /** A draw is accepted exactly on one's own turn with room on the stand and a card in the deck; it passes the turn. */
  lemma DrawRule(g: Game, pid: string)
    ensures DrawStep(g, pid).Some? <==>
      g.currentTurn == Some(pid) && pid in g.players.m
      && |g.players.m[pid].stand| < 8 && |g.players.m[pid].deck| > 0
    ensures DrawStep(g, pid).Some? ==>
      var g' := DrawStep(g, pid).value;
      && g'.turnCount == g.turnCount + 1
      && pid in g'.players.m
      && |g.players.m[pid].stand| < |g'.players.m[pid].stand| <= 8
  {
    if DrawStep(g, pid).Some? {
      var pl := g.players.m[pid];
      var count := if |pl.stand| == 7 then 1 else 2;
      var g1 := DrawTwo(g, pid).0;
      assert g1.players.m[pid] == Cards.DrawCards(pl, pid, count);
    }
  }

  /** Engine moves leave the turn alone: placement never changes whose turn it is or the turn count. */
  lemma PlaceKeepsTurn(g: Game, pid: string, idx: int, target: string, r: real)
    requires 0.0 <= r < 1.0
    ensures var g' := Place(g, pid, idx, target, r).0;
      g'.currentTurn == g.currentTurn && g'.turnCount == g.turnCount
  {
    if PlaceCheck(g, pid, idx, target) == Allowed {
      var g0 := Move(g, pid, idx, target);
      var g1 := ApplyEffect(g0, pid, g.players.m[pid].stand[idx], target, r);
      assert g1.currentTurn == g.currentTurn && g1.turnCount == g.turnCount;
      var g2 := AwardMedals(g1, pid).0;
      assert g2.currentTurn == g.currentTurn && g2.turnCount == g.turnCount;
    }
  }

  /**
   * An accepted placement was made by a player allowed to move and passed the placement check;
   * the turn passes (count up by one) exactly when no action is pending afterwards, and while one
   * is pending the same player keeps the turn.
   */
  lemma PlaceTurnRule(g: Game, pid: string, idx: int, target: string, r: real)
    requires 0.0 <= r < 1.0
    ensures PlaceStep(g, pid, idx, target, r).Some? <==>
      MayPlace(g, pid) && PlaceCheck(BeforePlace(g, pid), pid, idx, target) == Allowed
    ensures PlaceStep(g, pid, idx, target, r).Some? ==>
      var g' := PlaceStep(g, pid, idx, target, r).value.0;
      && (g'.pendingAction.None? <==> g'.turnCount == g.turnCount + 1)
      && (g'.pendingAction.Some? ==> g'.currentTurn == g.currentTurn && g'.turnCount == g.turnCount)
  {
    var g1 := BeforePlace(g, pid);
    PlaceKeepsTurn(g1, pid, idx, target, r);
  }

  /** A Captain's extra placement can be made off-turn, but only by the player it was granted to. */
  lemma CaptainGrantsPlacement(g: Game, pid: string, other: string)
    requires g.pendingAction == Some(PlaceAdditionalSoldier(pid)) && g.currentTurn != Some(other) && other != pid
    ensures MayPlace(g, pid) && !MayPlace(g, other)
    ensures BeforePlace(g, pid).pendingAction.None? && BeforePlace(g, other) == g
  {
  }

  /** A Giant selection is accepted exactly when it answers the mover's pending selection; it clears it and passes the turn. */
  lemma GiantTurnRule(g: Game, pid: string, v: string)
    ensures GiantStep(g, pid, v).Some? <==> GiantMayTake(g, pid, v)
    ensures GiantStep(g, pid, v).Some? ==>
      var g' := GiantStep(g, pid, v).value;
      g'.pendingAction.None? && g'.turnCount == g.turnCount + 1
  {
  }

  // The game's invariants across whole gateway steps

  /** Passing the turn touches neither the cards nor the board. */
  lemma NextTurnKeeps(g: Game)
    ensures var g' := Rules.NextTurn(g);
      && g' == g.(currentTurn := g'.currentTurn, turnCount := g'.turnCount)
      && Total(g') == Total(g) && (StandsCapped(g) ==> StandsCapped(g'))
  {
  }

  /** An accepted draw keeps every stand within 8, leaves the zones alone and moves cards without creating any. */
  lemma DrawStepKeeps(g: Game, pid: string)
    requires StandsCapped(g) && Distinct(g.players.keys) && Distinct(g.vertices.keys)
    ensures DrawStep(g, pid).Some? ==>
      var g' := DrawStep(g, pid).value;
      StandsCapped(g') && g'.medalZones == g.medalZones && Total(g') == Total(g)
  {
    if DrawStep(g, pid).Some? {
      var g1 := DrawTwo(g, pid).0;
      DrawTwoEffect(g, pid);
      DrawTwoConserves(g, pid);
      NextTurnKeeps(g1);
    }
  }

  /** An accepted placement keeps every stand within 8, keeps every claim and conserves the cards. */
  lemma PlaceStepKeeps(g: Game, pid: string, idx: int, target: string, r: real)
    requires 0.0 <= r < 1.0
    requires StandsCapped(g) && g.players.Wf() && g.vertices.Wf()
    ensures PlaceStep(g, pid, idx, target, r).Some? ==>
      var g' := PlaceStep(g, pid, idx, target, r).value.0;
      StandsCapped(g') && ClaimsKept(g.medalZones, g'.medalZones) && Total(g') == Total(g)
  {
    if PlaceStep(g, pid, idx, target, r).Some? {
      var g1 := BeforePlace(g, pid);
      assert Total(g1) == Total(g) && StandsCapped(g1);
      var g2 := Place(g1, pid, idx, target, r).0;
      PlaceKeepsStandsCapped(g1, pid, idx, target, r);
      PlaceConserves(g1, pid, idx, target, r);
      PlaceEnds(g1, pid, idx, target, r);
      NextTurnKeeps(g2);
    }
  }

  /**
   * An accepted Giant selection keeps every stand within 8 and the zones as they were; the card
   * total drops by one exactly when the removed soldier's owner is not a player.
   */
  lemma GiantStepKeeps(g: Game, pid: string, v: string)
    requires StandsCapped(g) && g.players.Wf() && g.vertices.Wf()
    ensures GiantStep(g, pid, v).Some? ==>
      var g' := GiantStep(g, pid, v).value;
      && StandsCapped(g') && g'.medalZones == g.medalZones
      && Total(g') == Total(g) - (if v in g.vertices.m && g.vertices.m[v].soldiers != [] &&
                                     g.vertices.m[v].soldiers[|g.vertices.m[v].soldiers| - 1].playerId !in g.players.m
                                  then 1 else 0)
  {
    if GiantStep(g, pid, v).Some? {
      var g1 := GiantSelection(g, pid, v).0;
      GiantSelectionEffect(g, pid, v);
      forall k | k in g1.players.m ensures |g1.players.m[k].stand| <= 8 {
        assert k in g.players.m;
      }
      NextTurnKeeps(g1);
    }
  }

  // The handlers over the stored document

  /** The `draw_soldiers` handler: restore, check, draw, pass the turn, store. */
  method HandleDraw(stored: GameDoc, pid: string) returns (next: GameDoc, ok: bool)
    ensures var st := DrawStep(FromDoc(stored), pid);
      && ok == st.Some?
      && next == (if ok then ToDoc(st.value) else stored)
  {
    var gs := GameState.FromJSON(stored);
    if gs.currentTurn != Some(pid) {
      return stored, false;
    }
    var player := gs.players.Get(pid);
    if player.None? || |player.value.stand| >= 8 || |player.value.deck| == 0 {
      return stored, false;
    }
    var success := GameLogic.DrawTwoSoldiers(gs, pid);
    if !success {
      return stored, false;
    }
    GameLogic.NextTurn(gs);
    next := gs.ToJSON();
    ok := true;
  }

  /** The `place_soldier` handler: restore, check the mover, clear a Captain grant, place, maybe pass the turn, store. */
  method HandlePlace(stored: GameDoc, pid: string, idx: int, target: string, r: real) returns (next: GameDoc, res: Option<PlaceResult>)
    requires 0.0 <= r < 1.0
    ensures var st := PlaceStep(FromDoc(stored), pid, idx, target, r);
      && res.Some? == st.Some?
      && (st.None? ==> next == stored)
      && (st.Some? ==> next == ToDoc(st.value.0) && res.value == st.value.1)
  {
    var gs := GameState.FromJSON(stored);
    res := PlaceTurn(gs, pid, idx, target, r);
    if res.None? {
      return stored, None;
    }
    next := gs.ToJSON();
  }

  /** The engine part of the `place_soldier` handler, on the restored state. */
  method PlaceTurn(gs: GameState, pid: string, idx: int, target: string, r: real) returns (res: Option<PlaceResult>)
    requires gs.Valid() && 0.0 <= r < 1.0
    modifies gs
    ensures gs.Valid()
    ensures !MayPlace(old(gs.Value()), pid) ==> res.None?
    ensures MayPlace(old(gs.Value()), pid) ==>
      var (g2, placed) := Place(BeforePlace(old(gs.Value()), pid), pid, idx, target, r);
      && res.Some? == placed.success
      && (placed.success ==> gs.Value() == Settle(g2) && res.value == placed)
  {
    var isNormalTurn := gs.currentTurn == Some(pid);
    var isCaptainAdditionalPlace := gs.pendingAction == Some(PlaceAdditionalSoldier(pid));
    if !isNormalTurn && !isCaptainAdditionalPlace {
      return None;
    }
    ClearGrant(gs, pid);
    var result := GameLogic.PlaceSoldier(gs, pid, idx, target, r);
    if !result.success {
      return None;
    }
    SettleTurn(gs);
    res := Some(result);
  }

  /** A Captain's extra placement is used up before the placement it allows. */
  method ClearGrant(gs: GameState, pid: string)
    requires gs.Valid()
    modifies gs
    ensures gs.Value() == BeforePlace(old(gs.Value()), pid) && gs.Valid()
  {
    if gs.pendingAction == Some(PlaceAdditionalSoldier(pid)) {
      gs.ClearPendingAction();
    }
  }

  /** The end of the `place_soldier` handler: pass the turn unless an action is pending. */
  method SettleTurn(gs: GameState)
    requires gs.Valid()
    modifies gs
    ensures gs.Value() == Settle(old(gs.Value())) && gs.Valid()
  {
    if gs.pendingAction.None? {
      GameLogic.NextTurn(gs);
    }
  }

  /** The `select_giant_target` handler: restore, resolve the selection, pass the turn, store. */
  method HandleGiantSelection(stored: GameDoc, pid: string, v: string) returns (next: GameDoc, ok: bool)
    ensures var st := GiantStep(FromDoc(stored), pid, v);
      && ok == st.Some?
      && next == (if ok then ToDoc(st.value) else stored)
  {
    var gs := GameState.FromJSON(stored);
    var success := GameLogic.ExecuteGiantSelection(gs, pid, v);
    if !success {
      return stored, false;
    }
    GameLogic.NextTurn(gs);
    next := gs.ToJSON();
    ok := true;
  }
}
