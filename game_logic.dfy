/**
 * `GameLogicService`: the moves applied to a `GameState` object in place. The service keeps
 * no state of its own, so each operation is a method over the state object, proved to leave
 * it exactly as the matching transition of `Rules` (or `Setup`) says.
 */
module GameLogic {
  import opened Wrappers
  import opened OrderedMaps
  import opened GameTypes
  import opened Cards
  import opened GameModel
  import opened Rules
  import Board
  import Setup
  import opened GameStateEntity

  /** `initializeGame`: a new state, the players shuffled and seated, the first seat to move, playing. */
  method InitializeGame(ids: seq<string>, names: seq<string>, pds: seq<real>, dds: seq<seq<real>>) returns (gs: GameState)
    requires Setup.SetupInputs(ids, names, pds, dds)
    ensures fresh(gs) && gs.Value() == Setup.InitialGame(ids, names, pds, dds) && gs.Valid()
  {
    gs := new GameState();
    SetUpPlayers(gs, ids, names, pds, dds);
  }

  /** The body of `initializeGame` after the state is created: shuffle, seat, first turn, playing. */
  method SetUpPlayers(gs: GameState, ids: seq<string>, names: seq<string>, pds: seq<real>, dds: seq<seq<real>>)
    requires Setup.SetupInputs(ids, names, pds, dds) && gs.Valid()
    modifies gs
    ensures gs.Value() == Setup.Opening(old(gs.Value()), Setup.SeatOrder(ids, names, pds), Setup.Decks(dds)) && gs.Valid()
  {
    var shuffledIds := new string[|ids|](i requires 0 <= i < |ids| => ids[i]);
    var shuffledNames := new string[|names|](i requires 0 <= i < |names| => names[i]);
    assert shuffledIds[..] == ids && shuffledNames[..] == names;
    ShufflePlayers(shuffledIds, shuffledNames, pds);
    ghost var seats := Setup.Zip(shuffledIds[..], shuffledNames[..]);
    assert seats == Setup.SeatOrder(ids, names, pds);
    SeatPlayers(gs, shuffledIds, shuffledNames, dds);
    gs.currentTurn := if shuffledIds.Length == 0 then None else Some(shuffledIds[0]);
    gs.gameStatus := Playing;
    assert gs.currentTurn == if seats == [] then None else Some(seats[0].0);
  }

  /** The seating loop of `initializeGame`: seat `i` gets colour, deck and opening draw, then its base marker. */
  method SeatPlayers(gs: GameState, ids: array<string>, names: array<string>, dds: seq<seq<real>>)
    requires gs.Valid() && ids.Length == names.Length <= |dds| && Setup.DeckDraws(dds)
    modifies gs
    ensures gs.Value() == Setup.SeatAll(old(gs.Value()), Setup.Zip(ids[..], names[..]), Setup.Decks(dds))
    ensures gs.Valid()
  {
    ghost var g0 := gs.Value();
    ghost var seats := Setup.Zip(ids[..], names[..]);
    ghost var decks := Setup.Decks(dds);
    assert |seats| == ids.Length;
    for i := 0 to ids.Length
      invariant gs.Valid()
      invariant gs.Value() == Setup.SeatAll(g0, seats[..i], decks)
    {
      var deck := CreatePlayerDeck(dds[i]);
      Setup.SeatAllStep(g0, seats, decks, i);
      assert seats[i] == (ids[i], names[i]) && decks[i] == deck;
      SeatPlayer(gs, i, ids[i], names[i], deck);
    }
    assert seats[..ids.Length] == seats;
  }

  /** The `forEach` callback of `initializeGame` for seat `i`: store the player after its opening draw, mark its base. */
  method SeatPlayer(gs: GameState, i: nat, id: string, name: string, deck: seq<Soldier>)
    requires gs.Valid()
    modifies gs
    ensures gs.Value() == Setup.Seat(old(gs.Value()), i, id, name, deck) && gs.Valid()
  {
    var color := if i == 0 then Red else Blue;
    var pl := Player(id, name, color, deck, [], 0, []);
    pl := DrawFromDeck(pl, id, if i == 0 then 3 else 4);
    gs.players := gs.players.Set(id, pl);
    var base := if pl.color == Red then "X" else "Y";
    var baseVertex := gs.vertices.Get(base);
    if baseVertex.Some? {
      gs.vertices := Push(gs.vertices, base, Soldier(0, 0, id, pl.color));
    }
  }

  /** `createPlayerDeck`: three cards of each rank 1 to 8, shuffled, the first four dropped. */
  method CreatePlayerDeck(ds: seq<real>) returns (deck: seq<Soldier>)
    requires |ds| >= 23 && RandomDraws(ds)
    ensures deck == Deck(ds)
  {
    var cards: seq<Soldier> := [];
    for rank := 1 to 9
      invariant cards == FullDeck()[..3 * (rank - 1)]
    {
      for count := 0 to 3
        invariant cards == FullDeck()[..3 * (rank - 1) + count]
      {
        assert (3 * (rank - 1) + count) / 3 == rank - 1;
        cards := cards + [Soldier(rank, SoldierPower(rank), "", Red)];
      }
    }
    var a := new Soldier[|cards|](i requires 0 <= i < |cards| => cards[i]);
    assert a[..] == FullDeck();
    ShuffleArray(a, ds);
    deck := a[4..];
  }

  /** `shuffleArray`: Fisher-Yates from the last position down to the second, one draw per position. */
  method ShuffleArray<T>(a: array<T>, ds: seq<real>)
    requires a.Length <= |ds| + 1 && RandomDraws(ds)
    modifies a
    ensures a[..] == Shuffle(old(a[..]), ds)
  {
    var n := a.Length;
    if n == 0 {
      return;
    }
    var i := n - 1;
    var rest := ds;
    ghost var target := Shuffle(a[..], ds);
    while i > 0
      invariant 0 <= i < n && i <= |rest| && RandomDraws(rest)
      invariant ShuffleDown(a[..], i, rest) == target
    {
      var j := Pick(rest[0], i + 1);
      ghost var before := a[..];
      a[i], a[j] := a[j], a[i];
      assert a[..] == Swap(before, i, j);
      ShuffleDownStep(before, i, rest);
      rest := rest[1..];
      i := i - 1;
    }
  }

  /** `shufflePlayers`: the same swaps applied to ids and names, so each name stays with its id. */
  method ShufflePlayers(ids: array<string>, names: array<string>, ds: seq<real>)
    requires ids.Length == names.Length <= |ds| + 1 && RandomDraws(ds) && ids != names
    modifies ids, names
    ensures Setup.Zip(ids[..], names[..]) == Shuffle(Setup.Zip(old(ids[..]), old(names[..])), ds)
  {
    var n := ids.Length;
    if n == 0 {
      return;
    }
    var i := n - 1;
    var rest := ds;
    ghost var target := Shuffle(Setup.Zip(ids[..], names[..]), ds);
    while i > 0
      invariant 0 <= i < n && i <= |rest| && RandomDraws(rest)
      invariant ShuffleDown(Setup.Zip(ids[..], names[..]), i, rest) == target
    {
      var j := Pick(rest[0], i + 1);
      ghost var before := Setup.Zip(ids[..], names[..]);
      ids[i], ids[j] := ids[j], ids[i];
      names[i], names[j] := names[j], names[i];
      assert Setup.Zip(ids[..], names[..]) == Swap(before, i, j);
      ShuffleDownStep(before, i, rest);
      rest := rest[1..];
      i := i - 1;
    }
  }

  /** Pops up to `n` cards off the back of the deck onto the stand, relabelled; stops on an empty deck. */
  method DrawFromDeck(pl: Player, pid: string, n: nat) returns (r: Player)
    ensures r == DrawCards(pl, pid, n)
  {
    r := pl;
    var i := 0;
    while i < n && |r.deck| > 0
      invariant 0 <= i <= n
      invariant DrawCards(r, pid, n - i) == DrawCards(pl, pid, n)
    {
      var d := |r.deck|;
      var soldier := r.deck[d - 1];
      r := r.(deck := r.deck[..d - 1], stand := r.stand + [Relabel(soldier, pid, r.color)]);
      i := i + 1;
    }
  }

  /** `drawTwoSoldiers`. */
  method DrawTwoSoldiers(gs: GameState, pid: string) returns (ok: bool)
    modifies gs
    ensures (gs.Value(), ok) == DrawTwo(old(gs.Value()), pid)
  {
    var player := gs.players.Get(pid);
    if player.None? {
      return false;
    }
    var pl := player.value;
    if |pl.stand| >= 8 {
      return false;
    }
    var count := if |pl.stand| == 7 then 1 else 2;
    pl := DrawFromDeck(pl, pid, count);
    gs.players := gs.players.Set(pid, pl);
    ok := true;
  }

  /** `setCaptainAdditionalPlace`. */
  method SetCaptainAdditionalPlace(gs: GameState, pid: string)
    modifies gs
    ensures gs.Value() == old(gs.Value()).(pendingAction := Some(PlaceAdditionalSoldier(pid)))
  {
    gs.SetPendingAction(PlaceAdditionalSoldier(pid));
  }

  /** `removeAdjacentEnemySoldier`: collect the removable neighbours; if any, wait for the Giant's choice. */
  method RemoveAdjacentEnemySoldier(gs: GameState, pid: string, target: string)
    modifies gs
    ensures gs.Value() == GiantEffect(old(gs.Value()), pid, target)
  {
    var adjacent := Neighbors(gs.adjacencyList, target);
    var available: seq<string> := [];
    for i := 0 to |adjacent|
      invariant available == GiantTargets(gs.vertices, pid, adjacent[..i])
    {
      var v := adjacent[i];
      var vertex := gs.vertices.Get(v);
      if vertex.Some? && |vertex.value.soldiers| > 0 {
        var top := vertex.value.soldiers[|vertex.value.soldiers| - 1];
        if top.playerId != pid && top.rank != 0 {
          available := available + [v];
        }
      }
      assert adjacent[..i + 1][..i] == adjacent[..i];
    }
    assert adjacent[..|adjacent|] == adjacent;
    if |available| > 0 {
      gs.SetPendingAction(SelectGiantTarget(pid, available, target));
    }
  }

  /** The scan of `removeRandomEnemyStandSoldier`: the first player, in order, with another id and a non-empty stand. */
  method FindEnemy(players: OrderedMap<Player>, pid: string) returns (victim: Option<string>)
    requires players.Wf()
    ensures victim == FirstVictim(players.keys, players.m, pid)
  {
    var keys := players.keys;
    victim := None;
    var i := 0;
    while i < |keys|
      invariant 0 <= i <= |keys|
      invariant FirstVictim(keys[i..], players.m, pid) == FirstVictim(keys, players.m, pid)
    {
      var enemy := players.m[keys[i]];
      if enemy.id != pid && |enemy.stand| > 0 {
        victim := Some(keys[i]);
        return;
      }
      i := i + 1;
    }
  }

  /** `removeRandomEnemyStandSoldier`: the first other player with cards on the stand discards the one `r` picks. */
  method RemoveRandomEnemyStandSoldier(gs: GameState, pid: string, r: real)
    requires gs.Valid() && 0.0 <= r < 1.0
    modifies gs
    ensures gs.Value() == RemoveEnemyStandSoldier(old(gs.Value()), pid, r)
  {
    var victim := FindEnemy(gs.players, pid);
    if victim.Some? {
      var enemy := gs.players.m[victim.value];
      var j := Pick(r, |enemy.stand|);
      var removed := enemy.stand[j];
      gs.players := gs.players.Set(victim.value, enemy.(stand := RemoveAt(enemy.stand, j), discardPile := enemy.discardPile + [removed]));
    }
  }

  /** `executeGiantSelection`: refused unless the pending Giant selection is `pid`'s and lists `v`. */
  method ExecuteGiantSelection(gs: GameState, pid: string, v: string) returns (ok: bool)
    modifies gs
    ensures (gs.Value(), ok) == GiantSelection(old(gs.Value()), pid, v)
  {
    var pending := gs.pendingAction;
    if pending.None? || !pending.value.SelectGiantTarget? || pending.value.playerId != pid
       || v !in pending.value.availableTargets {
      return false;
    }
    var vertex := gs.vertices.Get(v);
    if vertex.Some? && |vertex.value.soldiers| > 0 {
      var stack := vertex.value.soldiers;
      var removed := stack[|stack| - 1];
      gs.vertices := gs.vertices.Set(v, vertex.value.(soldiers := stack[..|stack| - 1]));
      var enemy := gs.players.Get(removed.playerId);
      if enemy.Some? {
        gs.players := gs.players.Set(removed.playerId, enemy.value.(discardPile := enemy.value.discardPile + [removed]));
      }
    }
    gs.ClearPendingAction();
    ok := true;
  }

  /** `applySoldierEffect`: what the soldier just placed on `target` does; `r` is the XB-42's draw. */
  method ApplySoldierEffect(gs: GameState, pid: string, s: Soldier, target: string, r: real)
    requires gs.Valid() && 0.0 <= r < 1.0
    modifies gs
    ensures gs.Value() == ApplyEffect(old(gs.Value()), pid, s, target, r) && gs.Valid()
  {
    var player := gs.players.Get(pid);
    if player.None? {
      return;
    }
    match s.rank
    case 1 =>
      var _ := DrawTwoSoldiers(gs, pid);
    case 2 =>
      SetCaptainAdditionalPlace(gs, pid);
    case 3 =>
      RemoveAdjacentEnemySoldier(gs, pid, target);
    case 5 =>
      RemoveRandomEnemyStandSoldier(gs, pid, r);
    case 6 =>
      var pl := player.value;
      if |pl.deck| > 0 && |pl.stand| < 8 {
        var d := |pl.deck|;
        var drawn := pl.deck[d - 1];
        gs.players := gs.players.Set(pid, pl.(deck := pl.deck[..d - 1], stand := pl.stand + [Relabel(drawn, pid, pl.color)]));
      }
    case _ =>
  }

  /** `canPlaceSoldier`: the verdict names the first check that fails. */
  method CanPlaceSoldier(gs: GameState, pid: string, idx: int, target: string) returns (v: Verdict)
    ensures v == PlaceCheck(gs.Value(), pid, idx, target)
  {
    var player := gs.players.Get(pid);
    if player.None? {
      return NoPlayer;
    }
    var pl := player.value;
    if idx < 0 || idx >= |pl.stand| {
      return BadIndex;
    }
    var soldier := pl.stand[idx];
    var vertex := gs.vertices.Get(target);
    if vertex.None? {
      return NoVertex;
    }
    if target == Board.BaseOf(pl.color) {
      return OwnBase;
    }
    if soldier.rank != 4 {
      var connected := gs.IsPathConnected(PlayerBase(gs.players, pid), target, pid);
      if !connected {
        return NotConnected;
      }
    }
    var stack := vertex.value.soldiers;
    if |stack| > 0 {
      var top := stack[|stack| - 1];
      if soldier.rank == 8 {
        return Allowed;
      }
      if top.playerId != pid && soldier.power <= top.power {
        return Outpowered;
      }
    }
    v := Allowed;
  }

  /**
   * `placeSoldier`: check; move the card from the stand to the top of the target stack; apply
   * its effect; score the zones; and end the game if someone has won. `r` is the XB-42's draw.
   */
  method PlaceSoldier(gs: GameState, pid: string, idx: int, target: string, r: real) returns (res: PlaceResult)
    requires gs.Valid() && 0.0 <= r < 1.0
    modifies gs
    ensures (gs.Value(), res) == Place(old(gs.Value()), pid, idx, target, r) && gs.Valid()
  {
    var verdict := CanPlaceSoldier(gs, pid, idx, target);
    if verdict != Allowed {
      return PlaceResult(false, 0, false);
    }
    var pl := gs.players.m[pid];
    var soldier := pl.stand[idx];
    gs.players := gs.players.Set(pid, pl.(stand := RemoveAt(pl.stand, idx)));
    gs.vertices := Push(gs.vertices, target, soldier);
    assert gs.Value() == Move(old(gs.Value()), pid, idx, target);
    res := ResolvePlacement(gs, pid, soldier, target, r);
  }

  /** The rest of `placeSoldier` once the card is on the board: effect, medals, then the winner check. */
  method ResolvePlacement(gs: GameState, pid: string, soldier: Soldier, target: string, r: real) returns (res: PlaceResult)
    requires gs.Valid() && 0.0 <= r < 1.0
    modifies gs
    ensures (gs.Value(), res) == Resolve(old(gs.Value()), pid, soldier, target, r) && gs.Valid()
  {
    ApplySoldierEffect(gs, pid, soldier, target, r);
    var medals := gs.CheckAndAwardMedals(pid);
    var winner := gs.CheckWinCondition();
    if winner.Some? && winner.value != "" {
      gs.gameStatus := Finished;
      gs.winner := winner;
      return PlaceResult(true, medals, true);
    }
    res := PlaceResult(true, medals, false);
  }

  /** `nextTurn`: the player after the current one in insertion order, wrapping. */
  method NextTurn(gs: GameState)
    modifies gs
    ensures gs.Value() == Rules.NextTurn(old(gs.Value()))
    ensures old(gs.Valid()) ==> gs.Valid()
  {
    var ids := gs.players.keys;
    var current := IndexOf(ids, gs.currentTurn);
    gs.currentTurn := if |ids| == 0 then None else Some(ids[(current + 1) % |ids|]);
    gs.turnCount := gs.turnCount + 1;
  }
}
