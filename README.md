# Toy Battle backend: rules engine and room lifecycle in Dafny

This project models the core of the Toy Battle game server: the game state entity, the
move-resolution service, and the in-memory room lobby. It also models the socket gateway's rule
for when the turn passes. It proves the properties the code promises.

- **Board** (`Board`): the fixed board. It has 17 vertices, each with a soldier stack whose top
  soldier owns the vertex, and 24 undirected edges stored in both directions.
- **Game state** (`GameModel`, `GameStateEntity`): the pure queries on the state are functions.
  - Queries: vertex owner, player base, connectivity, medal scoring, win check, and the document
    conversion `toJSON`/`fromJSON`.
  - The `GameState` class keeps the entity's fields and updates them in place. Each of its
    methods is proved equal to the pure function over the class's `Value()`. This covers the BFS
    of `isPathConnected`, which is proved against a walk-based reachability predicate.
- **Move resolution** (`Cards`, `Setup`, `Rules`, `RuleLemmas`, `GameLogic`): the engine as
  pure functions, with the lemmas stating its rules.
  - Rules covered: deck building and shuffling, the opening deal, drawing, the placement check,
    placement, the per-rank effects, Giant selection and the turn order.
  - The methods of `GameLogic` work on a `GameState` (and on arrays for the Fisher-Yates
    shuffles). Each is proved against its function.
- **Turn protocol** (`TurnProtocol`): the gateway's `draw_soldiers`, `place_soldier` and
  `select_giant_target` handlers, over the stored game document.
  - A rejected request leaves the document as it was.
  - After a placement the turn passes exactly when no action is pending.
  - A Giant selection always passes the turn.
- **Rooms** (`GameRoomMemory`, `RoomLifecycle`): the lobby.
  - The `GameRoom` class keeps its player count within capacity.
  - The `GameRoomService` class holds the table of rooms in insertion order. It creates rooms,
    joins (a rejoin only renames), leaves (an emptied room is dropped and the host role is
    handed on), toggles readiness and starts games. Every refusal is an error outcome that
    changes nothing.
  - The service keeps every filed room "seated": no id twice, the host present, and exactly the
    host's seat flagged as host.

**Randomness.** `Math.random()` results are parameters: reals `r` with `0 <= r < 1`. Each index
is `Floor(r * n)`, as in the source. A shuffle takes one draw per swap, in the order the loop
consumes them. The rank-5 effect takes one draw. The room code is a parameter of `CreateRoom`.

**JavaScript `Map`.** Maps are `OrderedMap`s: a key sequence plus a map. `Set` keeps an existing
key's position and puts a new key last, which is what the win check's iteration order and
`nextTurn`'s player order rely on.

**Where the code and its description differ, the model follows the code:**
- A soldier of *equal* power cannot replace an opponent's top soldier: the check is `<=`
  (`Rules.DominanceRule`).
- The connectivity search always starts at the player's base, whoever now owns it. A target
  adjacent to a reached vertex is connected whatever is on it.
- `fromJSON` rebuilds the adjacency from the constructor, not from the document, and a missing
  `medalZones` becomes an empty list rather than the eight initial zones
  (`GameModel.DocRoundTrip`, `GameModel.EmptyDocDefaults`).
- A medal zone fully owned by an id that is not a player is still claimed, but no medals are added
  and nothing is reported.
- A soldier removed by a Giant selection whose owner is not a player is dropped, not discarded.
- `placeSoldier`'s second lookup of the player and vertex (lines 225-232) can never fail after
  the check. The model does not repeat it.
- The gateway's place handler lets the player whose turn it is place again even while their Giant
  selection is pending. The turn stays with them while an action is pending. A Captain placed
  meanwhile replaces the pending selection with its extra placement, and that placement clears the
  action and passes the turn, so no selection is ever made. A Giant with targets placed meanwhile
  replaces the selection with a new one.
- The win test of `placeSoldier` is JavaScript truthiness: a winner whose id is the empty string
  does not end the game, and the status and the winner stay as they were (`Rules.EndsGame`).

## Model

| member | source | states |
|---|---|---|
| Board.VertexListing | backend/src/game-room/entities/game-state.entity.ts:86-137 | The board lists 17 distinct vertices and 24 edges, and the edges are simple: no loop, and no pair listed twice in either direction. |
| Board.EdgesWithinBoard | backend/src/game-room/entities/game-state.entity.ts:112-137 | Every edge joins two different listed vertices. |
| Board.IdsDistinct | backend/src/game-room/entities/game-state.entity.ts:86-104 | No vertex id is listed twice. |
| Board.EdgesListed | backend/src/game-room/entities/game-state.entity.ts:112-137 | Both ends of every edge are listed vertices. |
| Board.EdgesSimple | backend/src/game-room/entities/game-state.entity.ts:112-137 | No edge joins a vertex to itself, and no two edges join the same two vertices. |
| Board.EdgesNotRepeated | backend/src/game-room/entities/game-state.entity.ts:112-137 | No edge is listed twice. |
| Board.EdgesNotReversed | backend/src/game-room/entities/game-state.entity.ts:112-137 | No edge is listed again in the other direction. |
| Board.VerticesOfShape | backend/src/game-room/entities/game-state.entity.ts:106-109 | Inserting the vertex records gives a well-formed table holding exactly the listed ids, in listing order, each with an empty stack. |
| Board.EmptyListsOfShape | backend/src/game-room/entities/game-state.entity.ts:106-109 | Every listed vertex gets an adjacency list, and every list starts empty. |
| Board.AddEdges | backend/src/game-room/entities/game-state.entity.ts:139-142 | Linking edges never adds or drops an adjacency list. |
| Board.NeighboursOf | backend/src/game-room/entities/game-state.entity.ts:106-142 | On the empty lists of a vertex listing, linking edges whose ends are listed makes `b` a neighbour of `a` iff an edge joins them, and every such `b` is listed. |
| Board.AddEdgesNeighbours | backend/src/game-room/entities/game-state.entity.ts:139-142 | After the edges are linked, `b` is in `a`'s list iff it was there before or some edge joins `a` and `b` in either direction. |
| Board.AddEdgesNoRepeat | backend/src/game-room/entities/game-state.entity.ts:139-142 | Linking simple edges, none of which already joins `a` to a listed neighbour, never puts a vertex twice in `a`'s list. |
| Board.LastEdgeIsNew | backend/src/game-room/entities/game-state.entity.ts:139-142 | In a simple edge list no earlier edge joins the two ends of the last one. |
| Board.NeighboursDistinct | backend/src/game-room/entities/game-state.entity.ts:139-142 | No neighbour list of the built board repeats a vertex. |
| Board.InitialBoard | backend/src/game-room/entities/game-state.entity.ts:84-143 | The initial board has the 17 vertices in listing order, all stacks empty, and an adjacency list for exactly those vertices. |
| Board.NeighboursAreEdges | backend/src/game-room/entities/game-state.entity.ts:112-142 | `b` is a neighbour of `a` iff an edge joins them. |
| Board.AdjacencySymmetric | backend/src/game-room/entities/game-state.entity.ts:139-142 | Adjacency is symmetric. |
| GameModel.NewGame | backend/src/game-room/entities/game-state.entity.ts:44-82 | A new state has well-formed maps, no players, turn 0, status waiting and no pending action. |
| GameModel.OwnerAfterPush | backend/src/game-room/game-logic.service.ts:235-236 | Pushing a soldier makes its player the vertex's owner and leaves every other vertex's owner alone. |
| GameModel.OwnerAfterPop | backend/src/game-room/entities/game-state.entity.ts:179-183 | Popping the top soldier hands the vertex to the soldier beneath it, or leaves it unowned when the stack empties; every other vertex keeps its owner. |
| GameModel.PlayerBase | backend/src/game-room/entities/game-state.entity.ts:186-189 | The base is `X` exactly for a red player and `Y` otherwise, including for an unknown id. For a listed player it is the base of their colour and never the opponent's base, which is the one the win check looks at. |
| GameModel.NeighbourConnected | backend/src/game-room/entities/game-state.entity.ts:155-158 | A direct neighbour of the start is connected whoever owns it. |
| GameModel.ConnectedThrough | backend/src/game-room/entities/game-state.entity.ts:157-170 | Connectivity extends through a connected vertex the player owns to any of its neighbours. |
| GameStateEntity.GameState.IsPathConnected | backend/src/game-room/entities/game-state.entity.ts:146-176 | The BFS answers true iff start and target coincide or some walk from the start through vertices the player owns ends next to the target. |
| GameStateEntity.GameState.VisitNeighbors | backend/src/game-room/entities/game-state.entity.ts:155-171 | One pass over the current vertex's neighbours: it reports a neighbour equal to the target, and otherwise enqueues exactly the unvisited neighbours the player owns, keeping every visited vertex reachable. |
| GameStateEntity.GameState.NoWalkToTarget | backend/src/game-room/entities/game-state.entity.ts:153-175 | When the queue runs empty without meeting the target, no walk reaches it. |
| GameStateEntity.GameState.WalkStaysInside | backend/src/game-room/entities/game-state.entity.ts:157-171 | A walk from a vertex in a set closed under owned neighbours stays in that set. |
| GameStateEntity.GameState.SearchStep | backend/src/game-room/entities/game-state.entity.ts:153-172 | One dequeued vertex keeps the search invariant: everything finished is closed and every queued vertex is reachable. |
| GameStateEntity.GameState.ExtendWalk | backend/src/game-room/entities/game-state.entity.ts:163-170 | A walk extended by an owned neighbour is still a walk from the same start. |
| GameStateEntity.GameState.InitializeMap | backend/src/game-room/entities/game-state.entity.ts:84-143 | Filling the empty maps gives the initial board and adjacency and changes no other field. |
| GameStateEntity.GameState.AddVertices | backend/src/game-room/entities/game-state.entity.ts:106-109 | The vertex loop gives the table of the listed records and an empty list for each. |
| GameStateEntity.GameState.LinkEdges | backend/src/game-room/entities/game-state.entity.ts:139-142 | The edge loop appends both directions of each edge, in order. |
| GameStateEntity.GameState.constructor | backend/src/game-room/entities/game-state.entity.ts:44-82 | The new entity is the initial game. |
| GameModel.AwardZones | backend/src/game-room/entities/game-state.entity.ts:195-205 | Scoring keeps every claimed zone as it was. An open zone becomes claimed iff `p` owns all its vertices, and it is then claimed by `p`. Vertices and points never change. |
| GameModel.AwardMedals | backend/src/game-room/entities/game-state.entity.ts:192-215 | Scoring changes only zones and players and keeps the player order. |
| GameModel.AwardStep | backend/src/game-room/entities/game-state.entity.ts:195-212 | One loop iteration: an open zone the player fully owns is claimed for them, and their medals and the total rise by its points only if they are a player. |
| GameModel.AwardUpToNone | backend/src/game-room/entities/game-state.entity.ts:193 | Before the first zone nothing has changed and the total is 0. |
| GameModel.AwardUpToAll | backend/src/game-room/entities/game-state.entity.ts:192-215 | Running the loop over every zone is the whole scoring. |
| GameModel.AwardMedalsZones | backend/src/game-room/entities/game-state.entity.ts:195-205 | A claimed zone is untouched. An open zone becomes claimed, by the acting player, iff they own all its vertices. |
| GameModel.AwardMedalsCount | backend/src/game-room/entities/game-state.entity.ts:206-214 | The acting player's medals rise by exactly the returned total. A non-player earns 0. Other players, the board, the turn and the pending action are unchanged. |
| GameModel.ZonePointsNonNegative | backend/src/game-room/entities/game-state.entity.ts:209 | With non-negative zone points the awarded total is non-negative. |
| GameModel.AwardKeepsClaims | backend/src/game-room/entities/game-state.entity.ts:196-205 | Scoring never unclaims a zone or changes who claimed it. |
| GameStateEntity.GameState.CheckAndAwardMedals | backend/src/game-room/entities/game-state.entity.ts:192-215 | The in-place loop leaves the state and the total that the scoring function gives. |
| GameModel.FirstWinner | backend/src/game-room/entities/game-state.entity.ts:219-232 | There is no winner iff no listed player wins; a reported winner is listed and wins. |
| GameModel.FirstWinnerIsFirst | backend/src/game-room/entities/game-state.entity.ts:219-229 | The winner reported is the first winning player in iteration order. |
| GameModel.WinConditionMeaning | backend/src/game-room/entities/game-state.entity.ts:218-233 | The win check returns a player with 7 or more medals or on top of the opponent's base, and returns none iff no player qualifies. |
| GameModel.CheckWinCondition | backend/src/game-room/entities/game-state.entity.ts:218-233 | A reported winner is a listed player who wins; when no player wins there is no winner. |
| GameStateEntity.GameState.CheckWinCondition | backend/src/game-room/entities/game-state.entity.ts:218-233 | The loop returns the win check's answer. |
| GameStateEntity.GameState.SetPendingAction | backend/src/game-room/entities/game-state.entity.ts:249-251 | Only the pending-action slot changes, to the given action. |
| GameStateEntity.GameState.ClearPendingAction | backend/src/game-room/entities/game-state.entity.ts:254-256 | Only the pending-action slot changes, to none. |
| GameModel.FromDoc | backend/src/game-room/entities/game-state.entity.ts:274-291 | A restored state has well-formed maps whatever the document holds. |
| GameModel.DocRoundTrip | backend/src/game-room/entities/game-state.entity.ts:259-291 | Restoring a serialised state gives back every field, map order included, with the adjacency replaced by the freshly built board's. |
| GameModel.EmptyDocDefaults | backend/src/game-room/entities/game-state.entity.ts:278-288 | An empty document restores to no vertices, no players, turn 0, status waiting and no zones. |
| GameStateEntity.GameState.ToJSON | backend/src/game-room/entities/game-state.entity.ts:259-271 | The document is the state's serialisation, and restoring it gives the state with the built board's adjacency. |
| GameStateEntity.GameState.FromJSON | backend/src/game-room/entities/game-state.entity.ts:274-291 | A fresh, well-formed entity holding the restored state. |
| GameStateEntity.GameState.CreateTurnSnapshot | backend/src/game-room/entities/game-state.entity.ts:236-238 | The snapshot becomes the serialisation of the state, and nothing else changes. |
| GameStateEntity.GameState.RestoreFromSnapshot | backend/src/game-room/entities/game-state.entity.ts:241-246 | Without a snapshot nothing changes; with one the state becomes the snapshot restored. |
| GameStateEntity.GameState.Assign | backend/src/game-room/entities/game-state.entity.ts:244 | `Object.assign`: every field of the entity takes the other entity's value. |
| GameStateEntity.GameState.Load | backend/src/game-room/entities/game-state.entity.ts:278-288 | The restored fields take the given state's values; the adjacency built by the constructor stays. |
| Cards.SoldierPower | backend/src/game-room/game-logic.service.ts:95-108 | Power is the rank for ranks 1 to 7, and 0 for rank 8, rank 0 and any other value. |
| Cards.FullDeckCards | backend/src/game-room/game-logic.service.ts:71-83 | The unshuffled deck has 24 cards, and its cards are exactly the fresh cards of ranks 1 to 8. |
| Cards.Pick | backend/src/game-room/game-logic.service.ts:113 | `Math.floor(r * n)` is an index below `n`. |
| Cards.ShuffleDownStep | backend/src/game-room/game-logic.service.ts:112-115 | One loop iteration swaps position `i` with the drawn index and continues one position lower on the rest of the draws. |
| Cards.Shuffle | backend/src/game-room/game-logic.service.ts:111-116 | The shuffle keeps the length; that it permutes is `Cards.ShufflePermutes`. |
| Cards.SwapPermutes | backend/src/game-room/game-logic.service.ts:114 | A swap permutes. |
| Cards.ShuffleDownPermutes | backend/src/game-room/game-logic.service.ts:112-115 | The swap loop permutes its array. |
| Cards.ShufflePermutes | backend/src/game-room/game-logic.service.ts:111-116 | The Fisher-Yates shuffle is a permutation of its input. |
| Cards.DeckShape | backend/src/game-room/game-logic.service.ts:70-92 | A player deck has 20 cards, drawn without repetition from the 24-card deck, each a fresh card of rank 1 to 8. |
| Cards.ShuffledSuffix | backend/src/game-room/game-logic.service.ts:86-89 | The cards left after dropping the first ones of the shuffled deck come from the unshuffled deck. |
| Cards.DrawCards | backend/src/game-room/game-logic.service.ts:139-144 | Drawing `n` moves `min(n, deck)` cards: the stand grows and the deck shrinks by that many; nothing else changes. |
| Cards.DrawCardsMoves | backend/src/game-room/game-logic.service.ts:139-144 | The cards come off the back of the deck and go to the end of the stand in pop order, relabelled with the player's id and colour. |
| Cards.DrawConserves | backend/src/game-room/game-logic.service.ts:139-144 | Deck plus stand size is conserved by a draw. |
| GameLogic.CreatePlayerDeck | backend/src/game-room/game-logic.service.ts:70-92 | The nested loops, the shuffle and the removal of the first four give the specified deck. |
| GameLogic.ShuffleArray | backend/src/game-room/game-logic.service.ts:111-116 | The in-place swap loop leaves the array as the shuffle of its old contents. |
| GameLogic.ShufflePlayers | backend/src/game-room/game-logic.service.ts:119-126 | Ids and names are swapped together: the pairs end up as the shuffle of the old pairs. |
| GameLogic.DrawFromDeck | backend/src/game-room/game-logic.service.ts:38-45 | The bounded pop-and-push loop gives the specified draw. |
| Setup.SeatOrder | backend/src/game-room/game-logic.service.ts:15-18 | The seating order is a permutation of the (id, name) pairs. |
| Setup.NamesStayWithIds | backend/src/game-room/game-logic.service.ts:119-126 | After the player shuffle every seat holds a name together with the id it was given with. |
| Setup.ZipInjective | backend/src/game-room/game-logic.service.ts:119-126 | The (id, name) pairs determine both arrays, so the shuffled pairs fix the new ids and the new names. |
| Setup.TwoSeats | backend/src/game-room/game-logic.service.ts:15-18 | With two players the order is either kept or swapped. |
| Setup.SeatAllStep | backend/src/game-room/game-logic.service.ts:23-61 | Seating one more player extends the seating of the earlier ones. |
| Setup.NewPlayerShape | backend/src/game-room/game-logic.service.ts:25-45 | A seated player has seat 0 red or later blue, no medals, an empty discard pile, and 3 (seat 0) or 4 cards drawn from a 20-card deck. |
| Setup.TwoSeatsTaken | backend/src/game-room/game-logic.service.ts:23-61 | Seating two players on an empty board enters them in seat order. Red's base gets red's rank-0 marker and blue's base gets blue's, and nothing else changes. |
| Setup.NewGameBases | backend/src/game-room/entities/game-state.entity.ts:80-82 | A new state has no players and empty bases. |
| Setup.BaseEmpty | backend/src/game-room/entities/game-state.entity.ts:106-109 | Every listed vertex starts with an empty stack. |
| Setup.DecksFull | backend/src/game-room/game-logic.service.ts:30 | Every player deck has 20 cards. |
| Setup.OpeningTwo | backend/src/game-room/game-logic.service.ts:23-64 | Two players opened on an empty board: seat 0 red with 3 stand and 17 deck cards, seat 1 blue with 4 and 16, markers on both bases, seat 0 to move, status playing. |
| Setup.SeatOrderTwo | backend/src/game-room/game-logic.service.ts:15-18 | Two distinct ids stay distinct and both are seated. |
| Setup.OpeningFrom | backend/src/game-room/game-logic.service.ts:12-67 | The opening after the player shuffle has the shape of `OpeningTwo`, for the two given ids in shuffled order. |
| Setup.InitialGameShape | backend/src/game-room/game-logic.service.ts:12-67 | `initializeGame` for two players: both seated in some order, seat 0 red with 3 cards and the turn, seat 1 blue with 4, one marker on each base, and status playing. |
| GameLogic.InitializeGame | backend/src/game-room/game-logic.service.ts:12-67 | The method builds a fresh, well-formed entity equal to the specified initial game. |
| GameLogic.SetUpPlayers | backend/src/game-room/game-logic.service.ts:15-64 | Shuffling, seating, the first turn and the status, as specified on any starting entity. |
| GameLogic.SeatPlayers | backend/src/game-room/game-logic.service.ts:23-61 | The `forEach` over the shuffled players seats them in order, each with its own deck. |
| GameLogic.SeatPlayer | backend/src/game-room/game-logic.service.ts:24-60 | One seat: the player with their opening draw is set, and their base marker is pushed if the base exists. |
| Rules.DrawTwo | backend/src/game-room/game-logic.service.ts:129-147 | A draw changes only the players and keeps their order. |
| Rules.DrawTwoEffect | backend/src/game-room/game-logic.service.ts:129-147 | The draw is refused, changing nothing, iff the player is unknown or holds 8 or more. Otherwise `min(1 or 2, deck)` cards move and no stand exceeds 8. |
| GameLogic.DrawTwoSoldiers | backend/src/game-room/game-logic.service.ts:129-147 | The in-place draw gives the specified state and answer. |
| Rules.DominanceRule | backend/src/game-room/game-logic.service.ts:183-198 | On an occupied target, placement passes the dominance step iff the soldier is rank 8, the top is the player's own, or the soldier's power is strictly greater. |
| Rules.ConnectionRule | backend/src/game-room/game-logic.service.ts:160-180 | An allowed placement targets a known vertex that is not the player's base, and, unless rank 4, is connected to the player's base. |
| Rules.PlaceCheck | backend/src/game-room/game-logic.service.ts:150-201 | An allowed placement names a listed player, a card on their stand, and a known vertex other than their own base. |
| GameLogic.CanPlaceSoldier | backend/src/game-room/game-logic.service.ts:150-201 | The checks, in source order, give the specified verdict, with the connectivity answered by the BFS. |
| Rules.RemoveAt | backend/src/game-room/game-logic.service.ts:235 | `splice(i, 1)` removes exactly the element at `i`. |
| Rules.Move | backend/src/game-room/game-logic.service.ts:235-236 | The chosen card leaves the mover's stand (one fewer, same multiset minus that card) and goes on top of the target stack. Deck, discard pile, every other player and every other vertex are unchanged. |
| Rules.Place | backend/src/game-room/game-logic.service.ts:204-253 | Placement succeeds iff the check allows it; a refused placement changes nothing and does not end the game. |
| Rules.Resolve | backend/src/game-room/game-logic.service.ts:239-252 | After the move, the effect, the scoring and the win check leave the board and the player order alone and report success. |
| RuleLemmas.PlaceIsMoveThenResolve | backend/src/game-room/game-logic.service.ts:225-252 | A successful placement is the move followed by its resolution. |
| RuleLemmas.PlacePutsOnTop | backend/src/game-room/game-logic.service.ts:235-236 | On success the chosen stand card becomes the new top of the target stack. |
| RuleLemmas.PlaceTakesFromStand | backend/src/game-room/game-logic.service.ts:235-239 | On success the mover's stand is the old stand without the chosen card, followed only by cards the effect drew. |
| RuleLemmas.EffectKeepsStandPrefix | backend/src/game-room/game-logic.service.ts:256-291 | Effects only append to the mover's own stand. |
| RuleLemmas.EffectPending | backend/src/game-room/game-logic.service.ts:256-331 | Rank 2 sets the Captain action. Rank 3 sets the Giant action with the candidate list only when that list is non-empty. Every other case leaves the slot alone. |
| RuleLemmas.PlacePending | backend/src/game-room/game-logic.service.ts:235-331 | The same for a whole placement, with the Giant candidates taken after the soldier is pushed. |
| RuleLemmas.SetKeepsCapped | backend/src/game-room/game-logic.service.ts:287 | Replacing a player by one with at most 8 stand cards keeps all stands capped. |
| RuleLemmas.EffectKeepsStandsCapped | backend/src/game-room/game-logic.service.ts:256-291 | No effect makes a stand exceed 8. |
| RuleLemmas.PlaceKeepsStandsCapped | backend/src/game-room/game-logic.service.ts:204-253 | No placement makes a stand exceed 8. |
| RuleLemmas.ResolveEnds | backend/src/game-room/game-logic.service.ts:242-252 | `gameEnded` holds iff the win check finds a winner whose id is not the empty string (the source's `if (winner)`). The status is then finished and the winner recorded; otherwise status and winner are unchanged. Claims are kept. |
| RuleLemmas.PlaceEnds | backend/src/game-room/game-logic.service.ts:204-253 | The same for a whole placement: an ended game has a winner with a non-empty id who wins. A successful placement that does not end it finds no winner, or only one with the empty id. |
| RuleLemmas.MoveConserves | backend/src/game-room/game-logic.service.ts:235-236 | Moving a soldier from stand to stack conserves the total count of cards and stacked soldiers. |
| RuleLemmas.SetPlayerConserves | backend/src/game-room/game-logic.service.ts:139-144 | Replacing a player by one holding as many cards keeps the total. |
| RuleLemmas.DrawTwoConserves | backend/src/game-room/game-logic.service.ts:129-147 | Drawing conserves the total. |
| RuleLemmas.DrawOneConserves | backend/src/game-room/game-logic.service.ts:282-288 | The rank-6 draw conserves the total. |
| RuleLemmas.EnemyStandConserves | backend/src/game-room/game-logic.service.ts:361-377 | The rank-5 discard conserves the total. |
| RuleLemmas.EffectConserves | backend/src/game-room/game-logic.service.ts:256-291 | Every effect conserves the total. |
| RuleLemmas.AwardConserves | backend/src/game-room/entities/game-state.entity.ts:192-215 | Scoring conserves the total. |
| RuleLemmas.ResolveConserves | backend/src/game-room/game-logic.service.ts:239-252 | Resolution conserves the total. |
| RuleLemmas.PlaceConserves | backend/src/game-room/game-logic.service.ts:204-253 | Placement conserves the total count of cards and stacked soldiers. |
| Rules.GiantTargets | backend/src/game-room/game-logic.service.ts:299-312 | The candidates are exactly the neighbours whose top soldier is another player's and not rank 0. |
| Rules.GiantEffect | backend/src/game-room/game-logic.service.ts:294-323 | The rank-3 effect changes only the pending-action slot. |
| GameLogic.RemoveAdjacentEnemySoldier | backend/src/game-room/game-logic.service.ts:294-323 | The loop collects the specified candidates and sets the Giant action as specified. |
| GameLogic.SetCaptainAdditionalPlace | backend/src/game-room/game-logic.service.ts:326-331 | Only the pending slot changes, to the Captain action for the mover. |
| Rules.FirstVictim | backend/src/game-room/game-logic.service.ts:365-370 | There is no victim iff no other player has stand cards; a reported victim is listed, another player, and has stand cards. |
| Rules.FirstVictimIsFirst | backend/src/game-room/game-logic.service.ts:369-375 | The victim is the first such player in iteration order. |
| GameLogic.FindEnemy | backend/src/game-room/game-logic.service.ts:365-376 | The filtered loop finds the specified victim. |
| RuleLemmas.DiscardMoves | backend/src/game-room/game-logic.service.ts:371-373 | Exactly one stand card moves to the end of the discard pile, and nothing else of the player changes. |
| RuleLemmas.EnemyStandEffect | backend/src/game-room/game-logic.service.ts:361-377 | With no victim nothing changes. Otherwise only the first victim loses one stand card to their discard pile, and the mover is untouched. |
| Rules.RemoveEnemyStandSoldier | backend/src/game-room/game-logic.service.ts:361-377 | The rank-5 effect changes only the players and keeps their order. |
| GameLogic.RemoveRandomEnemyStandSoldier | backend/src/game-room/game-logic.service.ts:361-377 | The in-place effect gives the specified state. |
| Rules.DrawOne | backend/src/game-room/game-logic.service.ts:282-288 | The rank-6 draw changes only the players and keeps their order. |
| Rules.ApplyEffect | backend/src/game-room/game-logic.service.ts:256-291 | An effect changes only the players and the pending-action slot, and keeps the player order. |
| GameLogic.ApplySoldierEffect | backend/src/game-room/game-logic.service.ts:256-291 | The dispatch on rank gives the specified state. |
| GameLogic.PlaceSoldier | backend/src/game-room/game-logic.service.ts:204-253 | The in-place placement gives the specified state and result. |
| GameLogic.ResolvePlacement | backend/src/game-room/game-logic.service.ts:239-252 | Effect, scoring and win check in place give the specified resolution, including the truthiness test on the winner's id. |
| RuleLemmas.GiantSelectionRefused | backend/src/game-room/game-logic.service.ts:338-343 | A selection that does not answer the mover's pending Giant action over a listed vertex is refused and changes nothing. |
| Rules.GiantSelection | backend/src/game-room/game-logic.service.ts:334-358 | A selection is accepted iff it answers the mover's pending Giant selection. Only the vertices, the players and the pending action may change; an accepted one clears the action; no vertex but the chosen one changes. |
| RuleLemmas.GiantSelectionEffect | backend/src/game-room/game-logic.service.ts:345-357 | An accepted selection pops the chosen stack's top into its owner's discard pile, or drops it if the owner is not a player, and clears the pending action. The owner's other piles, every other player, every other vertex, the zones and the turn are unchanged. The card total drops by one only when the soldier is dropped. |
| GameLogic.ExecuteGiantSelection | backend/src/game-room/game-logic.service.ts:334-358 | The in-place selection gives the specified state and answer. |
| Rules.IndexOf | backend/src/game-room/game-logic.service.ts:382 | `indexOf` finds the first position of the current player, or -1 when there is none. |
| Rules.NextTurn | backend/src/game-room/game-logic.service.ts:385 | The turn count rises by exactly 1. |
| Rules.NextTurnOrder | backend/src/game-room/game-logic.service.ts:380-386 | The turn moves to the next player in order, wrapping; an unknown current player hands it to the first. |
| Rules.TwoPlayersAlternate | backend/src/game-room/game-logic.service.ts:380-386 | With two players the turn alternates and returns after two advances. |
| GameLogic.NextTurn | backend/src/game-room/game-logic.service.ts:380-386 | The in-place update gives the specified next turn. |
| TurnProtocol.DrawRule | backend/src/game-room/game-room.gateway.ts:264-290 | A draw is accepted iff it is the mover's turn, their stand has room and their deck is not empty. An accepted draw advances the turn count and grows the mover's stand, to at most 8. |
| TurnProtocol.PlaceKeepsTurn | backend/src/game-room/game-logic.service.ts:204-253 | The engine's placement never changes whose turn it is or the turn count. |
| TurnProtocol.PlaceTurnRule | backend/src/game-room/game-room.gateway.ts:328-363 | A placement is accepted iff the mover has the turn or a Captain grant and the check allows it. The turn passes exactly when no action is pending afterwards; otherwise the same player keeps it. |
| TurnProtocol.CaptainGrantsPlacement | backend/src/game-room/game-room.gateway.ts:329-340 | A Captain grant lets its holder place off-turn and is used up first; it gives nobody else a placement. |
| TurnProtocol.GiantTurnRule | backend/src/game-room/game-room.gateway.ts:439-450 | A Giant selection is accepted iff it answers the mover's pending selection; it clears the action and passes the turn. |
| TurnProtocol.NextTurnKeeps | backend/src/game-room/game-logic.service.ts:380-386 | Passing the turn changes only whose turn it is and the count, so cards and stand caps are kept. |
| TurnProtocol.DrawStepKeeps | backend/src/game-room/game-room.gateway.ts:264-290 | An accepted draw keeps every stand at 8 or fewer, leaves the zones alone and conserves the card total. |
| TurnProtocol.PlaceStepKeeps | backend/src/game-room/game-room.gateway.ts:328-363 | An accepted placement keeps every stand at 8 or fewer, keeps every claim and conserves the card total. |
| TurnProtocol.GiantStepKeeps | backend/src/game-room/game-room.gateway.ts:439-450 | An accepted Giant selection keeps every stand at 8 or fewer and the zones as they were; the total drops by one exactly when the removed soldier's owner is not a player. |
| TurnProtocol.HandleDraw | backend/src/game-room/game-room.gateway.ts:264-293 | The handler stores the document of the accepted draw, or leaves the stored one when it is rejected. |
| TurnProtocol.HandlePlace | backend/src/game-room/game-room.gateway.ts:326-366 | The handler stores the document of the accepted placement with the engine's result, or leaves the stored one when it is rejected. |
| TurnProtocol.PlaceTurn | backend/src/game-room/game-room.gateway.ts:328-363 | On the restored entity: no turn and no grant means rejection; otherwise the grant is cleared, the placement runs, and the turn is settled. |
| TurnProtocol.ClearGrant | backend/src/game-room/game-room.gateway.ts:337-340 | The mover's own Captain grant is cleared before placing. |
| TurnProtocol.SettleTurn | backend/src/game-room/game-room.gateway.ts:353-363 | The turn passes iff no action is pending. |
| TurnProtocol.HandleGiantSelection | backend/src/game-room/game-room.gateway.ts:436-453 | The handler stores the document of the accepted selection with the turn passed, or leaves the stored one. |
| GameRoomMemory.Remaining | backend/src/game-room/entities/game-room-memory.entity.ts:38-40 | The filter keeps no seat with that id and never grows the list. |
| GameRoomMemory.RemainingMembers | backend/src/game-room/entities/game-room-memory.entity.ts:39 | A seat remains iff it was there and has another id. |
| GameRoomMemory.RemainingAppend | backend/src/game-room/entities/game-room-memory.entity.ts:39 | Filtering works piece by piece, so the survivors keep their order. |
| GameRoomMemory.RemainingAbsent | backend/src/game-room/entities/game-room-memory.entity.ts:39 | Removing an id nobody has changes nothing. |
| GameRoomMemory.GameRoom.constructor | backend/src/game-room/entities/game-room-memory.entity.ts:20-29 | A new room keeps its given fields, is waiting, has no players and no game, and is within capacity. |
| GameRoomMemory.GameRoom.AddPlayer | backend/src/game-room/entities/game-room-memory.entity.ts:31-36 | A full room (players at or above capacity) refuses and is unchanged; otherwise the player is appended. Capacity is kept. |
| GameRoomMemory.GameRoom.RemovePlayer | backend/src/game-room/entities/game-room-memory.entity.ts:38-40 | The players become the filtered list; capacity is kept. |
| GameRoomMemory.GameRoom.StartGame | backend/src/game-room/entities/game-room-memory.entity.ts:42-44 | The status becomes playing; no other field may change. |
| GameRoomMemory.GameRoom.FinishGame | backend/src/game-room/entities/game-room-memory.entity.ts:46-48 | The status becomes finished; no other field may change. |
| RoomLifecycle.FindPlayer | backend/src/game-room/game-room.service.ts:57 | `find` returns the first seat with that id, or none when no seat has it. |
| RoomLifecycle.ToggleTwice | backend/src/game-room/game-room.service.ts:141 | Toggling flips only that seat's readiness, and toggling twice is the identity. |
| RoomLifecycle.CreatedSeated | backend/src/game-room/game-room.service.ts:34-39 | A new room with only its host is seated. |
| RoomLifecycle.JoinKeepsSeating | backend/src/game-room/game-room.service.ts:57-75 | A rejoin only renames; a new joiner is never the host; both keep the room seated. |
| RoomLifecycle.ToggleKeepsSeating | backend/src/game-room/game-room.service.ts:141 | Toggling keeps the room seated. |
| RoomLifecycle.LeaveKeepsSeating | backend/src/game-room/game-room.service.ts:86-96 | A room that is not emptied stays seated, and when the host left, the first remaining player becomes the host. |
| RoomLifecycle.RemainingOrder | backend/src/game-room/entities/game-room-memory.entity.ts:39 | Two surviving seats come from two distinct seats in the same order. |
| RoomLifecycle.StartCondition | backend/src/game-room/game-room.service.ts:116 | In a seated room, "every player ready or host" means every player but the host is ready. |
| RoomLifecycle.WaitingIn | backend/src/game-room/game-room.service.ts:150 | Every room listed is a waiting room of the table, and every waiting room of the table is listed. |
| RoomLifecycle.GameRoomService.constructor | backend/src/game-room/game-room.service.ts:8 | The table starts empty. |
| RoomLifecycle.GameRoomService.CreateRoom | backend/src/game-room/game-room.service.ts:24-43 | A fresh waiting room with the requested capacity (2 when missing or 0) and the host as its only, ready player is filed under the code. A capacity below one refuses the host and files nothing. |
| RoomLifecycle.GameRoomService.JoinRoom | backend/src/game-room/game-room.service.ts:45-77 | Refused for a missing room, a started room, or a full room with a new player. A rejoin renames the existing seat, and a new player is appended as neither host nor ready. Only the players change. |
| RoomLifecycle.GameRoomService.LeaveRoom | backend/src/game-room/game-room.service.ts:79-99 | Refused for a missing room. An emptied room is removed from the table and none is returned. When the host left, the first remaining player takes the host id and flag. |
| RoomLifecycle.GameRoomService.StartGame | backend/src/game-room/game-room.service.ts:101-122 | Refused, in this order, for a missing room, a caller who is not the host, fewer than 2 players, or anyone neither ready nor host. Otherwise the room is playing. |
| RoomLifecycle.GameRoomService.ToggleReady | backend/src/game-room/game-room.service.ts:124-143 | Refused for a missing room, an unknown player or the host; otherwise only that player's readiness flips. |
| RoomLifecycle.GameRoomService.GetRoom | backend/src/game-room/game-room.service.ts:145-147 | The room filed under the code, if any. |
| RoomLifecycle.GameRoomService.GetAllRooms | backend/src/game-room/game-room.service.ts:149-151 | Exactly the waiting rooms, in table order. |

## Left out

- Sockets, event emission, the reconnect timer and the HTTP controller: transport. Only the turn rules of the gateway's draw, place and Giant handlers are modelled.
- The gateway's room lookup ("game not found") and its `room.status = 'finished'` on a game end: the handlers here work on the stored document itself.
- The periodic cleanup of empty rooms and `onModuleDestroy`: timer-driven. `LeaveRoom` already drops a room when it empties.
- `generateRoomId`: the room code is a parameter of `CreateRoom`. If the code is already in use, the old room is replaced, as `Map.set` does.
- Room `createdAt` and `toJSON` of a room: clock and display.
- Reason strings of refusals: errors are the `RoomError` values and the `Verdict` values, one per reason.
- The `isHost` flag on game players: display only.
- `initializeGame` with more than two players: the source's colour table has two entries, so a third seat's colour is undefined. `Setup.SetupInputs` requires at most two players, which the room capacity guarantees in practice. The opening's shape is proved for exactly two distinct players.
- `Math.random`: draws are parameters in `[0, 1)`.
- Rules.PlaceCheck: the soldier index is an integer here. In the source it is any JS number, so a fractional or `NaN` index passes the range test, the card read is `undefined` and the rank test throws a `TypeError`. That throw is not modelled; `GameLogic.CanPlaceSoldier` and `TurnProtocol.HandlePlace` inherit this.
- Shallow copies: `toJSON` in the source shares object references with the live state, and `createTurnSnapshot`/`restoreFromSnapshot` are never called. The model copies values.
- `RoomLifecycle.GameRoomService.CreateRoom`: a `NaN` capacity is not modelled (integers only). A negative capacity is modelled: the host cannot be added and the call fails, as in the source.
- Some loops and callbacks of the source are separate methods here, each proved against its own function. `VisitNeighbors` is the inner BFS loop, `AddVertices`/`LinkEdges` are the two `forEach` loops of `initializeMap`, `SeatPlayer` is the seating callback, `FindEnemy` is the victim search, and `ResolvePlacement` is the end of `placeSoldier`. `PlaceTurn`, `ClearGrant` and `SettleTurn` are the parts of the place handler.
