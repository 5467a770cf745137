/**
 * The opening of a game (`initializeGame`): the seating order shuffled, a shuffled deck per
 * seat, the opening draw of 3 cards for the first seat and 4 for the second, a base marker
 * on each player's base, and the first seat to move.
 */
module Setup {
  import opened Wrappers
  import opened OrderedMaps
  import opened GameTypes
  import opened Cards
  import GameModel
  import Board

  /** Ids and names side by side: the player shuffle applies every swap to both arrays. */
  function Zip(ids: seq<string>, names: seq<string>): (r: seq<(string, string)>)
    requires |ids| == |names|
    ensures |r| == |ids| && forall i :: 0 <= i < |r| ==> r[i] == (ids[i], names[i])
  {
    seq(|ids|, i requires 0 <= i < |ids| => (ids[i], names[i]))
  }

  /** The pairs determine both arrays, so a shuffle of the pairs fixes the new ids and the new names. */
  lemma ZipInjective(ids: seq<string>, names: seq<string>, ids': seq<string>, names': seq<string>)
    requires |ids| == |names| && |ids'| == |names'|
    requires Zip(ids, names) == Zip(ids', names')
    ensures ids == ids' && names == names'
  {
    assert |ids| == |Zip(ids, names)| == |ids'|;
    forall i | 0 <= i < |ids| ensures ids[i] == ids'[i] && names[i] == names'[i] {
      assert Zip(ids, names)[i] == Zip(ids', names')[i];
    }
  }

  /** The first seat plays red, the second blue. */
  function SeatColor(i: nat): PlayerColor {
    if i == 0 then Red else Blue
  }

  /** The first seat opens with 3 cards, every later one with 4. */
  function OpeningDraw(i: nat): nat {
    if i == 0 then 3 else 4
  }

  /** The dummy soldier put on a base: rank 0 and power 0, so that any soldier can beat it. */
  function BaseMarker(id: string, c: PlayerColor): Soldier {
    Soldier(0, 0, id, c)
  }

  /** The player of seat `i` after the opening draw from its deck. */
  function NewPlayer(i: nat, id: string, name: string, deck: seq<Soldier>): Player {
    DrawCards(Player(id, name, SeatColor(i), deck, [], 0, []), id, OpeningDraw(i))
  }

  /** Seat `i` joins: its player is stored under its id, and its marker tops its base. */
  function Seat(g: Game, i: nat, id: string, name: string, deck: seq<Soldier>): Game {
    var g1 := g.(players := g.players.Set(id, NewPlayer(i, id, name, deck)));
    var base := Board.BaseOf(SeatColor(i));
    if base in g1.vertices.m then g1.(vertices := GameModel.Push(g1.vertices, base, BaseMarker(id, SeatColor(i))))
    else g1
  }

  /** The seats taken in order, seat `i` with deck `decks[i]`. */
  function SeatAll(g: Game, seats: seq<(string, string)>, decks: seq<seq<Soldier>>): Game
    requires |seats| <= |decks|
  {
    if seats == [] then g
    else
      var n := |seats| - 1;
      Seat(SeatAll(g, seats[..n], decks), n, seats[n].0, seats[n].1, decks[n])
  }

  /** Seating one more player: the first `i + 1` seats are the first `i`, then seat `i`. */
  lemma SeatAllStep(g: Game, seats: seq<(string, string)>, decks: seq<seq<Soldier>>, i: nat)
    requires i < |seats| <= |decks|
    ensures SeatAll(g, seats[..i + 1], decks) == Seat(SeatAll(g, seats[..i], decks), i, seats[i].0, seats[i].1, decks[i])
  {
    assert seats[..i + 1][..i] == seats[..i];
  }

  /** One batch of draws per seat, enough for a deck's shuffle. */
  predicate DeckDraws(dds: seq<seq<real>>) {
    forall i :: 0 <= i < |dds| ==> |dds[i]| >= 23 && RandomDraws(dds[i])
  }

  function Decks(dds: seq<seq<real>>): (r: seq<seq<Soldier>>)
    requires DeckDraws(dds)
    ensures |r| == |dds| && forall i :: 0 <= i < |dds| ==> r[i] == Deck(dds[i])
  {
    seq(|dds|, i requires 0 <= i < |dds| => Deck(dds[i]))
  }

  /** The inputs `initializeGame` can seat: two players at most, a name per id. */
  predicate SetupInputs(ids: seq<string>, names: seq<string>, pds: seq<real>, dds: seq<seq<real>>) {
    && |ids| == |names| <= 2
    && |ids| <= |pds| + 1 && RandomDraws(pds)
    && |ids| <= |dds| && DeckDraws(dds)
  }

  /** The seating order: ids and names shuffled together with the draws `pds`. */
  function SeatOrder(ids: seq<string>, names: seq<string>, pds: seq<real>): (r: seq<(string, string)>)
    requires |ids| == |names| && |ids| <= |pds| + 1 && RandomDraws(pds)
    ensures multiset(r) == multiset(Zip(ids, names)) && |r| == |ids|
  {
    ShufflePermutes(Zip(ids, names), pds);
    Shuffle(Zip(ids, names), pds)
  }

  /** After the shuffle every seat still holds a name together with the id it came with. */
  lemma NamesStayWithIds(ids: seq<string>, names: seq<string>, pds: seq<real>, k: nat)
    requires |ids| == |names| && |ids| <= |pds| + 1 && RandomDraws(pds)
    requires k < |SeatOrder(ids, names, pds)|
    ensures exists i :: 0 <= i < |ids| && SeatOrder(ids, names, pds)[k] == (ids[i], names[i])
  {
    var seats := SeatOrder(ids, names, pds);
    assert seats[k] in multiset(seats);
    assert seats[k] in Zip(ids, names);
    var i :| 0 <= i < |ids| && Zip(ids, names)[i] == seats[k];
  }

  /** The seats taken on `g0`, then the first seat to move and the game playing. */
  function Opening(g0: Game, seats: seq<(string, string)>, decks: seq<seq<Soldier>>): Game
    requires |seats| <= |decks|
  {
    SeatAll(g0, seats, decks).(currentTurn := if seats == [] then None else Some(seats[0].0), gameStatus := Playing)
  }

  /** `initializeGame`: a new state with the players seated, the first seat to move, playing. */
  function InitialGame(ids: seq<string>, names: seq<string>, pds: seq<real>, dds: seq<seq<real>>): Game
    requires SetupInputs(ids, names, pds, dds)
  {
    Opening(GameModel.NewGame(), SeatOrder(ids, names, pds), Decks(dds))
  }

  /** Two seats are a reordering of two players, so the seated ids are the two given ids. */
  lemma TwoSeats(ids: seq<string>, names: seq<string>, seats: seq<(string, string)>)
    requires |ids| == |names| == 2 && multiset(seats) == multiset(Zip(ids, names))
    ensures |seats| == 2
    ensures seats == Zip(ids, names) || seats == [Zip(ids, names)[1], Zip(ids, names)[0]]
  {
    var z := Zip(ids, names);
    assert z == [z[0], z[1]];
    assert |seats| == |multiset(seats)| == 2;
    assert seats == [seats[0], seats[1]];
    assert seats[0] in multiset(z) && seats[1] in multiset(z);
    if seats[0] == seats[1] {
      assert multiset(seats)[seats[0]] == 2;
    }
  }

  /** A freshly seated player: its colour, an empty score, and the opening draw taken from a full deck. */
  lemma NewPlayerShape(i: nat, id: string, name: string, deck: seq<Soldier>)
    requires |deck| == 20
    ensures var pl := NewPlayer(i, id, name, deck);
      && pl.id == id && pl.color == SeatColor(i) && pl.medals == 0 && pl.discardPile == []
      && |pl.stand| == OpeningDraw(i) && |pl.deck| == 20 - OpeningDraw(i)
  {
  }

  /** Two seats taken on a board whose bases are empty and a table with no players. */
  lemma TwoSeatsTaken(g0: Game, seats: seq<(string, string)>, decks: seq<seq<Soldier>>)
    requires |seats| == 2 <= |decks| && |decks[0]| == 20 && |decks[1]| == 20 && seats[0].0 != seats[1].0
    requires g0.players.keys == [] && g0.players.Wf() && g0.vertices.Wf()
    requires "X" in g0.vertices.m && "Y" in g0.vertices.m
    requires g0.vertices.m["X"].soldiers == [] && g0.vertices.m["Y"].soldiers == []
    ensures var g := SeatAll(g0, seats, decks);
      var (a, b) := (seats[0].0, seats[1].0);
      && g.players.keys == [a, b] && g.players.Wf() && g.vertices.Wf()
      && g.players.m[a] == NewPlayer(0, a, seats[0].1, decks[0])
      && g.players.m[b] == NewPlayer(1, b, seats[1].1, decks[1])
      && "X" in g.vertices.m && "Y" in g.vertices.m
      && g.vertices.m["X"].soldiers == [BaseMarker(a, Red)]
      && g.vertices.m["Y"].soldiers == [BaseMarker(b, Blue)]
      && g == g0.(players := g.players, vertices := g.vertices)
  {
    assert seats[..1][..0] == [] && seats[..2][..1] == seats[..1] && seats[..2] == seats;
    var g1 := Seat(g0, 0, seats[0].0, seats[0].1, decks[0]);
    assert SeatAll(g0, seats[..1], decks) == g1;
    assert SeatAll(g0, seats, decks) == Seat(g1, 1, seats[1].0, seats[1].1, decks[1]);
  }

  /** The new state's board: both bases present and empty, both maps well formed, no players. */
  lemma NewGameBases()
    ensures var g0 := GameModel.NewGame();
      && g0.players.keys == [] && g0.players.Wf() && g0.vertices.Wf()
      && "X" in g0.vertices.m && "Y" in g0.vertices.m
      && g0.vertices.m["X"].soldiers == [] && g0.vertices.m["Y"].soldiers == []
  {
    BaseEmpty("X", 0);
    BaseEmpty("Y", 1);
    assert GameModel.NewGame().vertices == Board.InitialVertices();
  }

  /** A listed base is on the initial board with an empty stack. */
  lemma BaseEmpty(id: string, i: nat)
    requires i < |Board.VertexIds| && Board.VertexIds[i] == id
    ensures id in Board.InitialVertices().m && Board.InitialVertices().m[id].soldiers == []
  {
    Board.InitialBoard();
  }

  /** Every deck holds 20 cards. */
  lemma DecksFull(dds: seq<seq<real>>)
    requires DeckDraws(dds)
    ensures forall i :: 0 <= i < |dds| ==> |Decks(dds)[i]| == 20
  {
    forall i | 0 <= i < |dds| ensures |Decks(dds)[i]| == 20 {
      DeckShape(dds[i]);
    }
  }

  /** What two players with different ids find when the game opens on `g0`. */
  ghost predicate OpenedFor(g: Game, g0: Game, a: string, b: string) {
    && g.players.keys == [a, b] && g.players.Wf() && g.vertices.Wf()
    && a in g.players.m && b in g.players.m
    && g.players.m[a].color == Red && g.players.m[b].color == Blue
    && |g.players.m[a].stand| == 3 && |g.players.m[a].deck| == 17
    && |g.players.m[b].stand| == 4 && |g.players.m[b].deck| == 16
    && g.players.m[a].medals == 0 && g.players.m[b].medals == 0
    && "X" in g.vertices.m && "Y" in g.vertices.m
    && g.vertices.m["X"].soldiers == [BaseMarker(a, Red)]
    && g.vertices.m["Y"].soldiers == [BaseMarker(b, Blue)]
    && g.currentTurn == Some(a) && g.gameStatus == Playing
    && g == g0.(players := g.players, vertices := g.vertices, currentTurn := g.currentTurn, gameStatus := Playing)
  }

  /** Two seats opened on a board with empty bases and no players. */
  lemma OpeningTwo(g0: Game, seats: seq<(string, string)>, decks: seq<seq<Soldier>>)
    requires |seats| == 2 <= |decks| && |decks[0]| == 20 && |decks[1]| == 20 && seats[0].0 != seats[1].0
    requires g0.players.keys == [] && g0.players.Wf() && g0.vertices.Wf()
    requires "X" in g0.vertices.m && "Y" in g0.vertices.m
    requires g0.vertices.m["X"].soldiers == [] && g0.vertices.m["Y"].soldiers == []
    ensures OpenedFor(Opening(g0, seats, decks), g0, seats[0].0, seats[1].0)
  {
    TwoSeatsTaken(g0, seats, decks);
    NewPlayerShape(0, seats[0].0, seats[0].1, decks[0]);
    NewPlayerShape(1, seats[1].0, seats[1].1, decks[1]);
  }

  /** Two players with different ids keep different ids once shuffled. */
  lemma SeatOrderTwo(ids: seq<string>, names: seq<string>, pds: seq<real>)
    requires |ids| == |names| == 2 && |ids| <= |pds| + 1 && RandomDraws(pds) && ids[0] != ids[1]
    ensures var seats := SeatOrder(ids, names, pds);
      && |seats| == 2 && {seats[0].0, seats[1].0} == {ids[0], ids[1]} && seats[0].0 != seats[1].0
  {
    TwoSeats(ids, names, SeatOrder(ids, names, pds));
  }

  /** The opening of two players with different ids on a board with empty bases and no players. */
  lemma OpeningFrom(g0: Game, ids: seq<string>, names: seq<string>, pds: seq<real>, dds: seq<seq<real>>)
    requires SetupInputs(ids, names, pds, dds) && |ids| == 2 && ids[0] != ids[1]
    requires g0.players.keys == [] && g0.players.Wf() && g0.vertices.Wf()
    requires "X" in g0.vertices.m && "Y" in g0.vertices.m
    requires g0.vertices.m["X"].soldiers == [] && g0.vertices.m["Y"].soldiers == []
    ensures var seats := SeatOrder(ids, names, pds);
      && |seats| == 2 && {seats[0].0, seats[1].0} == {ids[0], ids[1]}
      && OpenedFor(Opening(g0, seats, Decks(dds)), g0, seats[0].0, seats[1].0)
  {
    SeatOrderTwo(ids, names, pds);
    DecksFull(dds);
    OpeningTwo(g0, SeatOrder(ids, names, pds), Decks(dds));
  }

  /**
   * Two players with different ids: the first seat plays red from X with 3 cards on its stand
   * and 17 in its deck, the second blue from Y with 4 and 16, each base topped by its owner's
   * marker, the first seat to move; the rest of the new state (no medals claimed, turn count 0,
   * nothing pending, no winner) is untouched.
   */
  lemma InitialGameShape(ids: seq<string>, names: seq<string>, pds: seq<real>, dds: seq<seq<real>>)
    requires SetupInputs(ids, names, pds, dds) && |ids| == 2 && ids[0] != ids[1]
    ensures var seats := SeatOrder(ids, names, pds);
      && |seats| == 2 && {seats[0].0, seats[1].0} == {ids[0], ids[1]}
      && OpenedFor(InitialGame(ids, names, pds, dds), GameModel.NewGame(), seats[0].0, seats[1].0)
  {
    NewGameBases();
    OpeningFrom(GameModel.NewGame(), ids, names, pds, dds);
  }
}
