/**
 * The records of the Toy Battle game state: soldiers, vertices, players, the pending
 * action, medal zones, the state itself and its serialised document.
 */
module GameTypes {
  import opened Wrappers
  import opened OrderedMaps

  datatype PlayerColor = Red | Blue

  /** Vertex type 1, 2 and 3 of the source: a player's base, a special vertex, a gray one. */
  datatype VertexType = BaseVertex | SpecialVertex | GrayVertex

  /** `rank` is the soldier's type number: 0 is a base marker, 1 to 8 the soldier kinds. */
  datatype Soldier = Soldier(rank: int, power: int, playerId: string, playerColor: PlayerColor)

  /** The stack's last element is its top soldier. */
  datatype Vertex = Vertex(id: string, vtype: VertexType, soldiers: seq<Soldier>)

  /** `deck` is the supply (drawn from the back), `stand` the hand of at most 8. */
  datatype Player = Player(
    id: string,
    name: string,
    color: PlayerColor,
    deck: seq<Soldier>,
    stand: seq<Soldier>,
    medals: int,
    discardPile: seq<Soldier>)

  /** The one multi-step effect in flight: a Giant choosing its victim, or a Captain's extra placement. */
  datatype PendingAction =
    | SelectGiantTarget(playerId: string, availableTargets: seq<string>, sourceVertex: string)
    | PlaceAdditionalSoldier(playerId: string)

  datatype MedalZone = MedalZone(vertices: seq<string>, points: int, claimed: bool, claimedBy: Option<string>)

  datatype GameStatus = Waiting | Playing | Finished

  /** The value of a `GameState` object: one component per field of the class. */
  datatype Game = Game(
    vertices: OrderedMap<Vertex>,
    adjacency: map<string, seq<string>>,
    players: OrderedMap<Player>,
    currentTurn: Option<string>,
    turnCount: int,
    gameStatus: GameStatus,
    winner: Option<string>,
    turnStartSnapshot: Option<GameDoc>,
    pendingAction: Option<PendingAction>,
    medalZones: seq<MedalZone>)

  /**
   * The document `toJSON` produces and `fromJSON` reads. Every property may be
   * missing from a document, hence the options; the maps travel as entry lists.
   */
  datatype GameDoc = GameDoc(
    vertices: Option<seq<(string, Vertex)>>,
    players: Option<seq<(string, Player)>>,
    currentTurn: Option<string>,
    turnCount: Option<int>,
    gameStatus: Option<GameStatus>,
    winner: Option<string>,
    medalZones: Option<seq<MedalZone>>,
    turnStartSnapshot: Option<GameDoc>,
    pendingAction: Option<PendingAction>)
}
