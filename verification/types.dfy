/** The data model of the game: phases, cards, players and the whole game
    state that the component keeps in separate pieces of React state. */
module Types {

  /** The phases of a game, one per value of the GameState enumeration. */
  datatype Phase =
    | Intro
    | Lobby
    | FlipPhase
    | DecisionPhase
    | Bust
    | DiscardSelect
    | GiftExchange
    | GameOver

  /** A card identity. The component spells it as the string `card-<goal>-<copy>`,
      which is determined by, and determines, the pair kept here. */
  datatype CardId = CardId(goal: int, copy: nat)

  /** One card: its identity and the goal it belongs to. The component keeps
      the goal both inside the identity string and as a field of its own;
      `Labelled` says the two agree, as they do for every dealt card. */
  datatype Card = Card(id: CardId, goal: int)

  predicate Labelled(c: Card) {
    c.id.goal == c.goal
  }

  /** A player: identity, display name, the cards collected so far, the score
      filled in at the end of the game and whether the automated driver plays it. */
  datatype Player = Player(id: string, name: string, collected: seq<Card>, finalScore: int, isAI: bool)

  /** The verdict shown at the end: the team total and whether it reached the target. */
  datatype ScoreInfo = ScoreInfo(total: int, passed: bool)

  datatype Option<T> = None | Some(value: T)

  /** The state the engine transitions: phase, whose turn it is, the draw pile,
      the cards revealed this turn, the players, the card chosen for gifting
      and the final verdict once the game is over. */
  datatype Game = Game(
    phase: Phase,
    players: seq<Player>,
    turn: nat,
    deck: seq<Card>,
    table: seq<Card>,
    giftSelected: Option<nat>,
    scoreInfo: Option<ScoreInfo>)

  /** There is a current player. */
  predicate WellFormed(g: Game) {
    0 < |g.players| && g.turn < |g.players|
  }
}
