/** The data model of the solitaire engine: suits, ranks, cards, pile
    locations, the game state and the cumulative statistics. */
module Types {

  datatype Option<T> = None | Some(value: T)

  /** The four suits. */
  datatype Suit = Hearts | Diamonds | Clubs | Spades

  /** The string form a suit has in the program ('hearts', 'diamonds', ...),
      used to build card ids. */
  function SuitName(s: Suit): string
  {
    match s
    case Hearts => "hearts"
    case Diamonds => "diamonds"
    case Clubs => "clubs"
    case Spades => "spades"
  }

  /** Ranks are the consecutive numbers 1..13. */
  type Rank = r: int | 1 <= r <= 13 witness 1

  const Ace: Rank := 1
  const Jack: Rank := 11
  const Queen: Rank := 12
  const King: Rank := 13

  /** A card: its identity (suit and rank, with the derived id string) and
      the one flag that changes during play. */
  datatype Card = Card(id: string, suit: Suit, rank: Rank, isFaceUp: bool)

  /** What identifies a card regardless of its orientation. */
  datatype CardId = CardId(suit: Suit, rank: Rank)

  function Id(c: Card): CardId
  {
    CardId(c.suit, c.rank)
  }

  datatype PileType = Tableau | Foundation | Stock | Waste

  /** A pile type plus an index; the index only matters for tableau and
      foundation piles. */
  datatype Location = Location(pileType: PileType, index: int)

  /** The root aggregate. The top of every pile is its last element. */
  datatype GameState = GameState(
    stock: seq<Card>,
    waste: seq<Card>,
    foundation: seq<seq<Card>>,
    tableau: seq<seq<Card>>,
    score: nat,
    moves: nat,
    won: bool)

  datatype GameStats = GameStats(
    gamesStarted: nat,
    gamesWon: nat,
    bestTime: Option<nat>,
    bestMoves: Option<nat>,
    longestGameTime: nat,
    totalMovesInWonGames: nat)

  /** Four foundation piles and seven tableau piles. */
  predicate WellFormed(g: GameState)
  {
    |g.foundation| == 4 && |g.tableau| == 7
  }

  /** A location whose index names an existing pile where the index is used. */
  predicate ValidLocation(loc: Location)
  {
    match loc.pileType
    case Tableau => 0 <= loc.index < 7
    case Foundation => 0 <= loc.index < 4
    case _ => true
  }
}
