/** The suit and rank enumerations the deck is built from, and the label
    printed on a card for its rank. */
module Constants {
  import opened Types
  import opened Numerals

  const SUITS: seq<Suit> := [Hearts, Diamonds, Clubs, Spades]

  const RANKS: seq<Rank> := seq(13, i requires 0 <= i < 13 => (i + 1) as Rank)

  /** SUITS lists every suit exactly once, in the order hearts, diamonds,
      clubs, spades. */
  lemma SuitsEachOnce()
    ensures |SUITS| == 4
    ensures SUITS[0] == Hearts && SUITS[1] == Diamonds && SUITS[2] == Clubs && SUITS[3] == Spades
    ensures forall s: Suit :: multiset(SUITS)[s] == 1
  {
    assert multiset(SUITS) == multiset{Hearts, Diamonds, Clubs, Spades};
    forall s: Suit ensures multiset(SUITS)[s] == 1 {
      match s
      case Hearts =>
      case Diamonds =>
      case Clubs =>
      case Spades =>
    }
  }

  /** RANKS is the ascending sequence 1..13. */
  lemma RanksAscending()
    ensures |RANKS| == 13
    ensures forall i :: 0 <= i < 13 ==> RANKS[i] == i + 1
    ensures forall i, j :: 0 <= i < j < 13 ==> RANKS[i] < RANKS[j]
  {
  }

  /** The label of a rank: a letter for the court cards and the ace, the
      decimal numeral otherwise. */
  function RankLabel(rank: Rank): (text: string)
    ensures rank == Ace ==> text == "A"
    ensures rank == Jack ==> text == "J"
    ensures rank == Queen ==> text == "Q"
    ensures rank == King ==> text == "K"
    ensures 2 <= rank <= 10 ==> AllDigits(text) && ParseDecimal(text) == rank
    ensures 2 <= rank <= 10 ==> text[0] != '0'
  {
    ParseDecimalString(rank);
    if rank == Ace then "A"
    else if rank == Jack then "J"
    else if rank == Queen then "Q"
    else if rank == King then "K"
    else DecimalString(rank)
  }

  /** No two ranks share a label. */
  lemma RankLabelInjective(r1: Rank, r2: Rank)
    ensures RankLabel(r1) == RankLabel(r2) ==> r1 == r2
  {
    if 2 <= r1 <= 10 && 2 <= r2 <= 10 {
      DecimalStringInjective(r1, r2);
    }
  }
}
