/** Deck construction, the shuffle, the deal, the move-legality predicates
    and the win check. */
module GameLogic {
  import opened Types
  import opened Numerals
  import opened Constants
  import opened Piles

  // ---------------------------------------------------------------------
  // Deck
  // ---------------------------------------------------------------------

  /** A fresh card: face down, with id `<suit>-<rank>`. */
  function MakeCard(suit: Suit, rank: Rank): (c: Card)
    ensures Id(c) == CardId(suit, rank) && !c.isFaceUp
    ensures c.id == SuitName(suit) + "-" + DecimalString(rank)
  {
    Card(SuitName(suit) + "-" + DecimalString(rank), suit, rank, false)
  }

  /** Different suit-and-rank pairs get different ids: the ids of the
      created cards are unique. */
  lemma MakeCardIdInjective(s1: Suit, r1: Rank, s2: Suit, r2: Rank)
    ensures MakeCard(s1, r1).id == MakeCard(s2, r2).id ==> s1 == s2 && r1 == r2
  {
    var a, b := SuitName(s1), SuitName(s2);
    var x, y := DecimalString(r1), DecimalString(r2);
    var id := a + "-" + x;
    if id == b + "-" + y {
      if |a| < |b| {
        assert id[|a|] == '-' && (b + "-" + y)[|a|] == b[|a|];
        SuitNameNoDash(s2, |a|);
      } else if |b| < |a| {
        assert (b + "-" + y)[|b|] == '-' && id[|b|] == a[|b|];
        SuitNameNoDash(s1, |b|);
      }
      assert a == id[..|a|] == b;
      SuitNameInjective(s1, s2);
      assert x == id[|a| + 1..] == y;
      DecimalStringInjective(r1, r2);
    }
  }

  lemma SuitNameNoDash(s: Suit, k: nat)
    requires k < |SuitName(s)|
    ensures SuitName(s)[k] != '-'
  {
  }

  lemma SuitNameInjective(s1: Suit, s2: Suit)
    requires SuitName(s1) == SuitName(s2)
    ensures s1 == s2
  {
  }

  /** Position of a suit in SUITS. */
  function SuitIndex(s: Suit): (k: nat)
    ensures k < 4 && SUITS[k] == s
  {
    match s
    case Hearts => 0
    case Diamonds => 1
    case Clubs => 2
    case Spades => 3
  }

  /** The deck as it is built: suit-major in the order of SUITS, rank-minor
      in the order of RANKS. */
  function CanonicalDeck(): (d: seq<Card>)
    ensures |d| == 52
  {
    seq(52, k requires 0 <= k < 52 => MakeCard(SUITS[k / 13], RANKS[k % 13]))
  }

  /** Where each card sits in the built deck, and that it is face down. */
  lemma CanonicalDeckOrder()
    ensures |CanonicalDeck()| == 52
    ensures forall k :: 0 <= k < 52 ==> !CanonicalDeck()[k].isFaceUp
    ensures forall s: Suit, r: Rank :: CanonicalDeck()[13 * SuitIndex(s) + r - 1] == MakeCard(s, r)
  {
    var d := CanonicalDeck();
    forall s: Suit, r: Rank ensures d[13 * SuitIndex(s) + r - 1] == MakeCard(s, r) {
      var k := 13 * SuitIndex(s) + r - 1;
      assert k / 13 == SuitIndex(s) && k % 13 == r - 1;
      assert RANKS[r - 1] == r;
    }
  }

  /** No identity occurs twice in the built deck. */
  lemma CanonicalDeckDistinct()
    ensures forall i, j :: 0 <= i < j < |CanonicalDeck()| ==> Id(CanonicalDeck()[i]) != Id(CanonicalDeck()[j])
  {
    var d := CanonicalDeck();
    forall i, j | 0 <= i < j < 52 ensures Id(d[i]) != Id(d[j]) {
      SuitIndexOfSuits(i / 13);
      SuitIndexOfSuits(j / 13);
      RankOfRanks(i % 13);
      RankOfRanks(j % 13);
    }
  }

  lemma SuitIndexOfSuits(k: nat)
    requires k < 4
    ensures SuitIndex(SUITS[k]) == k
  {
  }

  lemma RankOfRanks(k: nat)
    requires k < 13
    ensures RANKS[k] == k + 1
  {
  }

  /** In a sequence whose identities are pairwise distinct, an identity
      occurs once if it occurs at all. */
  lemma {:induction false} DistinctIdsCount(s: seq<Card>, c: CardId)
    requires forall i, j :: 0 <= i < j < |s| ==> Id(s[i]) != Id(s[j])
    ensures Ids(s)[c] == if exists k :: 0 <= k < |s| && Id(s[k]) == c then 1 else 0
    decreases |s|
  {
    if |s| > 0 {
      var t := s[..|s| - 1];
      DistinctIdsCount(t, c);
      if exists k :: 0 <= k < |t| && Id(t[k]) == c {
        var k :| 0 <= k < |t| && Id(t[k]) == c;
        assert Id(s[k]) == c;
        assert Id(s[|s| - 1]) != c;
      }
      if Id(s[|s| - 1]) == c {
        assert forall k :: 0 <= k < |t| ==> Id(t[k]) != c by {
          forall k | 0 <= k < |t| ensures Id(t[k]) != c {
            assert t[k] == s[k];
          }
        }
      }
    }
  }

  /** The built deck holds each of the 52 (suit, rank) pairs exactly once. */
  lemma CanonicalDeckEachCardOnce()
    ensures forall c: CardId :: Ids(CanonicalDeck())[c] == 1
  {
    CanonicalDeckDistinct();
    forall c: CardId ensures Ids(CanonicalDeck())[c] == 1 {
      DistinctIdsCount(CanonicalDeck(), c);
      CardInDeck(c);
    }
  }

  /** Where the card with a given identity sits in the built deck. */
  lemma CardInDeck(c: CardId)
    ensures var k := 13 * SuitIndex(c.suit) + c.rank - 1;
      0 <= k < |CanonicalDeck()| && Id(CanonicalDeck()[k]) == c
  {
    var k := 13 * SuitIndex(c.suit) + c.rank - 1;
    assert k / 13 == SuitIndex(c.suit) && k % 13 == c.rank - 1;
    assert RANKS[c.rank - 1] == c.rank;
  }

  /** createDeck: nested loops over the suits and the ranks, appending one
      fresh card per pair. */
  method CreateDeck() returns (deck: seq<Card>)
    ensures deck == CanonicalDeck()
  {
    RanksAscending();
    deck := [];
    for s := 0 to |SUITS|
      invariant deck == CanonicalDeck()[..13 * s]
    {
      for r := 0 to |RANKS|
        invariant deck == CanonicalDeck()[..13 * s + r]
      {
        CanonicalDeckNext(s, r);
        deck := deck + [MakeCard(SUITS[s], RANKS[r])];
      }
    }
  }

  /** The card appended for suit position s and rank position r extends the
      built prefix by one. */
  lemma CanonicalDeckNext(s: nat, r: nat)
    requires s < 4 && r < 13
    ensures CanonicalDeck()[..13 * s + r + 1] == CanonicalDeck()[..13 * s + r] + [MakeCard(SUITS[s], RANKS[r])]
  {
    var k := 13 * s + r;
    assert k / 13 == s && k % 13 == r;
    assert CanonicalDeck()[k] == MakeCard(SUITS[s], RANKS[r]);
    PrefixStep(CanonicalDeck(), k);
  }

  lemma PrefixStep(d: seq<Card>, k: nat)
    requires k < |d|
    ensures d[..k + 1] == d[..k] + [d[k]]
  {
  }

  lemma SliceStep(d: seq<Card>, a: nat, k: nat)
    requires a + k < |d|
    ensures d[a..a + k + 1] == d[a..a + k] + [d[a + k]]
  {
  }

  // ---------------------------------------------------------------------
  // Shuffle
  // ---------------------------------------------------------------------

  /** The random choices of a Fisher-Yates pass over `n` cards: the choice
      made when the loop is at position i is js[i], a number in [0, i]. */
  predicate ValidChoices(js: seq<nat>, n: nat)
  {
    |js| == n && forall i :: 1 <= i < n ==> js[i] <= i
  }

  function Swap(s: seq<Card>, i: nat, j: nat): (r: seq<Card>)
    requires i < |s| && j < |s|
    ensures |r| == |s| && multiset(r) == multiset(s)
  {
    s[i := s[j]][j := s[i]]
  }

  /** The swaps of positions i, i-1, ..., 1 applied to s. */
  function ShuffleFrom(s: seq<Card>, js: seq<nat>, i: int): (r: seq<Card>)
    requires -1 <= i < |s| && ValidChoices(js, |s|)
    ensures |r| == |s| && multiset(r) == multiset(s)
    decreases i
  {
    if i <= 0 then s else ShuffleFrom(Swap(s, i, js[i]), js, i - 1)
  }

  lemma ShuffleStep(s: seq<Card>, js: seq<nat>, i: nat)
    requires 0 < i < |s| && ValidChoices(js, |s|)
    ensures ShuffleFrom(s, js, i) == ShuffleFrom(Swap(s, i, js[i]), js, i - 1)
  {
  }

  /** The whole Fisher-Yates pass, from the last position down to 1. */
  function Shuffled(deck: seq<Card>, js: seq<nat>): (r: seq<Card>)
    requires ValidChoices(js, |deck|)
    ensures |r| == |deck| && multiset(r) == multiset(deck)
  {
    ShuffleFrom(deck, js, |deck| - 1)
  }

  /** shuffle: copy the deck into a fresh array, then swap in place. The
      argument is a value, so the caller's deck is left as it was. */
  method Shuffle(deck: seq<Card>, js: seq<nat>) returns (shuffled: seq<Card>)
    requires ValidChoices(js, |deck|)
    ensures shuffled == Shuffled(deck, js)
    ensures |shuffled| == |deck| && multiset(shuffled) == multiset(deck)
  {
    var newDeck := new Card[|deck|](k requires 0 <= k < |deck| => deck[k]);
    assert newDeck[..] == deck;
    SwapDown(newDeck, js);
    shuffled := newDeck[..];
  }

  /** The swap loop of shuffle: for i from the last index down to 1, swap
      position i with the chosen position js[i]. */
  method SwapDown(a: array<Card>, js: seq<nat>)
    requires ValidChoices(js, a.Length)
    modifies a
    ensures a[..] == ShuffleFrom(old(a[..]), js, a.Length - 1)
  {
    ghost var current := a[..];
    ghost var target := ShuffleFrom(current, js, a.Length - 1);
    var i := a.Length - 1;
    while i > 0
      invariant -1 <= i < a.Length == |current|
      invariant a[..] == current
      invariant ShuffleFrom(current, js, i) == target
    {
      var j := js[i];
      ShuffleStep(current, js, i);
      SwapCells(a, i, j);
      current := Swap(current, i, j);
      i := i - 1;
    }
    assert ShuffleFrom(current, js, i) == current;
  }

  /** `[newDeck[i], newDeck[j]] = [newDeck[j], newDeck[i]]`. */
  method SwapCells(a: array<Card>, i: nat, j: nat)
    requires i < a.Length && j < a.Length
    modifies a
    ensures a[..] == Swap(old(a[..]), i, j)
  {
    a[i], a[j] := a[j], a[i];
  }

  // ---------------------------------------------------------------------
  // Deal
  // ---------------------------------------------------------------------

  /** Number of cards dealt to the tableau piles before pile i: the value of
      the running card index when the deal reaches pile i, which is the
      triangular number i·(i + 1)/2, tabulated here for i = 0 .. 7. */
  function Tri(i: nat): (t: nat)
    requires i <= 7
    ensures i < 7 ==> t + i < 28
    ensures i == 7 ==> t == 28
  {
    [0, 1, 3, 6, 10, 15, 21, 28][i]
  }

  /** The table is the triangular numbers. */
  lemma TriClosedForm(i: nat)
    requires i <= 7
    ensures 2 * Tri(i) == i * (i + 1)
  {
  }

  lemma TriStep(i: nat)
    requires i < 7
    ensures Tri(i + 1) == Tri(i) + i + 1
  {
  }

  /** Tableau pile i as dealt: the i + 1 cards of the deck from position
      Tri(i) on, with the last of them turned face up. */
  function DealtPile(deck: seq<Card>, i: nat): (p: seq<Card>)
    requires i < 7 && |deck| >= 28
    ensures |p| == i + 1
  {
    deck[Tri(i)..Tri(i) + i] + [deck[Tri(i) + i].(isFaceUp := true)]
  }

  const EmptyFoundations: seq<seq<Card>> := [[], [], [], []]

  /** The state initializeGame returns for a given (shuffled) deck. */
  function Dealt(deck: seq<Card>): (g: GameState)
    requires |deck| >= 28
    ensures WellFormed(g)
  {
    GameState(
      deck[28..], [], EmptyFoundations, seq(7, i requires 0 <= i < 7 => DealtPile(deck, i)),
      0, 0, false)
  }

  /** The triangular layout: pile i holds the deck's cards Tri(i) .. Tri(i) + i
      in deck order, only the last of them turned over; the stock is the
      rest of the deck; everything else is empty and the counters are zero. */
  lemma DealtLayout(deck: seq<Card>)
    requires |deck| >= 28
    ensures var g := Dealt(deck);
      && (forall i :: 0 <= i < 7 ==> |g.tableau[i]| == i + 1)
      && (forall i :: 0 <= i < 7 ==> g.tableau[i][i] == deck[Tri(i) + i].(isFaceUp := true))
      && (forall i, j :: 0 <= j < i < 7 ==> g.tableau[i][j] == deck[Tri(i) + j])
      && g.stock == deck[28..] && g.waste == []
      && (forall f :: 0 <= f < 4 ==> g.foundation[f] == [])
      && g.score == 0 && g.moves == 0 && !g.won
  {
  }

  /** The tableau piles together hold the first 28 cards of the deck. */
  lemma DealtPileIds(deck: seq<Card>, i: nat)
    requires |deck| >= 28 && i < 7
    ensures Tri(i) + i + 1 == Tri(i + 1)
    ensures Ids(DealtPile(deck, i)) == Ids(deck[Tri(i)..Tri(i + 1)])
  {
    TriStep(i);
    var a := Tri(i);
    var seg := deck[a..a + i + 1];
    assert DealtPile(deck, i) == seg[i := seg[i].(isFaceUp := true)];
    IdsFlip(seg, i, true);
  }

  lemma {:induction false} DealtTableauIds(deck: seq<Card>, m: nat)
    requires |deck| >= 28 && m <= 7
    ensures PilesIds(Dealt(deck).tableau[..m]) == Ids(deck[..Tri(m)])
    decreases m
  {
    if m > 0 {
      var t := Dealt(deck).tableau;
      DealtTableauIds(deck, m - 1);
      PilesIdsLast(t, m);
      DealtPileIds(deck, m - 1);
      IdsPrefixSplit(deck, Tri(m - 1), Tri(m));
    }
  }

  /** Dealing neither adds nor loses a card. */
  lemma DealtConservesCards(deck: seq<Card>)
    requires |deck| >= 28
    ensures TotalIds(Dealt(deck)) == Ids(deck)
  {
    var g := Dealt(deck);
    DealtTableauAll(deck);
    EmptyFoundationsIds();
    IdsSplit(deck, 28);
    assert Ids(g.waste) == multiset{};
  }

  lemma DealtTableauAll(deck: seq<Card>)
    requires |deck| >= 28
    ensures PilesIds(Dealt(deck).tableau) == Ids(deck[..28])
  {
    DealtTableauIds(deck, 7);
    assert Dealt(deck).tableau[..7] == Dealt(deck).tableau;
  }

  lemma EmptyFoundationsIds()
    ensures PilesIds(EmptyFoundations) == multiset{}
  {
    PilesIdsEmpty(EmptyFoundations);
  }

  /** Every card of a shuffled built deck is face down. */
  lemma ShuffledFaceDown(js: seq<nat>)
    requires ValidChoices(js, 52)
    ensures |Shuffled(CanonicalDeck(), js)| == 52
    ensures forall k :: 0 <= k < 52 ==> !Shuffled(CanonicalDeck(), js)[k].isFaceUp
  {
    CanonicalDeckOrder();
    var c := CanonicalDeck();
    var d := Shuffled(c, js);
    forall k | 0 <= k < 52 ensures !d[k].isFaceUp {
      assert d[k] in multiset(c) by { assert d[k] in multiset(d); }
    }
  }

  /** What a new game looks like: each of the 52 cards exactly once over the
      tableau and the stock, 24 face-down cards in the stock, and in every
      tableau pile only the last card face up. */
  lemma InitialDeal(js: seq<nat>)
    requires ValidChoices(js, 52)
    ensures var g := Dealt(Shuffled(CanonicalDeck(), js));
      && TotalIds(g) == Ids(CanonicalDeck())
      && (forall c: CardId :: TotalIds(g)[c] == 1)
      && Ids(g.stock) + PilesIds(g.tableau) == TotalIds(g)
      && |g.stock| == 24
      && (forall k :: 0 <= k < |g.stock| ==> !g.stock[k].isFaceUp)
      && (forall i, j :: 0 <= j < i < 7 ==> !g.tableau[i][j].isFaceUp)
      && (forall i :: 0 <= i < 7 ==> g.tableau[i][i].isFaceUp)
  {
    InitialDealCards(js);
    InitialDealFaces(js);
  }

  lemma InitialDealCards(js: seq<nat>)
    requires ValidChoices(js, 52)
    ensures var g := Dealt(Shuffled(CanonicalDeck(), js));
      && TotalIds(g) == Ids(CanonicalDeck())
      && (forall c: CardId :: TotalIds(g)[c] == 1)
      && Ids(g.stock) + PilesIds(g.tableau) == TotalIds(g)
  {
    var c := CanonicalDeck();
    var d := Shuffled(c, js);
    var g := Dealt(d);
    DealtConservesCards(d);
    IdsOfPermutation(d, c);
    CanonicalDeckEachCardOnce();
    EmptyFoundationsIds();
    assert Ids(g.waste) == multiset{};
  }

  lemma InitialDealFaces(js: seq<nat>)
    requires ValidChoices(js, 52)
    ensures var g := Dealt(Shuffled(CanonicalDeck(), js));
      && |g.stock| == 24
      && (forall k :: 0 <= k < |g.stock| ==> !g.stock[k].isFaceUp)
      && (forall i, j :: 0 <= j < i < 7 ==> !g.tableau[i][j].isFaceUp)
      && (forall i :: 0 <= i < 7 ==> g.tableau[i][i].isFaceUp)
  {
    var d := Shuffled(CanonicalDeck(), js);
    ShuffledFaceDown(js);
    DealtLayout(d);
  }

  /** initializeGame: shuffle a fresh deck, deal it into the seven tableau
      piles (pile i gets i + 1 cards, the last one turned up), and leave the
      rest as the stock. The random choices are a parameter. */
  method InitializeGame(js: seq<nat>) returns (g: GameState)
    requires ValidChoices(js, 52)
    ensures g == Dealt(Shuffled(CanonicalDeck(), js))
  {
    CanonicalDeckOrder();
    var deck := CreateDeck();
    deck := Shuffle(deck, js);
    g := Deal(deck);
  }

  /** The deal loop of initializeGame: a running card index walks the deck;
      the card dealt last to each pile is turned face up. */
  method Deal(deck: seq<Card>) returns (g: GameState)
    requires |deck| == 52
    ensures g == Dealt(deck)
  {
    var tableau: seq<seq<Card>> := [[], [], [], [], [], [], []];
    var currentCardIndex := 0;
    for i := 0 to 7
      invariant currentCardIndex == Tri(i)
      invariant |tableau| == 7
      invariant forall p :: 0 <= p < i ==> tableau[p] == DealtPile(deck, p)
      invariant forall p :: i <= p < 7 ==> tableau[p] == []
    {
      TriStep(i);
      ghost var start := Tri(i);
      ghost var before := tableau;
      for j := 0 to i + 1
        invariant currentCardIndex == start + j
        invariant |tableau| == 7
        invariant j <= i ==> tableau[i] == deck[start..start + j]
        invariant j == i + 1 ==> tableau[i] == DealtPile(deck, i)
        invariant forall p :: 0 <= p < 7 && p != i ==> tableau[p] == before[p]
      {
        var card := deck[currentCardIndex];
        currentCardIndex := currentCardIndex + 1;
        if j == i {
          card := card.(isFaceUp := true);
        }
        if j < i {
          SliceStep(deck, start, j);
        }
        tableau := tableau[i := tableau[i] + [card]];
      }
      assert forall p :: 0 <= p < i ==> tableau[p] == DealtPile(deck, p);
      assert forall p :: i < p < 7 ==> tableau[p] == [];
    }
    var stock := deck[currentCardIndex..];
    DealtTableauIs(deck, tableau);
    g := GameState(stock, [], EmptyFoundations, tableau, 0, 0, false);
  }

  lemma DealtTableauIs(deck: seq<Card>, t: seq<seq<Card>>)
    requires |deck| >= 28 && |t| == 7
    requires forall p :: 0 <= p < 7 ==> t[p] == DealtPile(deck, p)
    ensures t == Dealt(deck).tableau
  {
  }

  // ---------------------------------------------------------------------
  // Legality rules and the win check
  // ---------------------------------------------------------------------

  /** Hearts and diamonds are red; clubs and spades are black. */
  predicate IsRed(s: Suit)
  {
    s == Hearts || s == Diamonds
  }

  /** isOppositeColor: one red suit and one black suit. */
  function IsOppositeColor(suit1: Suit, suit2: Suit): (r: bool)
    ensures r <==> IsRed(suit1) != IsRed(suit2)
  {
    var red := [Hearts, Diamonds];
    var black := [Clubs, Spades];
    (suit1 in red && suit2 in black) || (suit1 in black && suit2 in red)
  }

  /** canMoveToTableau: a King onto an empty pile, otherwise a card of the
      other colour one rank below the top card. */
  function CanMoveToTableau(card: Card, targetPile: seq<Card>): (r: bool)
    ensures |targetPile| == 0 ==> (r <==> card.rank == King)
    ensures |targetPile| > 0 ==>
      (r <==> IsRed(card.suit) != IsRed(targetPile[|targetPile| - 1].suit)
              && card.rank + 1 == targetPile[|targetPile| - 1].rank)
  {
    if |targetPile| == 0 then card.rank == King
    else
      var topCard := targetPile[|targetPile| - 1];
      IsOppositeColor(card.suit, topCard.suit) && card.rank == topCard.rank - 1
  }

  /** canMoveToFoundation: an Ace onto an empty pile, otherwise a card of the
      same suit one rank above the top card. */
  function CanMoveToFoundation(card: Card, targetPile: seq<Card>): (r: bool)
    ensures |targetPile| == 0 ==> (r <==> card.rank == Ace)
    ensures |targetPile| > 0 ==>
      (r <==> card.suit == targetPile[|targetPile| - 1].suit
              && card.rank == targetPile[|targetPile| - 1].rank + 1)
  {
    if |targetPile| == 0 then card.rank == Ace
    else
      var topCard := targetPile[|targetPile| - 1];
      card.suit == topCard.suit && card.rank == topCard.rank + 1
  }

  /** checkWin: every foundation pile holds thirteen cards. */
  function CheckWin(foundation: seq<seq<Card>>): (r: bool)
    ensures r <==> forall i :: 0 <= i < |foundation| ==> |foundation[i]| == 13
  {
    forall i :: 0 <= i < |foundation| ==> |foundation[i]| == 13
  }

  /** The board a deal starts from is not a win. */
  lemma EmptyFoundationsNotWon(deck: seq<Card>)
    requires |deck| >= 28
    ensures !CheckWin(Dealt(deck).foundation)
  {
    assert |Dealt(deck).foundation[0]| == 0;
  }
}
