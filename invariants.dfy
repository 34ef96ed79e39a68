/** The structure every reachable game state has: the 52 cards each exactly
    once, a face-down stock, a face-up waste, foundations built up by suit
    from the ace, tableau piles made of face-down cards under one face-up
    run of alternating colours and descending ranks; and a full set of
    foundations only in a won game. The deal establishes it and every
    transition keeps it. */
module Invariants {
  import opened Types
  import opened Piles
  import opened GameLogic
  import opened Transitions

  // ---------------------------------------------------------------------
  // Pile shapes
  // ---------------------------------------------------------------------

  predicate AllFaceDown(s: seq<Card>)
  {
    forall k :: 0 <= k < |s| ==> !s[k].isFaceUp
  }

  predicate AllFaceUp(s: seq<Card>)
  {
    forall k :: 0 <= k < |s| ==> s[k].isFaceUp
  }

  /** A sequence the tableau rules let one build: face up, each card of the
      other colour and one rank below the card under it. */
  predicate IsRun(s: seq<Card>)
  {
    && AllFaceUp(s)
    && forall k :: 1 <= k < |s| ==> IsRed(s[k - 1].suit) != IsRed(s[k].suit) && s[k].rank + 1 == s[k - 1].rank
  }

  /** A tableau pile: face-down cards under a face-up run that reaches the
      top. */
  predicate TableauPileOk(p: seq<Card>)
  {
    |p| == 0 || (FindFaceUp(p) >= 0 && IsRun(p[FindFaceUp(p)..]))
  }

  /** A foundation pile: ace, two, three, ... of one suit, face up. */
  predicate FoundationPileOk(p: seq<Card>)
  {
    forall j :: 0 <= j < |p| ==> p[j].rank == j + 1 && p[j].suit == p[0].suit && p[j].isFaceUp
  }

  /** The shape the pile at a location must have. */
  predicate PileOk(loc: Location, p: seq<Card>)
  {
    match loc.pileType
    case Stock => AllFaceDown(p)
    case Waste => AllFaceUp(p)
    case Foundation => FoundationPileOk(p)
    case Tableau => TableauPileOk(p)
  }

  ghost predicate PilesOk(g: GameState)
    requires WellFormed(g)
  {
    forall loc :: ValidLocation(loc) ==> PileOk(loc, Pile(g, loc))
  }

  /** The invariant of the game. */
  ghost predicate Invariant(g: GameState)
  {
    && WellFormed(g)
    && TotalIds(g) == Ids(CanonicalDeck())
    && PilesOk(g)
    && (CheckWin(g.foundation) ==> g.won)
  }

  /** PilesOk spelled out pile by pile. */
  lemma PilesOkMeans(g: GameState)
    requires WellFormed(g)
    ensures PilesOk(g) <==>
      && AllFaceDown(g.stock) && AllFaceUp(g.waste)
      && (forall f :: 0 <= f < 4 ==> FoundationPileOk(g.foundation[f]))
      && (forall t :: 0 <= t < 7 ==> TableauPileOk(g.tableau[t]))
  {
    if AllFaceDown(g.stock) && AllFaceUp(g.waste)
      && (forall f :: 0 <= f < 4 ==> FoundationPileOk(g.foundation[f]))
      && (forall t :: 0 <= t < 7 ==> TableauPileOk(g.tableau[t]))
    {
      PilesOkIntro(g);
    }
    if PilesOk(g) {
      PilesOkElim(g);
    }
  }

  lemma PilesOkIntro(g: GameState)
    requires WellFormed(g)
    requires AllFaceDown(g.stock) && AllFaceUp(g.waste)
    requires forall f :: 0 <= f < 4 ==> FoundationPileOk(g.foundation[f])
    requires forall t :: 0 <= t < 7 ==> TableauPileOk(g.tableau[t])
    ensures PilesOk(g)
  {
    forall loc | ValidLocation(loc) ensures PileOk(loc, Pile(g, loc)) {
    }
  }

  lemma PilesOkElim(g: GameState)
    requires WellFormed(g) && PilesOk(g)
    ensures AllFaceDown(g.stock) && AllFaceUp(g.waste)
    ensures forall f :: 0 <= f < 4 ==> FoundationPileOk(g.foundation[f])
    ensures forall t :: 0 <= t < 7 ==> TableauPileOk(g.tableau[t])
  {
    assert PileOk(Location(Stock, 0), Pile(g, Location(Stock, 0)));
    assert PileOk(Location(Waste, 0), Pile(g, Location(Waste, 0)));
    forall f | 0 <= f < 4 ensures FoundationPileOk(g.foundation[f]) {
      assert PileOk(Location(Foundation, f), Pile(g, Location(Foundation, f)));
    }
    forall t | 0 <= t < 7 ensures TableauPileOk(g.tableau[t]) {
      assert PileOk(Location(Tableau, t), Pile(g, Location(Tableau, t)));
    }
  }

  // ---------------------------------------------------------------------
  // Facts about runs and piles
  // ---------------------------------------------------------------------

  /** The ranks of a run fall by one per card. */
  lemma {:induction false} RunRanks(s: seq<Card>)
    requires IsRun(s) && |s| > 0
    ensures s[0].rank == s[|s| - 1].rank + |s| - 1
    decreases |s|
  {
    if |s| > 1 {
      RunRanks(s[1..]);
      assert s[1..][0] == s[1] && s[1..][|s| - 2] == s[|s| - 1];
    }
  }

  /** A foundation holds at most the thirteen ranks. */
  lemma FoundationAtMost13(p: seq<Card>)
    requires FoundationPileOk(p)
    ensures |p| <= 13
  {
    if |p| > 0 {
      assert p[|p| - 1].rank == |p|;
    }
  }

  /** The top card of a well-shaped tableau pile is face up. */
  lemma TableauTopFaceUp(p: seq<Card>)
    requires TableauPileOk(p) && |p| > 0
    ensures FindFaceUp(p) >= 0 && p[|p| - 1].isFaceUp
  {
    var k := FindFaceUp(p);
    assert p[k..][|p| - 1 - k] == p[|p| - 1];
  }

  /** Joining two runs where the colours alternate and the rank falls by one
      gives a run. */
  lemma RunConcat(a: seq<Card>, b: seq<Card>)
    requires IsRun(a) && IsRun(b)
    requires |a| > 0 && |b| > 0 ==>
      IsRed(a[|a| - 1].suit) != IsRed(b[0].suit) && b[0].rank + 1 == a[|a| - 1].rank
    ensures IsRun(a + b)
  {
    var c := a + b;
    forall k | 1 <= k < |c|
      ensures IsRed(c[k - 1].suit) != IsRed(c[k].suit) && c[k].rank + 1 == c[k - 1].rank
    {
      if k < |a| {
        assert c[k - 1] == a[k - 1] && c[k] == a[k];
      } else if k == |a| {
        assert c[k - 1] == a[|a| - 1] && c[k] == b[0];
      } else {
        assert c[k - 1] == b[k - 1 - |a|] && c[k] == b[k - |a|];
      }
    }
  }

  /** Appending to a pile that already has a face-up card does not move its
      first face-up position. */
  lemma FindFaceUpAppend(a: seq<Card>, b: seq<Card>)
    requires FindFaceUp(a) >= 0
    ensures FindFaceUp(a + b) == FindFaceUp(a)
  {
    var k := FindFaceUp(a);
    var j := FindFaceUp(a + b);
    assert (a + b)[k] == a[k];
    assert j <= k;
    assert (a + b)[j] == a[j];
  }

  // ---------------------------------------------------------------------
  // The deal
  // ---------------------------------------------------------------------

  /** A dealt pile: i face-down cards under one face-up card. */
  lemma DealtPileOk(p: seq<Card>, i: nat)
    requires |p| == i + 1
    requires forall j :: 0 <= j < i ==> !p[j].isFaceUp
    requires p[i].isFaceUp
    ensures TableauPileOk(p)
  {
    assert FindFaceUp(p) == i;
    assert p[i..] == [p[i]];
  }

  /** A new game satisfies the invariant. */
  lemma DealEstablishes(js: seq<nat>)
    requires ValidChoices(js, 52)
    ensures Invariant(Dealt(Shuffled(CanonicalDeck(), js)))
  {
    var d := Shuffled(CanonicalDeck(), js);
    var g := Dealt(d);
    InitialDealCards(js);
    InitialDealFaces(js);
    DealtLayout(d);
    EmptyFoundationsNotWon(d);
    forall t | 0 <= t < 7 ensures TableauPileOk(g.tableau[t]) {
      DealtPileOk(g.tableau[t], t);
    }
    PilesOkIntro(g);
  }

  // ---------------------------------------------------------------------
  // The stock
  // ---------------------------------------------------------------------

  /** A stock click keeps the invariant. */
  lemma StockClickPreserves(g: GameState)
    requires Invariant(g)
    ensures Invariant(StockClicked(g))
  {
    if |g.stock| == 0 {
      RecyclePreserves(g);
    } else {
      DrawPreserves(g);
    }
  }

  /** Turning the waste over onto an empty stock keeps the invariant. */
  lemma RecyclePreserves(g: GameState)
    requires Invariant(g) && |g.stock| == 0
    ensures Invariant(StockClicked(g))
  {
    var r := StockClicked(g);
    assert r.stock == Recycled(g.waste) && r.waste == [] && r.won == g.won;
    StockClickConservesCards(g);
    PilesOkElim(g);
    RecycledFaceDown(g.waste);
    PilesOkIntro(r);
  }

  /** Drawing the top of a non-empty stock onto the waste keeps the
      invariant. */
  lemma DrawPreserves(g: GameState)
    requires Invariant(g) && |g.stock| > 0
    ensures Invariant(StockClicked(g))
  {
    var r := StockClicked(g);
    var n := |g.stock| - 1;
    assert r.stock == g.stock[..n] && r.waste == g.waste + [g.stock[n].(isFaceUp := true)] && r.won == g.won;
    StockClickConservesCards(g);
    PilesOkElim(g);
    DrawnFaces(g.stock, g.waste);
    PilesOkIntro(r);
  }

  lemma RecycledFaceDown(w: seq<Card>)
    ensures AllFaceDown(Recycled(w))
  {
  }

  lemma DrawnFaces(stock: seq<Card>, waste: seq<Card>)
    requires |stock| > 0 && AllFaceDown(stock) && AllFaceUp(waste)
    ensures AllFaceDown(stock[..|stock| - 1])
    ensures AllFaceUp(waste + [stock[|stock| - 1].(isFaceUp := true)])
  {
  }

  // ---------------------------------------------------------------------
  // Moves
  // ---------------------------------------------------------------------

  /** Under the invariant a non-empty tableau pile has a face-up card, so
      findIndex never answers -1 and the run moved is the pile's face-up
      run; from the waste or a foundation it is the top card, face up. */
  lemma CardsAreRun(g: GameState, from: Location)
    requires Invariant(g) && ValidLocation(from) && |SourcePile(g, from)| > 0
    ensures IsRun(CardsToMove(g, from))
    ensures from.pileType == Tableau ==>
      FindFaceUp(Pile(g, from)) >= 0 && CardsToMove(g, from) == Pile(g, from)[FindFaceUp(Pile(g, from))..]
  {
    var p := SourcePile(g, from);
    assert PileOk(from, Pile(g, from));
    if from.pileType == Tableau {
      TableauTopFaceUp(p);
      CutOfTableau(p);
    } else {
      assert CardsToMove(g, from) == [p[|p| - 1]];
    }
  }

  /** Under the invariant a run can go neither onto its own pile nor onto its
      own foundation. */
  lemma LegalDistinct(g: GameState, from: Location, to: Location)
    requires Invariant(g) && ValidLocation(from) && ValidLocation(to)
    ensures Legal(g, from, to) ==> from.pileType != to.pileType || from.index != to.index
  {
    LegalCases(g, from, to);
    if from.pileType == Tableau && to.pileType == Tableau && from.index == to.index && |Pile(g, from)| > 0 {
      var p := Pile(g, from);
      var cards := CardsToMove(g, from);
      CardsAreRun(g, from);
      RunOntoItself(p, FindFaceUp(p));
    }
  }

  /** The face-up run of a pile never fits onto the pile's own top. */
  lemma RunOntoItself(p: seq<Card>, k: nat)
    requires k < |p| && IsRun(p[k..])
    ensures !CanMoveToTableau(p[k..][0], p)
  {
    var run := p[k..];
    RunRanks(run);
    assert run[|run| - 1] == p[|p| - 1];
  }

  /** What a move leaves at its source keeps the source's shape. */
  lemma RestOk(g: GameState, from: Location)
    requires Invariant(g) && ValidLocation(from) && |SourcePile(g, from)| > 0
    ensures PileOk(from, Rest(g, from))
  {
    var p := SourcePile(g, from);
    assert PileOk(from, Pile(g, from));
    var c := Cut(p, from.pileType == Tableau);
    if from.pileType == Tableau {
      TableauTopFaceUp(p);
      CutOfTableau(p);
      TableauRestOk(p);
      assert Rest(g, from) == TopTurnedUp(p[..c]);
    } else {
      assert Rest(g, from) == p[..c];
      if from.pileType == Waste {
        FaceUpPrefix(p, c);
      } else {
        FoundationPrefix(p, c);
      }
    }
  }

  lemma FaceUpPrefix(p: seq<Card>, c: nat)
    requires AllFaceUp(p) && c <= |p|
    ensures AllFaceUp(p[..c])
  {
  }

  lemma FoundationPrefix(p: seq<Card>, c: nat)
    requires FoundationPileOk(p) && c <= |p|
    ensures FoundationPileOk(p[..c])
  {
  }

  /** Taking the face-up run off a tableau pile and turning the new top over
      leaves a well-shaped pile. */
  lemma TableauRestOk(p: seq<Card>)
    requires TableauPileOk(p) && |p| > 0
    ensures FindFaceUp(p) >= 0 && TableauPileOk(TopTurnedUp(p[..FindFaceUp(p)]))
  {
    TableauTopFaceUp(p);
    var k := FindFaceUp(p);
    var rest := TopTurnedUp(p[..k]);
    if k > 0 {
      DealtPileOk(rest, k - 1);
    }
  }

  /** Putting a run on a tableau pile whose top accepts its first card keeps
      the pile well shaped. */
  lemma TableauDestOk(d: seq<Card>, cards: seq<Card>)
    requires TableauPileOk(d) && IsRun(cards) && |cards| > 0 && CanMoveToTableau(cards[0], d)
    ensures TableauPileOk(d + cards)
  {
    if |d| == 0 {
      assert d + cards == cards;
      assert FindFaceUp(cards) == 0 && cards[0..] == cards;
    } else {
      var k := FindFaceUp(d);
      TableauTopFaceUp(d);
      FindFaceUpAppend(d, cards);
      SuffixFacts(d, cards, k);
      RunConcat(d[k..], cards);
    }
  }

  lemma SuffixFacts(d: seq<Card>, cards: seq<Card>, k: nat)
    requires k < |d|
    ensures (d + cards)[k..] == d[k..] + cards
    ensures d[k..][|d| - k - 1] == d[|d| - 1]
  {
  }

  /** Putting the next card of the suit on a foundation keeps it well
      shaped. */
  lemma FoundationDestOk(d: seq<Card>, c: Card)
    requires FoundationPileOk(d) && c.isFaceUp && CanMoveToFoundation(c, d)
    ensures FoundationPileOk(d + [c])
  {
    var f := d + [c];
    forall j | 0 <= j < |f| ensures f[j].rank == j + 1 && f[j].suit == f[0].suit && f[j].isFaceUp {
      if j < |d| {
        assert f[j] == d[j];
      } else {
        assert f[j] == c;
      }
    }
  }

  /** A face-up card is accepted by a well-shaped foundation exactly when
      the foundation is still well shaped with the card on top. */
  lemma FoundationAccepts(c: Card, d: seq<Card>)
    requires FoundationPileOk(d) && c.isFaceUp
    ensures CanMoveToFoundation(c, d) <==> FoundationPileOk(d + [c])
  {
    if CanMoveToFoundation(c, d) {
      FoundationDestOk(d, c);
    }
    var f := d + [c];
    if FoundationPileOk(f) {
      assert f[|d|] == c;
      if |d| > 0 {
        assert f[|d| - 1] == d[|d| - 1] && f[0] == d[0];
      }
    }
  }

  /** A run is accepted by a non-empty well-shaped tableau pile exactly when
      the pile is still well shaped with the run on top. An empty pile stays
      well shaped whatever run it gets, so there the King rule is a rule of
      its own. */
  lemma TableauAccepts(d: seq<Card>, cards: seq<Card>)
    requires TableauPileOk(d) && IsRun(cards) && |cards| > 0
    ensures |d| > 0 ==> (CanMoveToTableau(cards[0], d) <==> TableauPileOk(d + cards))
    ensures |d| == 0 ==> TableauPileOk(d + cards)
    ensures |d| == 0 ==> (CanMoveToTableau(cards[0], d) <==> cards[0].rank == King)
  {
    if |d| == 0 {
      assert d + cards == cards;
      assert FindFaceUp(cards) == 0 && cards[0..] == cards;
    } else {
      if CanMoveToTableau(cards[0], d) {
        TableauDestOk(d, cards);
      }
      if TableauPileOk(d + cards) {
        TableauJoin(d, cards);
      }
    }
  }

  /** A run sitting well shaped on a non-empty pile is one the pile accepts. */
  lemma TableauJoin(d: seq<Card>, cards: seq<Card>)
    requires TableauPileOk(d) && |d| > 0 && |cards| > 0 && TableauPileOk(d + cards)
    ensures CanMoveToTableau(cards[0], d)
  {
    var k := FindFaceUp(d);
    TableauTopFaceUp(d);
    FindFaceUpAppend(d, cards);
    SuffixFacts(d, cards, k);
    RunJoint(d[k..], cards);
  }

  /** Where two sequences meet inside a run, the colours alternate and the
      rank drops by one. */
  lemma RunJoint(a: seq<Card>, b: seq<Card>)
    requires IsRun(a + b) && |a| > 0 && |b| > 0
    ensures IsRed(a[|a| - 1].suit) != IsRed(b[0].suit) && b[0].rank + 1 == a[|a| - 1].rank
  {
    assert (a + b)[|a|] == b[0] && (a + b)[|a| - 1] == a[|a| - 1];
  }

  /** A well-shaped foundation is complete exactly when a King is on top. */
  lemma FoundationFull(p: seq<Card>)
    requires FoundationPileOk(p)
    ensures |p| == 13 <==> |p| > 0 && p[|p| - 1].rank == King
  {
    FoundationAtMost13(p);
  }

  /** In a reachable state the foundations are complete exactly when every
      one of them has a King on top. */
  lemma CheckWinKings(g: GameState)
    requires Invariant(g)
    ensures CheckWin(g.foundation) <==>
      forall f :: 0 <= f < 4 ==> |g.foundation[f]| > 0 && g.foundation[f][|g.foundation[f]| - 1].rank == King
  {
    PilesOkElim(g);
    forall f | 0 <= f < 4
      ensures |g.foundation[f]| == 13 <==> |g.foundation[f]| > 0 && g.foundation[f][|g.foundation[f]| - 1].rank == King
    {
      FoundationFull(g.foundation[f]);
    }
  }

  /** In a reachable state the foundations are complete exactly when they
      hold all 52 cards of the deck. */
  lemma CheckWinAllCards(g: GameState)
    requires Invariant(g)
    ensures CheckWin(g.foundation) <==> PilesIds(g.foundation) == Ids(CanonicalDeck())
  {
    var fs := g.foundation;
    PilesOkElim(g);
    var rest := Ids(g.stock) + Ids(g.waste) + PilesIds(g.tableau);
    assert PilesIds(fs) + rest == Ids(CanonicalDeck());
    IdsSize(CanonicalDeck());
    forall f | 0 <= f < 4 ensures |fs[f]| <= 13 {
      FoundationAtMost13(fs[f]);
    }
    FoundationsFull(fs, rest, Ids(CanonicalDeck()));
  }

  /** Four piles of at most 13 cards that, with some other cards, make up a
      52-card deck are all full exactly when they alone make it up. */
  lemma FoundationsFull(fs: seq<seq<Card>>, rest: multiset<CardId>, deck: multiset<CardId>)
    requires |fs| == 4 && forall f :: 0 <= f < 4 ==> |fs[f]| <= 13
    requires PilesIds(fs) + rest == deck && |deck| == 52
    ensures CheckWin(fs) <==> PilesIds(fs) == deck
  {
    PilesIdsFourSize(fs);
    assert |fs[0]| <= 13 && |fs[1]| <= 13 && |fs[2]| <= 13 && |fs[3]| <= 13;
    if CheckWin(fs) {
      assert |fs[0]| == 13 && |fs[1]| == 13 && |fs[2]| == 13 && |fs[3]| == 13;
      assert |rest| == 0;
    }
  }

  /** What a move builds at its destination keeps the destination's shape. */
  lemma DestOk(g: GameState, from: Location, to: Location)
    requires Invariant(g) && ValidLocation(from) && ValidLocation(to) && Legal(g, from, to)
    ensures PileOk(to, Pile(g, to) + CardsToMove(g, from))
  {
    var cards := CardsToMove(g, from);
    assert PileOk(to, Pile(g, to));
    CardsAreRun(g, from);
    LegalCases(g, from, to);
    if to.pileType == Tableau {
      TableauDestOk(Pile(g, to), cards);
    } else {
      assert cards == [cards[0]];
      FoundationDestOk(Pile(g, to), cards[0]);
    }
  }

  /** Two locations naming the same pile. */
  predicate SamePile(a: Location, b: Location)
  {
    a.pileType == b.pileType && (a.pileType == Tableau || a.pileType == Foundation ==> a.index == b.index)
  }

  /** A legal move keeps the invariant. */
  lemma MovePreserves(g: GameState, from: Location, to: Location)
    requires Invariant(g) && ValidLocation(from) && ValidLocation(to) && Legal(g, from, to)
    ensures Invariant(Moved(g, from, to))
  {
    var r := Moved(g, from, to);
    MovedCounters(g, from, to);
    MovedConservesCards(g, from, to);
    forall loc | ValidLocation(loc) ensures PileOk(loc, Pile(r, loc)) {
      MovedPileOk(g, from, to, loc);
    }
  }

  /** After a legal move every pile still has its shape: the source and the
      destination by RestOk and DestOk, the others because they are as they
      were. */
  lemma MovedPileOk(g: GameState, from: Location, to: Location, loc: Location)
    requires Invariant(g) && ValidLocation(from) && ValidLocation(to) && Legal(g, from, to)
    requires ValidLocation(loc)
    ensures PileOk(loc, Pile(Moved(g, from, to), loc))
  {
    var r := Moved(g, from, to);
    LegalDistinct(g, from, to);
    LegalCases(g, from, to);
    MovedPiles(g, from, to);
    if SamePile(loc, from) {
      RestOk(g, from);
      assert Pile(r, loc) == Pile(r, from);
    } else if SamePile(loc, to) {
      DestOk(g, from, to);
      assert Pile(r, loc) == Pile(r, to);
    } else {
      MovedCounters(g, from, to);
      assert PileOk(loc, Pile(g, loc));
    }
  }

  // ---------------------------------------------------------------------
  // Reveal
  // ---------------------------------------------------------------------

  /** Under the invariant a tableau top is never face down, so the reveal a
      click performs changes nothing. */
  lemma RevealInert(g: GameState, index: nat)
    requires Invariant(g) && index < 7 && |g.tableau[index]| > 0
    ensures g.tableau[index][|g.tableau[index]| - 1].isFaceUp
    ensures Revealed(g, index) == g
  {
    TableauOkAt(g, index);
    TableauTopFaceUp(g.tableau[index]);
    RevealFaceUp(g, index);
  }

  lemma RevealFaceUp(g: GameState, index: nat)
    requires WellFormed(g) && index < 7 && |g.tableau[index]| > 0
    requires g.tableau[index][|g.tableau[index]| - 1].isFaceUp
    ensures Revealed(g, index) == g
  {
    var p := g.tableau[index];
    TurnUpFaceUp(p);
    assert g.tableau[index := p] == g.tableau;
  }

  lemma TableauOkAt(g: GameState, index: nat)
    requires WellFormed(g) && PilesOk(g) && index < 7
    ensures TableauPileOk(g.tableau[index])
  {
    assert PileOk(Location(Tableau, index), Pile(g, Location(Tableau, index)));
  }

  lemma TurnUpFaceUp(p: seq<Card>)
    requires |p| > 0 && p[|p| - 1].isFaceUp
    ensures p[|p| - 1 := p[|p| - 1].(isFaceUp := true)] == p
  {
  }

  /** The reveal keeps the invariant. */
  lemma RevealPreserves(g: GameState, index: nat)
    requires Invariant(g) && index < 7 && |g.tableau[index]| > 0
    ensures Invariant(Revealed(g, index))
  {
    RevealInert(g, index);
  }
}
