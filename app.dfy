/** The event handlers of the game screen: the stock click, the move between
    two piles, the click and double-click on a pile, the statistics update
    on a win, the new-game reset and the clock display. The screen's state
    is one record; each handler takes it and returns the new one. */
module App {
  import opened Types
  import opened Numerals
  import opened GameLogic
  import opened Transitions
  import opened Invariants

  /** The state the handlers read and write: the game, the statistics, the
      selected pile and the seconds on the clock. */
  datatype AppState = AppState(game: GameState, stats: GameStats, selectedLocation: Option<Location>, timer: nat)

  /** The invariant of the screen: the game invariant, and a selection, when
      there is one, names a non-empty pile other than the stock. */
  ghost predicate AppInvariant(app: AppState)
  {
    && Invariant(app.game)
    && (app.selectedLocation.Some? ==>
          var sel := app.selectedLocation.value;
          ValidLocation(sel) && sel.pileType != Stock && |Pile(app.game, sel)| > 0)
  }

  // ---------------------------------------------------------------------
  // Statistics
  // ---------------------------------------------------------------------

  const DefaultStats := GameStats(0, 0, None, None, 0, 0)

  /** updateStatsOnWin: one more win; the best time and the best move count
      become the smaller of the old value and this game's (this game's when
      there is none yet); the longest time the larger; the move total grows
      by this game's moves. */
  function StatsOnWin(prev: GameStats, finalMoves: nat, finalTime: nat): (r: GameStats)
    ensures r.gamesStarted == prev.gamesStarted && r.gamesWon == prev.gamesWon + 1
    ensures r.bestTime.Some? && r.bestTime.value <= finalTime
    ensures prev.bestTime.Some? ==> r.bestTime.value <= prev.bestTime.value
    ensures r.bestTime == Some(finalTime) || r.bestTime == prev.bestTime
    ensures r.bestMoves.Some? && r.bestMoves.value <= finalMoves
    ensures prev.bestMoves.Some? ==> r.bestMoves.value <= prev.bestMoves.value
    ensures r.bestMoves == Some(finalMoves) || r.bestMoves == prev.bestMoves
    ensures r.longestGameTime >= prev.longestGameTime && r.longestGameTime >= finalTime
    ensures r.longestGameTime == finalTime || r.longestGameTime == prev.longestGameTime
    ensures r.totalMovesInWonGames == prev.totalMovesInWonGames + finalMoves
  {
    prev.(
      gamesWon := prev.gamesWon + 1,
      bestTime := if prev.bestTime.None? then Some(finalTime) else Some(Min(prev.bestTime.value, finalTime)),
      bestMoves := if prev.bestMoves.None? then Some(finalMoves) else Some(Min(prev.bestMoves.value, finalMoves)),
      longestGameTime := Max(prev.longestGameTime, finalTime),
      totalMovesInWonGames := prev.totalMovesInWonGames + finalMoves)
  }

  function Min(a: nat, b: nat): nat
  {
    if a <= b then a else b
  }

  function Max(a: nat, b: nat): nat
  {
    if a >= b then a else b
  }

  /** The statistics do not depend on the order in which two wins are
      recorded. */
  lemma StatsOnWinCommute(s: GameStats, m1: nat, t1: nat, m2: nat, t2: nat)
    ensures StatsOnWin(StatsOnWin(s, m1, t1), m2, t2) == StatsOnWin(StatsOnWin(s, m2, t2), m1, t1)
  {
  }

  // ---------------------------------------------------------------------
  // The stock
  // ---------------------------------------------------------------------

  /** onStockClick: with cards left, pop the top card of the stock, turn it
      up and push it onto the waste; with none left, the waste reversed and
      turned down becomes the stock. One move either way; the selection is
      cleared. */
  method OnStockClick(app: AppState) returns (r: AppState)
    ensures r == app.(game := StockClicked(app.game), selectedLocation := None)
  {
    var prev := app.game;
    var newState := prev.(moves := prev.moves + 1);
    if |prev.stock| == 0 {
      newState := newState.(stock := Recycled(prev.waste), waste := []);
    } else {
      var stock := newState.stock;
      var drawn := stock[|stock| - 1];
      stock := stock[..|stock| - 1];
      drawn := drawn.(isFaceUp := true);
      newState := newState.(stock := stock, waste := newState.waste + [drawn]);
    }
    r := app.(game := newState, selectedLocation := None);
  }

  /** A stock click keeps the screen invariant. */
  lemma StockClickKeepsInvariant(app: AppState)
    requires AppInvariant(app)
    ensures AppInvariant(app.(game := StockClicked(app.game), selectedLocation := None))
  {
    StockClickPreserves(app.game);
  }

  // ---------------------------------------------------------------------
  // A move
  // ---------------------------------------------------------------------

  /** The screen after performMove(from, to): the move is made when legal,
      with the win recorded in the statistics (this game's move count and
      the clock) when it fills the foundations; otherwise the game is as it
      was. The selection is cleared either way. */
  function MoveApplied(app: AppState, from: Location, to: Location): (r: AppState)
    requires WellFormed(app.game) && ValidLocation(from) && ValidLocation(to)
    ensures r.selectedLocation == None && r.timer == app.timer
    ensures !Legal(app.game, from, to) ==> r.game == app.game && r.stats == app.stats
  {
    if Legal(app.game, from, to) then
      var g := Moved(app.game, from, to);
      app.(game := g, selectedLocation := None,
           stats := if CheckWin(g.foundation) then StatsOnWin(app.stats, g.moves, app.timer) else app.stats)
    else app.(selectedLocation := None)
  }

  /** What a successful move records: the statistics change exactly when
      the move completes the foundations, and then by one win with this
      game's move count and time. */
  lemma MoveAppliedStats(app: AppState, from: Location, to: Location)
    requires WellFormed(app.game) && ValidLocation(from) && ValidLocation(to) && Legal(app.game, from, to)
    ensures var r := MoveApplied(app, from, to);
      && r.game == Moved(app.game, from, to)
      && r.game.moves == app.game.moves + 1 && r.game.score == app.game.score + 10
      && (CheckWin(r.game.foundation) ==> r.game.won && r.stats == StatsOnWin(app.stats, r.game.moves, app.timer))
      && (!CheckWin(r.game.foundation) ==> r.stats == app.stats && r.game.won == app.game.won)
  {
    MovedCounters(app.game, from, to);
  }

  /** performMove records a win whenever a move completes the foundations,
      whether or not the game was won before. In a won game, taking a King
      down to an empty tableau pile and putting it back fills the
      foundations again, and the statistics count a second win, with this
      game's move count and time once more. */
  lemma WinRecordedAgain(app: AppState, f: nat, t: nat)
    requires WellFormed(app.game) && f < 4 && t < 7
    requires CheckWin(app.game.foundation) && FoundationPileOk(app.game.foundation[f])
    requires |app.game.tableau[t]| == 0
    ensures var down, back := Location(Foundation, f), Location(Tableau, t);
      var a1 := MoveApplied(app, down, back);
      var a2 := MoveApplied(a1, back, down);
      && a1.stats == app.stats
      && CheckWin(a2.game.foundation)
      && a2.stats == StatsOnWin(app.stats, app.game.moves + 2, app.timer)
  {
    var down, back := Location(Foundation, f), Location(Tableau, t);
    KingTakenDown(app.game, f, t);
    var g1 := Moved(app.game, down, back);
    MoveAppliedStats(app, down, back);
    var a1 := MoveApplied(app, down, back);
    KingPutBack(app.game, g1, f, t);
    MoveAppliedStats(a1, back, down);
  }

  /** The first half: the King leaves the full foundation for the empty
      tableau pile, and the foundations are no longer complete. */
  lemma KingTakenDown(g: GameState, f: nat, t: nat)
    requires WellFormed(g) && f < 4 && t < 7
    requires CheckWin(g.foundation) && FoundationPileOk(g.foundation[f])
    requires |g.tableau[t]| == 0
    ensures Legal(g, Location(Foundation, f), Location(Tableau, t))
    ensures var g1, p := Moved(g, Location(Foundation, f), Location(Tableau, t)), g.foundation[f];
      && g1.foundation == g.foundation[f := p[..12]]
      && g1.tableau[t] == [p[12]]
      && g1.moves == g.moves + 1
      && !CheckWin(g1.foundation)
  {
    var down, back := Location(Foundation, f), Location(Tableau, t);
    var p := g.foundation[f];
    assert |p| == 13 && p[12].rank == King;
    assert CardsToMove(g, down) == [p[12]];
    assert Legal(g, down, back);
    var g1 := Moved(g, down, back);
    MovedPiles(g, down, back);
    forall i | 0 <= i < 4 ensures g1.foundation[i] == g.foundation[f := p[..12]][i] {
      assert Pile(g1, Location(Foundation, i)) == g1.foundation[i];
    }
    assert |g1.foundation[f]| == 12;
  }

  /** The second half: the King goes back from the tableau pile onto its
      foundation, which is complete again. */
  lemma KingPutBack(g: GameState, g1: GameState, f: nat, t: nat)
    requires WellFormed(g) && f < 4 && t < 7
    requires CheckWin(g.foundation) && FoundationPileOk(g.foundation[f])
    requires WellFormed(g1)
    requires g1.foundation == g.foundation[f := g.foundation[f][..12]]
    requires g1.tableau[t] == [g.foundation[f][12]]
    ensures Legal(g1, Location(Tableau, t), Location(Foundation, f))
    ensures var g2 := Moved(g1, Location(Tableau, t), Location(Foundation, f));
      CheckWin(g2.foundation) && g2.moves == g1.moves + 1
  {
    var p := g.foundation[f];
    KingBackLegal(g1, p, f, t);
    KingBackLands(g1, p, f, t);
    assert g1.foundation[f := p] == g.foundation;
  }

  /** Where the King lands: its foundation is whole again and the other
      foundations are as they were. */
  lemma KingBackLands(g1: GameState, p: seq<Card>, f: nat, t: nat)
    requires WellFormed(g1) && f < 4 && t < 7 && |p| == 13
    requires Legal(g1, Location(Tableau, t), Location(Foundation, f))
    requires g1.foundation[f] == p[..12] && CardsToMove(g1, Location(Tableau, t)) == [p[12]]
    ensures var g2 := Moved(g1, Location(Tableau, t), Location(Foundation, f));
      g2.foundation == g1.foundation[f := p] && g2.moves == g1.moves + 1
  {
    var down, back := Location(Foundation, f), Location(Tableau, t);
    var lifted := SetPile(g1, back, Rest(g1, back));
    assert lifted.foundation == g1.foundation;
    assert Transferred(g1, back, down).foundation == g1.foundation[f := p[..12] + [p[12]]];
    assert p[..12] + [p[12]] == p;
  }

  /** A King on a tableau pile of its own may go onto the foundation of its
      suit that holds Ace to Queen. */
  lemma KingBackLegal(g1: GameState, p: seq<Card>, f: nat, t: nat)
    requires WellFormed(g1) && f < 4 && t < 7
    requires |p| == 13 && FoundationPileOk(p)
    requires g1.foundation[f] == p[..12] && g1.tableau[t] == [p[12]]
    ensures Legal(g1, Location(Tableau, t), Location(Foundation, f))
    ensures CardsToMove(g1, Location(Tableau, t)) == [p[12]]
  {
    assert p[11].rank == 12 && p[11].suit == p[0].suit && p[12].suit == p[0].suit && p[12].isFaceUp;
    assert FindFaceUp(g1.tableau[t]) == 0;
  }

  /** performMove: deep-copy the state, take the run from the source, test
      the destination, and on success cut the source (turning its new top
      over when it is a tableau pile), push the run onto the destination
      and advance the counters. */
  method PerformMove(app: AppState, from: Location, to: Location) returns (r: AppState)
    requires WellFormed(app.game) && ValidLocation(from) && ValidLocation(to)
    ensures r == MoveApplied(app, from, to)
  {
    var prev := app.game;
    var waste, foundation, tableau := prev.waste, prev.foundation, prev.tableau;
    var sourcePile: seq<Card> := [];
    if from.pileType == Waste {
      sourcePile := waste;
    } else if from.pileType == Foundation {
      sourcePile := foundation[from.index];
    } else if from.pileType == Tableau {
      sourcePile := tableau[from.index];
    }
    assert sourcePile == SourcePile(prev, from);
    if |sourcePile| == 0 {
      return app.(selectedLocation := None);
    }
    var cardsToMove: seq<Card>;
    if from.pileType == Tableau {
      var firstFaceUp := FindFaceUp(sourcePile);
      cardsToMove := sourcePile[JsStart(|sourcePile|, firstFaceUp)..];
    } else {
      cardsToMove := [sourcePile[|sourcePile| - 1]];
    }
    assert cardsToMove == CardsToMove(prev, from);
    var valid := false;
    if to.pileType == Tableau {
      if CanMoveToTableau(cardsToMove[0], tableau[to.index]) {
        valid := true;
      }
    } else if to.pileType == Foundation && |cardsToMove| == 1 {
      if CanMoveToFoundation(cardsToMove[0], foundation[to.index]) {
        valid := true;
      }
    }
    assert valid == Legal(prev, from, to);
    if !valid {
      return app.(selectedLocation := None);
    }
    var lifted := LiftRun(prev, from);
    var newState := DropRun(lifted, to, cardsToMove);
    MoveAppliedLegal(app, from, to, newState);
    var won, stats := prev.won, app.stats;
    if CheckWin(newState.foundation) {
      won := true;
      stats := StatsOnWin(stats, prev.moves + 1, app.timer);
    }
    newState := newState.(moves := prev.moves + 1, score := prev.score + 10, won := won);
    r := app.(game := newState, stats := stats, selectedLocation := None);
  }

  /** MoveApplied on a legal move, from the transferred piles. */
  lemma MoveAppliedLegal(app: AppState, from: Location, to: Location, t: GameState)
    requires WellFormed(app.game) && ValidLocation(from) && ValidLocation(to) && Legal(app.game, from, to)
    requires t == SetPile(SetPile(app.game, from, Rest(app.game, from)), to,
                          Pile(SetPile(app.game, from, Rest(app.game, from)), to) + CardsToMove(app.game, from))
    ensures var won := CheckWin(t.foundation);
      MoveApplied(app, from, to)
      == app.(game := t.(moves := app.game.moves + 1, score := app.game.score + 10, won := app.game.won || won),
              stats := if won then StatsOnWin(app.stats, app.game.moves + 1, app.timer) else app.stats,
              selectedLocation := None)
  {
  }

  /** The first half of a successful performMove: cut the run off the
      source and, for a tableau pile, turn its new top over. */
  method LiftRun(g: GameState, from: Location) returns (r: GameState)
    requires WellFormed(g) && ValidLocation(from) && |SourcePile(g, from)| > 0
    ensures r == SetPile(g, from, Rest(g, from))
  {
    var waste, foundation, tableau := g.waste, g.foundation, g.tableau;
    if from.pileType == Tableau {
      var firstFaceUp := FindFaceUp(tableau[from.index]);
      var pile := tableau[from.index][..JsStart(|tableau[from.index]|, firstFaceUp)];
      if |pile| > 0 && !pile[|pile| - 1].isFaceUp {
        pile := pile[|pile| - 1 := pile[|pile| - 1].(isFaceUp := true)];
      }
      tableau := tableau[from.index := pile];
    } else if from.pileType == Waste {
      waste := waste[..|waste| - 1];
    } else {
      foundation := foundation[from.index := foundation[from.index][..|foundation[from.index]| - 1]];
    }
    r := g.(waste := waste, foundation := foundation, tableau := tableau);
  }

  /** The second half: push the run onto the destination. */
  method DropRun(g: GameState, to: Location, cards: seq<Card>) returns (r: GameState)
    requires WellFormed(g) && ValidLocation(to) && (to.pileType == Tableau || to.pileType == Foundation)
    ensures r == SetPile(g, to, Pile(g, to) + cards)
  {
    var foundation, tableau := g.foundation, g.tableau;
    if to.pileType == Tableau {
      tableau := tableau[to.index := tableau[to.index] + cards];
    } else {
      foundation := foundation[to.index := foundation[to.index] + cards];
    }
    r := g.(foundation := foundation, tableau := tableau);
  }

  /** A move, legal or not, keeps the screen invariant. */
  lemma MoveKeepsInvariant(app: AppState, from: Location, to: Location)
    requires AppInvariant(app) && ValidLocation(from) && ValidLocation(to)
    ensures AppInvariant(MoveApplied(app, from, to))
  {
    if Legal(app.game, from, to) {
      MovePreserves(app.game, from, to);
    }
  }

  // ---------------------------------------------------------------------
  // Click
  // ---------------------------------------------------------------------

  /** handleCardClick(type, index). With nothing selected: a non-empty waste
      or foundation pile, or a tableau pile with a face-up top, becomes the
      selection; a tableau pile with a face-down top has that card turned
      over; anything else is ignored. With a selection: clicking it again
      clears it, clicking elsewhere moves from it to there. */
  function CardClicked(app: AppState, pileType: PileType, index: int): (r: AppState)
    requires WellFormed(app.game) && ValidLocation(Location(pileType, index))
    requires app.selectedLocation.Some? ==> ValidLocation(app.selectedLocation.value)
    ensures r.timer == app.timer
  {
    var g := app.game;
    var here := Location(pileType, index);
    match app.selectedLocation
    case None =>
      if pileType == Stock then app
      else if pileType == Waste then
        if |g.waste| > 0 then app.(selectedLocation := Some(here)) else app
      else if pileType == Foundation then
        if |g.foundation[index]| > 0 then app.(selectedLocation := Some(here)) else app
      else if |g.tableau[index]| > 0 then
        var pile := g.tableau[index];
        if pile[|pile| - 1].isFaceUp then app.(selectedLocation := Some(here))
        else app.(game := Revealed(g, index))
      else app
    case Some(sel) =>
      if sel.pileType == pileType && sel.index == index then app.(selectedLocation := None)
      else MoveApplied(app, sel, here)
  }

  /** With nothing selected, a click on a tableau pile whose top is face down
      turns that card over and changes nothing else: not the moves, not the
      score, not the selection. */
  lemma ClickReveals(app: AppState, index: nat)
    requires WellFormed(app.game) && index < 7 && app.selectedLocation.None?
    requires |app.game.tableau[index]| > 0 && !app.game.tableau[index][|app.game.tableau[index]| - 1].isFaceUp
    ensures var r := CardClicked(app, Tableau, index);
      && r.game == Revealed(app.game, index)
      && r.game.moves == app.game.moves && r.game.score == app.game.score
      && r.stats == app.stats && r.selectedLocation == None
  {
    RevealedEffect(app.game, index);
  }

  /** Clicking the selected location again clears the selection and leaves
      the game alone. */
  lemma ClickDeselects(app: AppState, pileType: PileType, index: int)
    requires WellFormed(app.game) && ValidLocation(Location(pileType, index))
    requires app.selectedLocation == Some(Location(pileType, index))
    ensures CardClicked(app, pileType, index) == app.(selectedLocation := None)
  {
  }

  /** With a selection, a click anywhere other than the selected location
      attempts the move from the selection to the clicked location. */
  lemma ClickMoves(app: AppState, pileType: PileType, index: int)
    requires WellFormed(app.game) && ValidLocation(Location(pileType, index))
    requires app.selectedLocation.Some? && ValidLocation(app.selectedLocation.value)
    requires app.selectedLocation != Some(Location(pileType, index))
    ensures CardClicked(app, pileType, index) == MoveApplied(app, app.selectedLocation.value, Location(pileType, index))
  {
  }

  /** With nothing selected, a click selects exactly the non-empty waste and
      foundation piles and the tableau piles with a face-up top, and never
      changes the game except by the reveal. */
  lemma ClickSelects(app: AppState, pileType: PileType, index: int)
    requires WellFormed(app.game) && ValidLocation(Location(pileType, index)) && app.selectedLocation.None?
    ensures var r := CardClicked(app, pileType, index);
      var p := Pile(app.game, Location(pileType, index));
      && (r.selectedLocation.Some? <==>
            pileType != Stock && |p| > 0 && (pileType == Tableau ==> p[|p| - 1].isFaceUp))
      && (r.selectedLocation.Some? ==> r.selectedLocation.value == Location(pileType, index) && r.game == app.game)
      && r.stats == app.stats
  {
  }

  /** A click keeps the screen invariant; under it the reveal never fires. */
  lemma ClickKeepsInvariant(app: AppState, pileType: PileType, index: int)
    requires AppInvariant(app) && ValidLocation(Location(pileType, index))
    ensures AppInvariant(CardClicked(app, pileType, index))
    ensures app.selectedLocation.None? ==> CardClicked(app, pileType, index).game == app.game
  {
    var here := Location(pileType, index);
    match app.selectedLocation
    case None =>
      ClickUnselectedInert(app, pileType, index);
    case Some(sel) =>
      if !(sel.pileType == pileType && sel.index == index) {
        MoveKeepsInvariant(app, sel, here);
      }
  }

  /** Under the invariant, a click with nothing selected changes at most the
      selection, and selects only a non-empty pile other than the stock. */
  lemma ClickUnselectedInert(app: AppState, pileType: PileType, index: int)
    requires AppInvariant(app) && ValidLocation(Location(pileType, index)) && app.selectedLocation.None?
    ensures var r := CardClicked(app, pileType, index);
      && r.game == app.game
      && (r.selectedLocation.Some? ==>
            && r.selectedLocation.value == Location(pileType, index)
            && pileType != Stock && |Pile(app.game, Location(pileType, index))| > 0)
  {
    if pileType == Tableau && |app.game.tableau[index]| > 0 {
      RevealInert(app.game, index);
    }
  }

  // ---------------------------------------------------------------------
  // Double click
  // ---------------------------------------------------------------------

  /** The first foundation, from position `i` on, that accepts the card. */
  function FirstAccepting(card: Card, foundation: seq<seq<Card>>, i: nat): (k: Option<nat>)
    requires i <= |foundation|
    ensures k.Some? ==> i <= k.value < |foundation| && CanMoveToFoundation(card, foundation[k.value])
    ensures k.Some? ==> forall j :: i <= j < k.value ==> !CanMoveToFoundation(card, foundation[j])
    ensures k.None? ==> forall j :: i <= j < |foundation| ==> !CanMoveToFoundation(card, foundation[j])
    decreases |foundation| - i
  {
    if i == |foundation| then None
    else if CanMoveToFoundation(card, foundation[i]) then Some(i)
    else FirstAccepting(card, foundation, i + 1)
  }

  /** The card a double click tries to send up: the waste top, or a face-up
      tableau top. */
  function AutoCard(g: GameState, pileType: PileType, index: int): (c: Option<Card>)
    requires WellFormed(g) && ValidLocation(Location(pileType, index))
    ensures c.Some? ==> pileType == Waste || pileType == Tableau
    ensures c.Some? ==> var p := Pile(g, Location(pileType, index)); |p| > 0 && c.value == p[|p| - 1]
    ensures pileType == Tableau && c.Some? ==> c.value.isFaceUp
    ensures c.Some? <==>
      || (pileType == Waste && |g.waste| > 0)
      || (pileType == Tableau && |g.tableau[index]| > 0 && g.tableau[index][|g.tableau[index]| - 1].isFaceUp)
  {
    if pileType == Waste then
      if |g.waste| == 0 then None else Some(g.waste[|g.waste| - 1])
    else if pileType == Tableau then
      var pile := g.tableau[index];
      if |pile| == 0 || !pile[|pile| - 1].isFaceUp then None else Some(pile[|pile| - 1])
    else None
  }

  /** handleCardDoubleClick as a function of the screen: the move to the
      first foundation that accepts the card, or nothing at all. */
  function DoubleClicked(app: AppState, pileType: PileType, index: int): (r: AppState)
    requires WellFormed(app.game) && ValidLocation(Location(pileType, index))
    ensures r.timer == app.timer && r.game.stock == app.game.stock
  {
    match AutoCard(app.game, pileType, index)
    case None => app
    case Some(card) =>
      match FirstAccepting(card, app.game.foundation, 0)
      case None => app
      case Some(i) => MoveApplied(app, Location(pileType, index), Location(Foundation, i))
  }

  /** handleCardDoubleClick: only the waste top or a face-up tableau top;
      try foundations 0 to 3 and perform the move to the first that accepts
      the card. */
  method HandleCardDoubleClick(app: AppState, pileType: PileType, index: int) returns (r: AppState)
    requires WellFormed(app.game) && ValidLocation(Location(pileType, index))
    ensures r == DoubleClicked(app, pileType, index)
  {
    if pileType != Waste && pileType != Tableau {
      return app;
    }
    var card: Card;
    if pileType == Waste {
      if |app.game.waste| == 0 {
        return app;
      }
      card := app.game.waste[|app.game.waste| - 1];
    } else {
      if |app.game.tableau[index]| == 0 {
        return app;
      }
      var pile := app.game.tableau[index];
      card := pile[|pile| - 1];
      if !card.isFaceUp {
        return app;
      }
    }
    assert AutoCard(app.game, pileType, index) == Some(card);
    for i := 0 to 4
      invariant forall j :: 0 <= j < i ==> !CanMoveToFoundation(card, app.game.foundation[j])
    {
      if CanMoveToFoundation(card, app.game.foundation[i]) {
        FirstAcceptingIs(card, app.game.foundation, i);
        r := PerformMove(app, Location(pileType, index), Location(Foundation, i));
        return;
      }
    }
    FirstAcceptingNone(card, app.game.foundation);
    r := app;
  }

  /** The first accepting position is the one before which none accepts. */
  lemma FirstAcceptingIs(card: Card, foundation: seq<seq<Card>>, i: nat)
    requires i < |foundation| && CanMoveToFoundation(card, foundation[i])
    requires forall j :: 0 <= j < i ==> !CanMoveToFoundation(card, foundation[j])
    ensures FirstAccepting(card, foundation, 0) == Some(i)
  {
  }

  lemma FirstAcceptingNone(card: Card, foundation: seq<seq<Card>>)
    requires forall j :: 0 <= j < |foundation| ==> !CanMoveToFoundation(card, foundation[j])
    ensures FirstAccepting(card, foundation, 0) == None
  {
  }

  /** A double click on a tableau pile whose face-up run is longer than one
      card finds its foundation but the move is refused, because the whole
      run would have to go: the game stays as it was. */
  lemma DoubleClickLongRunFails(app: AppState, index: nat)
    requires WellFormed(app.game) && index < 7
    requires var p := app.game.tableau[index]; FindFaceUp(p) >= 0 && |p| - FindFaceUp(p) > 1
    ensures DoubleClicked(app, Tableau, index).game == app.game
    ensures DoubleClicked(app, Tableau, index).stats == app.stats
  {
    var from := Location(Tableau, index);
    var p := app.game.tableau[index];
    CutOfTableau(p);
    assert |CardsToMove(app.game, from)| > 1;
    match AutoCard(app.game, Tableau, index)
    case None =>
    case Some(card) =>
      match FirstAccepting(card, app.game.foundation, 0)
      case None =>
      case Some(i) =>
        assert !Legal(app.game, from, Location(Foundation, i));
  }

  /** A double click on the waste top, or on a face-up tableau top that is
      alone in its run, moves it to the first foundation that takes it. */
  lemma DoubleClickMovesTop(app: AppState, pileType: PileType, index: int, i: nat)
    requires WellFormed(app.game) && ValidLocation(Location(pileType, index))
    requires AutoCard(app.game, pileType, index).Some?
    requires FirstAccepting(AutoCard(app.game, pileType, index).value, app.game.foundation, 0) == Some(i)
    requires pileType == Tableau ==> FindFaceUp(app.game.tableau[index]) == |app.game.tableau[index]| - 1
    ensures Legal(app.game, Location(pileType, index), Location(Foundation, i))
    ensures DoubleClicked(app, pileType, index).game == Moved(app.game, Location(pileType, index), Location(Foundation, i))
    ensures DoubleClicked(app, pileType, index) == MoveApplied(app, Location(pileType, index), Location(Foundation, i))
  {
    var from := Location(pileType, index);
    if pileType == Tableau {
      CutOfTableau(app.game.tableau[index]);
    }
    assert |CardsToMove(app.game, from)| == 1;
  }

  /** A double click that finds no card to offer, or no foundation that
      takes it, leaves the whole screen as it was. */
  lemma DoubleClickNoTarget(app: AppState, pileType: PileType, index: int)
    requires WellFormed(app.game) && ValidLocation(Location(pileType, index))
    requires AutoCard(app.game, pileType, index).None?
      || FirstAccepting(AutoCard(app.game, pileType, index).value, app.game.foundation, 0).None?
    ensures DoubleClicked(app, pileType, index) == app
  {
  }

  /** A double click keeps the screen invariant. */
  lemma DoubleClickKeepsInvariant(app: AppState, pileType: PileType, index: int)
    requires AppInvariant(app) && ValidLocation(Location(pileType, index))
    ensures AppInvariant(DoubleClicked(app, pileType, index))
  {
    match AutoCard(app.game, pileType, index)
    case None =>
    case Some(card) =>
      match FirstAccepting(card, app.game.foundation, 0)
      case None =>
      case Some(i) => MoveKeepsInvariant(app, Location(pileType, index), Location(Foundation, i));
  }

  // ---------------------------------------------------------------------
  // New game
  // ---------------------------------------------------------------------

  /** handleNewGame: a new deal, the clock back to zero, no selection, and
      one more game started; the other statistics are kept. */
  method HandleNewGame(app: AppState, js: seq<nat>) returns (r: AppState)
    requires ValidChoices(js, 52)
    ensures r.game == Dealt(Shuffled(CanonicalDeck(), js))
    ensures r.timer == 0 && r.selectedLocation == None
    ensures r.stats == app.stats.(gamesStarted := app.stats.gamesStarted + 1)
    ensures AppInvariant(r)
  {
    var newGame := InitializeGame(js);
    DealEstablishes(js);
    r := app.(game := newGame, timer := 0, selectedLocation := None,
              stats := app.stats.(gamesStarted := app.stats.gamesStarted + 1));
  }

  // ---------------------------------------------------------------------
  // Clock
  // ---------------------------------------------------------------------

  /** formatTime: minutes, a colon, and the seconds padded to two digits.
      The text reads back as the number of seconds it was made from. */
  function FormatTime(seconds: nat): (text: string)
    ensures |text| >= 4 && text[|text| - 3] == ':'
    ensures AllDigits(text[..|text| - 3]) && AllDigits(text[|text| - 2..])
    ensures ParseDecimal(text[|text| - 2..]) < 60
    ensures ParseDecimal(text[..|text| - 3]) * 60 + ParseDecimal(text[|text| - 2..]) == seconds
    ensures |text| > 4 ==> text[0] != '0'
  {
    var mins := DecimalString(seconds / 60);
    var secs := PadStart2(DecimalString(seconds % 60));
    ParseDecimalString(seconds / 60);
    ParseDecimalString(seconds % 60);
    ParsePadStart2(DecimalString(seconds % 60));
    var text := mins + ":" + secs;
    assert text[..|text| - 3] == mins && text[|text| - 2..] == secs;
    text
  }
}
