# Klondike solitaire engine

A model of the rules engine and the game-screen handlers of a browser Klondike
solitaire game. The model covers these parts:

- **The deck.** 52 cards in suit order hearts, diamonds, clubs, spades, ranks
  Ace to King. The deck is shuffled by a descending Fisher–Yates loop. It is
  then dealt into seven tableau piles of 1 to 7 cards, with only the top card
  of each pile face up and 24 cards left in the stock.
- **The placement rules.** A tableau pile takes a card one rank lower of the
  opposite colour, or a King on an empty pile. A foundation takes the next card
  of the same suit, or an Ace on an empty foundation. The game is won when all
  four foundations hold 13 cards.
- **The handlers.**
  - A stock click draws one card, or turns the waste over when the stock is empty.
  - A move takes the face-up run of a tableau pile, or the top card of the waste
    or of a foundation, onto a tableau pile or a foundation. It adds 1 move and
    10 points and turns over the new top card of the source tableau pile.
    When the move leaves all four foundations full, it sets `won` and records
    a win in the statistics. The move handler does not look at `won` first,
    so any later move that fills the foundations again would record another
    win (`App.WinRecordedAgain`); the screen stops offering moves once the
    game is won.
  - A click selects a pile, clears the selection, moves from the selection, or
    turns over a face-down top card.
  - A double click sends a card to the first foundation that takes it.
  - A new game deals a fresh board and counts one more game started.
  - The clock reads "m:ss". The statistics panel shows the rounded win rate and
    average moves, the best and longest times, and the best move count.

The game's state is a value (`Types.GameState`); the screen state is
`App.AppState`. The handlers that edit a copy of the state step by step are
methods: `App.OnStockClick`, `App.PerformMove`, `App.HandleCardDoubleClick`
and `App.HandleNewGame`. So are the loops of the game logic:
`GameLogic.CreateDeck`, `GameLogic.Shuffle`, `GameLogic.Deal` and
`GameLogic.InitializeGame`. Each method is proved equal to a specification
function: a function of `Transitions` or `App` for a handler, and
`GameLogic.CanonicalDeck`, `GameLogic.Shuffled` or `GameLogic.Dealt` for the
game logic. The handlers without a loop or an in-place edit are functions:
`handleCardClick` is `App.CardClicked`, `updateStatsOnWin` is
`App.StatsOnWin`, and the clock text is `App.FormatTime`. The properties are
proved about the specification functions.

The game invariant is `Invariants.Invariant`. It holds that:
- every card of the canonical deck is on the board exactly once;
- the stock is face down and the waste face up;
- each foundation is an Ace-up run of one suit;
- each non-empty tableau pile is face-down cards under a face-up run of
  alternating colours and falling ranks;
- full foundations imply `won`.

Dealing establishes the invariant. Every handler preserves it.

Two places where the screen code is taken literally:
- **No face-up card in a tableau pile.** `findIndex` then gives -1, and
  `slice(-1)` / `splice(-1)` take the last card. The model keeps this through
  `Transitions.JsStart`. `Invariants.CardsAreRun` and
  `Invariants.TableauTopFaceUp` prove the case never arises under the invariant.
- **Numbers.** Randomness is a parameter. The shuffle's choices are a sequence
  `js`, where `js[i] <= i` is the index drawn at loop step `i`. Rounding with
  `Math.round` on a floating-point quotient is modelled exactly as rounding half
  up on integers.

## Model

| member | source | states |
|---|---|---|
| Constants.SuitsEachOnce | constants.tsx:5 | SUITS lists each of the four suits exactly once, in the order hearts, diamonds, clubs, spades |
| Constants.RanksAscending | constants.tsx:6 | RANKS is 1..13 in strictly ascending order |
| Constants.RankLabel | constants.tsx:17-23 | Ace, Jack, Queen and King are labelled A, J, Q, K; ranks 2 to 10 have a decimal label with no leading zero that reads back as the rank, which by `Numerals.CanonicalNumeral` is exactly the rank's numeral |
| Constants.RankLabelInjective | constants.tsx:17-23 | different ranks never get the same label |
| Numerals.DecimalString | constants.tsx:22 | the decimal form of a number is a non-empty string of digits, one digit exactly below 10, starting with 0 only for 0 itself, so never with a leading zero |
| Numerals.CanonicalNumeral | constants.tsx:22 | a digit string without a leading zero is the decimal form of its value: digits, no leading zero and the value fix the text |
| Numerals.ParseDecimalString | constants.tsx:22 | the decimal form of n reads back as n |
| Numerals.DecimalStringInjective | constants.tsx:22 | different numbers have different decimal forms |
| Numerals.PadStart2 | App.tsx:139 | padding to two places adds only leading zeros and keeps the text as its suffix |
| Numerals.ParsePadStart2 | App.tsx:139 | padding one or two digits to two places keeps the value they read as |
| GameLogic.MakeCard | utils/gameLogic.ts:8-13 | a created card has the given suit and rank as its identity, lies face down, and has the id suit name, "-", rank numeral |
| GameLogic.MakeCardIdInjective | utils/gameLogic.ts:10 | two created cards have the same id only when they have the same suit and rank, so the ids of the deck are unique |
| GameLogic.CanonicalDeck | utils/gameLogic.ts:5-18 | the deck createDeck builds has 52 cards; its order is stated by `GameLogic.CanonicalDeckOrder` and its contents by `GameLogic.CanonicalDeckEachCardOnce` |
| GameLogic.CanonicalDeckOrder | utils/gameLogic.ts:5-18 | the deck has 52 face-down cards, with the card of suit s and rank r at position 13·(index of s) + r − 1 |
| GameLogic.CanonicalDeckDistinct | utils/gameLogic.ts:5-18 | no two cards of the deck share an identity |
| GameLogic.CanonicalDeckEachCardOnce | utils/gameLogic.ts:5-18 | every suit-and-rank identity occurs in the deck exactly once |
| GameLogic.CreateDeck | utils/gameLogic.ts:5-18 | the nested loops over suits and ranks build exactly the canonical deck |
| GameLogic.Swap | utils/gameLogic.ts:24 | exchanging two positions keeps the length and the multiset of cards |
| GameLogic.ShuffleFrom | utils/gameLogic.ts:22-25 | every remaining step of the swap loop keeps the length and the multiset of cards |
| GameLogic.SwapCells | utils/gameLogic.ts:23 | the destructuring swap exchanges the two cells of the array and leaves the others |
| GameLogic.SwapDown | utils/gameLogic.ts:22-25 | the in-place loop leaves the array holding its old contents with the chosen swaps applied from the last position down to 1 |
| GameLogic.Shuffled | utils/gameLogic.ts:20-27 | the shuffled deck is a permutation of the deck, of the same length; `GameLogic.Shuffle` is proved equal to it |
| GameLogic.Shuffle | utils/gameLogic.ts:20-27 | the loop over a copy of the deck returns the specified shuffle, which is a permutation of the deck |
| GameLogic.TriClosedForm | utils/gameLogic.ts:32-36 | the number of cards dealt before pile i is the triangular number i·(i + 1)/2 |
| GameLogic.DealtPile | utils/gameLogic.ts:33-40 | tableau pile i is dealt i + 1 cards; which ones, and their faces, are stated by `GameLogic.DealtLayout` |
| GameLogic.Dealt | utils/gameLogic.ts:29-54 | the dealt state has four foundations and seven tableau piles; its layout is stated by `GameLogic.DealtLayout` and its cards by `GameLogic.DealtConservesCards` |
| GameLogic.DealtLayout | utils/gameLogic.ts:29-54 | pile i gets i + 1 cards taken in deal order, and only its last card is turned face up; the stock is the deck from position 28 on; waste and foundations are empty; score and moves are 0 and the game is not won |
| GameLogic.DealtConservesCards | utils/gameLogic.ts:29-54 | the deal puts every card of the deck somewhere, each once |
| GameLogic.DealtTableauAll | utils/gameLogic.ts:33-40 | the tableau holds exactly the first 28 cards of the deck |
| GameLogic.InitialDeal | utils/gameLogic.ts:29-54 | a dealt game holds each of the 52 cards once; the stock has 24 cards, all face down; in each tableau pile only the top card is face up |
| GameLogic.InitializeGame | utils/gameLogic.ts:29-54 | shuffling the created deck and dealing it gives the specified deal |
| GameLogic.Deal | utils/gameLogic.ts:31-53 | the nested loop 0 ≤ j ≤ i < 7 and the remaining slice give the specified layout |
| GameLogic.EmptyFoundationsNotWon | utils/gameLogic.ts:47 | a fresh deal is not a win |
| GameLogic.IsOppositeColor | utils/gameLogic.ts:56-60 | two suits are opposite exactly when one is red and the other black |
| Transitions.SetPile | App.tsx:161 | replacing one pile of the copied state changes that pile and nothing else |
| Transitions.SetPileIds | App.tsx:161 | replacing one pile changes the cards of the game by exactly the old and the new pile |
| Transitions.Recycled | App.tsx:146 | the recycled waste is the waste in reverse order with every card face down |
| Transitions.RecycledIds | App.tsx:146 | recycling keeps the same cards |
| Transitions.RecycledTwice | App.tsx:146 | turning the waste over twice gives back the waste in its own order, face down |
| Transitions.StockClicked | App.tsx:142-157 | a stock click adds one move and leaves the foundations and the tableau alone; the whole effect is stated by `Transitions.StockClickEffect` |
| Transitions.StockClickEffect | App.tsx:142-157 | a stock click adds one move; a non-empty stock loses its top card, which lands face up on the waste; an empty stock becomes the reversed, face-down waste and the waste empties; score, foundations and tableau are untouched |
| Transitions.StockClickConservesCards | App.tsx:142-157 | a stock click neither loses nor adds a card |
| Transitions.FindFaceUp | App.tsx:172 | the result is the first face-up position, or −1 exactly when no card is face up |
| Transitions.JsStart | App.tsx:173 | JavaScript's `slice(start)` start index: never beyond the length; a negative start counts back from the end and stops at 0; a start within the pile is kept; the cases a move reaches are stated by `Transitions.CutOfTableau` |
| Transitions.Cut | App.tsx:171-176 | the cut of a non-empty source is a position of that pile, so at least one card moves |
| Transitions.CutOfTableau | App.tsx:171-173 | a tableau move cuts at the first face-up card, and with none face up it cuts at the last card |
| Transitions.SourcePile | App.tsx:162-167 | the pile a move takes from: the waste, a foundation or a tableau pile, and the empty pile for the stock |
| Transitions.CardsToMove | App.tsx:171-176 | the moved cards are a non-empty suffix of the source, a single card unless the source is a tableau pile |
| Transitions.Legal | App.tsx:178-186 | a legal move has a non-empty source that is not the stock, and a tableau pile or a foundation as destination; the full case split is `Transitions.LegalCases` |
| Transitions.LegalCases | App.tsx:168-186 | the stock and an empty pile are never a source; the stock and the waste are never a destination; a tableau move is legal exactly when the pile accepts the first moved card; a foundation move is legal exactly when the single moved card is accepted |
| Transitions.TopTurnedUp | App.tsx:191-192 | only the last card of the cut pile is turned face up; the length and the cards stay the same |
| Transitions.Rest | App.tsx:188-197 | what stays on the source plus what moves is exactly the source |
| Transitions.Transferred | App.tsx:187-201 | the piles after a legal move still number four foundations and seven tableau piles; where the cards go is stated by `Transitions.MovedPiles` |
| Transitions.Moved | App.tsx:187-215 | the state after a legal move is well formed; its counters are stated by `Transitions.MovedCounters`, its piles by `Transitions.MovedPiles` and its cards by `Transitions.MovedConservesCards` |
| Transitions.MovedCounters | App.tsx:206-209 | a move adds one move and 10 points; `won` becomes true when the foundations fill, and is never cleared; the stock is untouched |
| Transitions.MovedPiles | App.tsx:188-201 | the source keeps the rest of its cards; the run lands on top of the destination in order; every other pile stays as it was |
| Transitions.RestShape | App.tsx:188-197 | the rest is the source up to the cut, with its last card turned face up when the source is a tableau pile |
| Transitions.MovedConservesCards | App.tsx:159-221 | a move neither loses nor adds a card |
| Transitions.Revealed | App.tsx:234-237 | the reveal keeps four foundations and seven tableau piles; what it changes is stated by `Transitions.RevealedEffect` |
| Transitions.RevealedEffect | App.tsx:233-239 | the reveal turns over the top card of that one tableau pile and changes nothing else |
| Transitions.RevealedConservesCards | App.tsx:233-239 | the reveal keeps the same cards |
| Invariants.PilesOkMeans | App.tsx:159-221 | the pile shape holds exactly when the stock is face down, the waste face up, each foundation an Ace-up suit run, and each tableau pile face-down cards under a face-up alternating run |
| Invariants.RunRanks | utils/gameLogic.ts:62-68 | a run built by tableau moves falls by one rank per card |
| Invariants.FoundationAtMost13 | utils/gameLogic.ts:70-76 | a foundation can never hold more than 13 cards |
| Invariants.TableauTopFaceUp | App.tsx:171-172 | under the pile shape, a non-empty tableau pile has a face-up card, so the search never returns −1 and the top is face up |
| Invariants.DealEstablishes | utils/gameLogic.ts:29-54 | a fresh deal satisfies the game invariant |
| Invariants.StockClickPreserves | App.tsx:142-157 | a stock click keeps the game invariant |
| Invariants.RecyclePreserves | App.tsx:146-147 | turning the waste over onto an empty stock keeps the game invariant |
| Invariants.DrawPreserves | App.tsx:149-151 | drawing the stock's top card face up onto the waste keeps the game invariant |
| Invariants.CardsAreRun | App.tsx:171-176 | under the invariant the moved cards form a face-up run, and from a tableau pile they start at the first face-up card |
| Invariants.LegalDistinct | App.tsx:178-186 | no legal move has the same pile as its source and its destination |
| Invariants.TableauDestOk | App.tsx:199 | placing an accepted run on a tableau pile keeps that pile's shape |
| Invariants.FoundationDestOk | App.tsx:200-201 | placing an accepted card on a foundation keeps it an Ace-up suit run |
| Invariants.FoundationAccepts | utils/gameLogic.ts:70-76 | for a face-up card and a well-shaped foundation, canMoveToFoundation accepts the card exactly when the foundation with the card on top is still an Ace-up run of one suit |
| Invariants.TableauAccepts | utils/gameLogic.ts:62-68 | for a run and a non-empty well-shaped tableau pile, canMoveToTableau accepts the run's first card exactly when the pile with the run on top is still face-down cards under one alternating, falling run; an empty pile would be well shaped under any run, and takes one only when it starts with a King |
| Invariants.TableauJoin | utils/gameLogic.ts:62-68 | a run that sits well shaped on a non-empty pile starts with a card that pile accepts |
| Invariants.FoundationFull | utils/gameLogic.ts:78-80 | a well-shaped foundation holds 13 cards exactly when a King is on top |
| Invariants.CheckWinKings | utils/gameLogic.ts:78-80 | in a reachable state checkWin holds exactly when each of the four foundations has a King on top |
| Invariants.CheckWinAllCards | utils/gameLogic.ts:78-80 | in a reachable state checkWin holds exactly when the foundations hold all 52 cards of the deck |
| Invariants.FoundationsFull | utils/gameLogic.ts:78-80 | four piles of at most 13 cards that are part of a 52-card deck are all full exactly when they make up the whole deck |
| Invariants.RestOk | App.tsx:188-197 | what stays on the source keeps that pile's shape |
| Invariants.MovePreserves | App.tsx:159-221 | every legal move keeps the game invariant |
| Invariants.RevealInert | App.tsx:231-238 | under the invariant, the top of a non-empty tableau pile is already face up, so the reveal changes nothing |
| Invariants.RevealPreserves | App.tsx:231-238 | the reveal keeps the game invariant |
| App.StatsOnWin | App.tsx:104-113 | one more win, the same games started; best time and best moves become the smaller of the old value and this game's, or this game's when there is none yet; the longest time becomes the larger of the two; the move total grows by this game's moves |
| App.StatsOnWinCommute | App.tsx:104-113 | recording two wins gives the same statistics in either order |
| App.OnStockClick | App.tsx:142-157 | the handler produces the specified stock click and clears the selection |
| App.StockClickKeepsInvariant | App.tsx:142-157 | the stock handler keeps the screen invariant |
| App.MoveApplied | App.tsx:159-221 | every attempt clears the selection; a move that is not legal leaves the game and the statistics as they were |
| App.MoveAppliedStats | App.tsx:206-213 | a legal move gives the moved game with one more move and 10 more points; the statistics record the win, with the new move count and the clock, exactly when the foundations fill; otherwise `won` and the statistics are kept |
| App.PerformMove | App.tsx:159-221 | the step-by-step edit of the copied state gives exactly the specified move, on both the refused and the successful path |
| App.LiftRun | App.tsx:188-197 | cutting the source in place gives the source replaced by the rest |
| App.DropRun | App.tsx:199-201 | pushing the run onto the destination in place gives the destination with the run on top |
| App.WinRecordedAgain | App.tsx:206-211 | for the move handler alone: in a won game, taking a King down to an empty tableau pile and putting it back records a second win in the statistics, with this game's moves and time |
| App.KingTakenDown | App.tsx:178-215 | the King of a full foundation may move to an empty tableau pile, after which the foundations are not complete |
| App.KingPutBack | App.tsx:178-215 | that King may move back onto its foundation, which completes the foundations again |
| App.KingBackLegal | App.tsx:171-186 | a lone face-up King on a tableau pile is the whole run a move takes, and the foundation of its suit holding Ace to Queen accepts it |
| App.KingBackLands | App.tsx:199-201 | after that move the King's foundation holds all 13 cards again and the other foundations are unchanged |
| App.MoveKeepsInvariant | App.tsx:159-221 | a move, refused or made, keeps the screen invariant |
| App.CardClicked | App.tsx:223-248 | handleCardClick as a function of the screen; it never touches the clock, and its cases are stated by `App.ClickSelects`, `App.ClickReveals`, `App.ClickDeselects`, `App.ClickMoves` and `App.ClickKeepsInvariant` |
| App.ClickMoves | App.tsx:247 | with a selection, a click on any other location is exactly the move attempt from the selection to that location |
| App.ClickSelects | App.tsx:224-241 | with nothing selected, a click selects exactly a non-empty waste or foundation pile, or a tableau pile with a face-up top; the stock is never selected; selecting leaves the game alone |
| App.ClickReveals | App.tsx:228-239 | with nothing selected, clicking a tableau pile with a face-down top turns that card over; moves, score, statistics and the selection stay the same |
| App.ClickDeselects | App.tsx:243-246 | clicking the selected pile again clears the selection and changes nothing else |
| App.ClickUnselectedInert | App.tsx:224-241 | under the invariant, a click with nothing selected leaves the game as it was and selects only a non-empty pile other than the stock |
| App.ClickKeepsInvariant | App.tsx:223-248 | every click keeps the screen invariant, and under it a click with nothing selected never changes the game |
| App.FirstAccepting | App.tsx:264-269 | the result is the lowest foundation that takes the card, or none exactly when none does |
| App.AutoCard | App.tsx:251-262 | a card is offered exactly when the waste is non-empty or the tableau pile has a face-up top, and it is that top card; nothing else is offered |
| App.DoubleClicked | App.tsx:250-270 | handleCardDoubleClick as a function of the screen; it never touches the clock or the stock; its cases are stated by `App.DoubleClickMovesTop`, `App.DoubleClickNoTarget`, `App.DoubleClickLongRunFails` and `App.DoubleClickKeepsInvariant` |
| App.HandleCardDoubleClick | App.tsx:250-270 | the loop over foundations 0 to 3 performs the move to the first one that takes the card, and does nothing when none does |
| App.DoubleClickLongRunFails | App.tsx:171-186 | a double click on a tableau pile whose face-up run has more than one card changes neither the game nor the statistics, even when a foundation would take the top card |
| App.DoubleClickMovesTop | App.tsx:264-269 | a double click on the waste top, or on a tableau top that is its pile's only face-up card, makes the legal move to the first accepting foundation, and the whole screen is that move's result |
| App.DoubleClickNoTarget | App.tsx:251-269 | a double click with no card to offer, or with no foundation that takes the card, leaves the whole screen as it was |
| App.DoubleClickKeepsInvariant | App.tsx:250-270 | a double click keeps the screen invariant |
| App.HandleNewGame | App.tsx:115-124 | a new game is a fresh deal; the clock is reset, the selection cleared and one more game counted as started; the other statistics are kept; the screen invariant holds |
| App.FormatTime | App.tsx:136-140 | the text is minutes, a colon and exactly two digits; the seconds part is below 60, and minutes·60 + seconds reads back as the input; the minutes have no leading zero, so by `Numerals.CanonicalNumeral` they are the minutes' numeral |
| StatsUI.RoundedRatio | components/StatsUI.tsx:21 | the result r is within half a unit of n/d, with a half rounded up: (2r − 1)·d ≤ 2n < (2r + 1)·d |
| StatsUI.RoundedRatioUnique | components/StatsUI.tsx:21 | only one integer satisfies those bounds |
| StatsUI.WinRate | components/StatsUI.tsx:20-22 | 0 when no game has been started; otherwise the percentage of games won, rounded half up |
| StatsUI.WinRateRange | components/StatsUI.tsx:20-22 | while no more games are won than started, the rate is at most 100; it is 100 exactly when at least 199 of every 200 started games were won |
| StatsUI.AvgMoves | components/StatsUI.tsx:24-26 | 0 before the first win; otherwise the move total over the wins, rounded half up |
| StatsUI.FormatStatTime | components/StatsUI.tsx:28-33 | "--:--" exactly when there is no time; otherwise the game clock's "m:ss" form |
| StatsUI.BestMovesLabel | components/StatsUI.tsx:51 | "---" exactly when there is no best yet or the best is 0; otherwise a decimal form with no leading zero that reads back as the best, which by `Numerals.CanonicalNumeral` is exactly its numeral |
| StatsUI.FirstGameNotCounted | App.tsx:21-32 | winning the first game of a session from fresh statistics gives one win out of no started games, a win rate of 0, that game's moves as the average, and its time as the best time |

## Left out

- **Rendering.** JSX rendering, CSS styles, card styles and the settings panel
  are presentation only. Sound is a side effect only.
- **The assistant.** The language-model hint service is an external call.
  It is not part of this model.
- **Storage.** localStorage saving and loading touch storage, not rules.
  `resetStats` also puts the on-screen statistics back to the defaults
  (`App.DefaultStats`); that handler is not modelled.
- **Drag-and-drop.** Its handlers set or clear the selection, track
  `dragOverLocation`, and feed the same `performMove`.
- **Time.** `startTime` (a `Date.now()` value) is left out. The clock is a
  number in `App.AppState`. Its one-second `setInterval` tick is left out.
- **Highlighting.** `lastMovedToFoundation` and its `setTimeout` are not
  modelled.
- **The browser runtime.** React's state batching, and the order of the
  `setGame` and `setStats` calls, are not modelled. Neither is the aliasing of
  arrays shared between the old and the new state, as in the shallow copy used
  by the reveal in `handleCardClick`. Every handler is a function from one
  whole state to the next. The statistics update inside the game updater is
  applied in the same step.
- **GameLogic.Shuffle.** The model proves that the shuffle is a permutation
  for every choice sequence. It does not prove that `Math.random` makes the
  permutations uniformly likely.
- **StatsUI.WinRate.** It is exact rational rounding half up. It does not
  model floating-point error in `Math.round((won / started) * 100)`.
  `StatsUI.AvgMoves` is the same.
- **App.MoveApplied.** A win is recorded every time a move fills the
  foundations, with no check that the game was already won
  (`App.WinRecordedAgain`). The model keeps this; it does not model a
  single win per game. This is a property of the move handler alone: while
  `won` holds, the running screen covers the board with the victory overlay,
  and a saved game that was won is never restored, so no such move is
  offered there.
- **Transitions.MovedCounters.** `won` follows the code: it is set when the
  foundations fill and is never cleared. It is not "won exactly when all
  foundations are full". The invariant states only the implication.
- **StatsUI.WinRateRange.** It assumes no more wins than games started. The
  first game of a session is dealt without being counted as started, so this
  can fail (`StatsUI.FirstGameNotCounted`).
- **Location indexes.** The model requires valid indexes: tableau 0–6 and
  foundation 0–3. The screen passes only these. An index outside them would
  read `undefined` in the code.
- **Number width.** Scores, move counts and times are unbounded naturals. The
  code's JavaScript numbers do not overflow at realistic values.
