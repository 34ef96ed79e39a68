/** The state transitions of the game screen, as functions from the old game
    state to the new one: drawing from or recycling the stock, the atomic
    multi-card move, and turning a face-down tableau card over. */
module Transitions {
  import opened Types
  import opened Piles
  import opened GameLogic

  // ---------------------------------------------------------------------
  // Pile access
  // ---------------------------------------------------------------------

  /** The pile a location names. */
  function Pile(g: GameState, loc: Location): seq<Card>
    requires WellFormed(g) && ValidLocation(loc)
  {
    match loc.pileType
    case Stock => g.stock
    case Waste => g.waste
    case Foundation => g.foundation[loc.index]
    case Tableau => g.tableau[loc.index]
  }

  /** The state with the pile at `loc` replaced by `p`. */
  function SetPile(g: GameState, loc: Location, p: seq<Card>): (r: GameState)
    requires WellFormed(g) && ValidLocation(loc)
    ensures WellFormed(r) && Pile(r, loc) == p
    ensures forall other :: ValidLocation(other) && other.pileType != loc.pileType ==> Pile(r, other) == Pile(g, other)
    ensures forall other ::
      (ValidLocation(other) && other.pileType == loc.pileType && other.index != loc.index
       && (other.pileType == Tableau || other.pileType == Foundation)) ==> Pile(r, other) == Pile(g, other)
    ensures r.score == g.score && r.moves == g.moves && r.won == g.won
  {
    match loc.pileType
    case Stock => g.(stock := p)
    case Waste => g.(waste := p)
    case Foundation => g.(foundation := g.foundation[loc.index := p])
    case Tableau => g.(tableau := g.tableau[loc.index := p])
  }

  /** Replacing one pile changes the cards of the game by exactly the two
      piles. */
  lemma SetPileIds(g: GameState, loc: Location, p: seq<Card>)
    requires WellFormed(g) && ValidLocation(loc)
    ensures TotalIds(SetPile(g, loc, p)) + Ids(Pile(g, loc)) == TotalIds(g) + Ids(p)
  {
    var r := SetPile(g, loc, p);
    var s, w, f, t := Ids(g.stock), Ids(g.waste), PilesIds(g.foundation), PilesIds(g.tableau);
    var s', w', f', t' := Ids(r.stock), Ids(r.waste), PilesIds(r.foundation), PilesIds(r.tableau);
    var before, after := Ids(Pile(g, loc)), Ids(p);
    match loc.pileType {
      case Stock =>
        assert s' == after && w' == w && f' == f && t' == t;
      case Waste =>
        assert s' == s && w' == after && f' == f && t' == t;
      case Foundation =>
        PilesIdsUpdate(g.foundation, loc.index, p);
        assert s' == s && w' == w && f' + before == f + after && t' == t;
      case Tableau =>
        PilesIdsUpdate(g.tableau, loc.index, p);
        assert s' == s && w' == w && f' == f && t' + before == t + after;
    }
    ReplaceOne(s, w, f, t, s', w', f', t', before, after);
  }

  /** The multiset arithmetic of replacing one of four parts. */
  lemma ReplaceOne(s: multiset<CardId>, w: multiset<CardId>, f: multiset<CardId>, t: multiset<CardId>,
                   s': multiset<CardId>, w': multiset<CardId>, f': multiset<CardId>, t': multiset<CardId>,
                   before: multiset<CardId>, after: multiset<CardId>)
    requires || (s' + before == s + after && w' == w && f' == f && t' == t)
             || (s' == s && w' + before == w + after && f' == f && t' == t)
             || (s' == s && w' == w && f' + before == f + after && t' == t)
             || (s' == s && w' == w && f' == f && t' + before == t + after)
    ensures s' + w' + f' + t' + before == s + w + f + t + after
  {
    forall x ensures (s' + w' + f' + t' + before)[x] == (s + w + f + t + after)[x] {
      assert (s' + before)[x] == (s + after)[x] || (w' + before)[x] == (w + after)[x]
        || (f' + before)[x] == (f + after)[x] || (t' + before)[x] == (t + after)[x];
    }
  }

  // ---------------------------------------------------------------------
  // Stock
  // ---------------------------------------------------------------------

  /** `[...waste].reverse().map(c => ({ ...c, isFaceUp: false }))`. */
  function Recycled(w: seq<Card>): (r: seq<Card>)
    ensures |r| == |w|
    ensures forall i :: 0 <= i < |w| ==> r[i] == w[|w| - 1 - i].(isFaceUp := false)
    decreases |w|
  {
    if |w| == 0 then [] else [w[|w| - 1].(isFaceUp := false)] + Recycled(w[..|w| - 1])
  }

  /** Recycling neither adds nor loses a card. */
  lemma {:induction false} RecycledIds(w: seq<Card>)
    ensures Ids(Recycled(w)) == Ids(w)
    decreases |w|
  {
    if |w| > 0 {
      var n := |w| - 1;
      RecycledIds(w[..n]);
      IdsConcat([w[n].(isFaceUp := false)], Recycled(w[..n]));
      IdsSingleton(w[n].(isFaceUp := false));
    }
  }

  /** A click on the stock: with cards left, the top one is turned face up
      onto the waste; with none left, the waste turned over becomes the new
      stock. Either way it counts as a move. */
  function StockClicked(g: GameState): (r: GameState)
    ensures r.foundation == g.foundation && r.tableau == g.tableau && r.moves == g.moves + 1
  {
    if |g.stock| == 0 then
      g.(moves := g.moves + 1, stock := Recycled(g.waste), waste := [])
    else
      var n := |g.stock| - 1;
      g.(moves := g.moves + 1, stock := g.stock[..n], waste := g.waste + [g.stock[n].(isFaceUp := true)])
  }

  /** What a stock click does to every part of the state. */
  lemma StockClickEffect(g: GameState)
    ensures var r := StockClicked(g);
      && r.moves == g.moves + 1 && r.score == g.score && r.won == g.won
      && r.foundation == g.foundation && r.tableau == g.tableau
      && (|g.stock| > 0 ==>
            && r.stock == g.stock[..|g.stock| - 1]
            && |r.waste| == |g.waste| + 1 && r.waste[..|g.waste|] == g.waste
            && r.waste[|g.waste|] == g.stock[|g.stock| - 1].(isFaceUp := true))
      && (|g.stock| == 0 ==>
            && r.waste == [] && |r.stock| == |g.waste|
            && (forall i :: 0 <= i < |g.waste| ==> r.stock[i] == g.waste[|g.waste| - 1 - i].(isFaceUp := false)))
  {
    var r := StockClicked(g);
    if |g.stock| > 0 {
      assert r.waste[..|g.waste|] == g.waste;
    }
  }

  /** A stock click neither adds nor loses a card. */
  lemma StockClickConservesCards(g: GameState)
    ensures TotalIds(StockClicked(g)) == TotalIds(g)
  {
    var r := StockClicked(g);
    if |g.stock| == 0 {
      RecycledIds(g.waste);
      assert Ids(r.waste) == multiset{};
    } else {
      var n := |g.stock| - 1;
      var c := g.stock[n];
      IdsSplit(g.stock, n);
      assert g.stock[n..] == [c];
      IdsConcat(g.waste, [c.(isFaceUp := true)]);
      IdsSingleton(c);
      IdsSingleton(c.(isFaceUp := true));
    }
  }

  /** Turning the whole waste over twice restores it, face down. */
  lemma RecycledTwice(w: seq<Card>)
    ensures Recycled(Recycled(w)) == seq(|w|, i requires 0 <= i < |w| => w[i].(isFaceUp := false))
  {
  }

  // ---------------------------------------------------------------------
  // The run a move takes
  // ---------------------------------------------------------------------

  /** `pile.findIndex(c => c.isFaceUp)`: the first face-up position, or -1. */
  function FindFaceUp(p: seq<Card>): (k: int)
    ensures -1 <= k < |p|
    ensures k == -1 <==> forall i :: 0 <= i < |p| ==> !p[i].isFaceUp
    ensures k >= 0 ==> p[k].isFaceUp && forall i :: 0 <= i < k ==> !p[i].isFaceUp
    decreases |p|
  {
    if |p| == 0 then -1
    else if p[0].isFaceUp then 0
    else
      var k := FindFaceUp(p[1..]);
      assert forall i :: 1 <= i < |p| ==> p[1..][i - 1] == p[i];
      if k == -1 then -1 else k + 1
  }

  /** The start position `slice(start)` and `splice(start)` use on an array
      of length `len`: a negative start counts from the end, clamped at 0. */
  function JsStart(len: nat, start: int): (k: nat)
    ensures k <= len
    ensures start < 0 ==> k == (if len + start < 0 then 0 else len + start)
    ensures 0 <= start <= len ==> k == start
  {
    if start < 0 then (if len + start < 0 then 0 else len + start)
    else if start <= len then start
    else len
  }

  /** Where a move cuts its source pile: the run taken is p[Cut(..)..]. For
      a tableau pile that is `slice(findIndex(isFaceUp))`, otherwise the
      single top card. */
  function Cut(p: seq<Card>, fromTableau: bool): (c: nat)
    requires |p| > 0
    ensures c < |p|
  {
    if fromTableau then JsStart(|p|, FindFaceUp(p)) else |p| - 1
  }

  /** The cut of a tableau pile: at its first face-up card when it has one;
      when it has none, findIndex gives -1 and `slice(-1)` takes the last
      card, face down as it is. */
  lemma CutOfTableau(p: seq<Card>)
    requires |p| > 0
    ensures FindFaceUp(p) >= 0 ==> Cut(p, true) == FindFaceUp(p)
    ensures FindFaceUp(p) == -1 ==> Cut(p, true) == |p| - 1 && !p[|p| - 1].isFaceUp
    ensures Cut(p, false) == |p| - 1
  {
  }

  /** `sourcePile`: the stock is never a source, so it reads as empty. */
  function SourcePile(g: GameState, from: Location): (p: seq<Card>)
    requires WellFormed(g) && ValidLocation(from)
    ensures from.pileType == Stock ==> p == []
    ensures from.pileType != Stock ==> p == Pile(g, from)
  {
    if from.pileType == Stock then [] else Pile(g, from)
  }

  /** `cardsToMove`: the cards a move from `from` takes. */
  function CardsToMove(g: GameState, from: Location): (cards: seq<Card>)
    requires WellFormed(g) && ValidLocation(from) && |SourcePile(g, from)| > 0
    ensures 0 < |cards| <= |SourcePile(g, from)|
    ensures cards == SourcePile(g, from)[|SourcePile(g, from)| - |cards|..]
    ensures from.pileType != Tableau ==> |cards| == 1
  {
    var p := SourcePile(g, from);
    p[Cut(p, from.pileType == Tableau)..]
  }

  /** `valid` in performMove. */
  predicate Legal(g: GameState, from: Location, to: Location)
    requires WellFormed(g) && ValidLocation(from) && ValidLocation(to)
    ensures Legal(g, from, to) ==>
      from.pileType != Stock && |Pile(g, from)| > 0 && (to.pileType == Tableau || to.pileType == Foundation)
  {
    && |SourcePile(g, from)| > 0
    && var cards := CardsToMove(g, from);
    match to.pileType
    case Tableau => CanMoveToTableau(cards[0], g.tableau[to.index])
    case Foundation => |cards| == 1 && CanMoveToFoundation(cards[0], g.foundation[to.index])
    case _ => false
  }

  /** When a move is possible at all: a non-empty source that is not the
      stock, and a tableau or foundation destination that accepts the first
      card moved (a foundation only a single card). */
  lemma LegalCases(g: GameState, from: Location, to: Location)
    requires WellFormed(g) && ValidLocation(from) && ValidLocation(to)
    ensures from.pileType == Stock ==> !Legal(g, from, to)
    ensures to.pileType == Stock || to.pileType == Waste ==> !Legal(g, from, to)
    ensures |Pile(g, from)| == 0 ==> !Legal(g, from, to)
    ensures to.pileType == Foundation && from.pileType == Foundation && to.index == from.index ==> !Legal(g, from, to)
    ensures from.pileType != Stock && |Pile(g, from)| > 0 ==>
      var cards := CardsToMove(g, from);
      && (to.pileType == Tableau ==> (Legal(g, from, to) <==> CanMoveToTableau(cards[0], g.tableau[to.index])))
      && (to.pileType == Foundation ==>
            (Legal(g, from, to) <==> |cards| == 1 && CanMoveToFoundation(cards[0], g.foundation[to.index])))
  {
  }

  // ---------------------------------------------------------------------
  // The move
  // ---------------------------------------------------------------------

  /** The new top of a tableau pile a run was taken from is turned over if
      it is face down; no other card changes. */
  function TopTurnedUp(q: seq<Card>): (r: seq<Card>)
    ensures |r| == |q|
    ensures forall i :: 0 <= i < |q| - 1 ==> r[i] == q[i]
    ensures |q| > 0 ==> r[|q| - 1] == q[|q| - 1].(isFaceUp := true)
    ensures Ids(r) == Ids(q)
  {
    if |q| > 0 && !q[|q| - 1].isFaceUp then
      IdsFlip(q, |q| - 1, true);
      q[|q| - 1 := q[|q| - 1].(isFaceUp := true)]
    else q
  }

  /** What is left of the source pile once the run is taken. */
  function Rest(g: GameState, from: Location): (rest: seq<Card>)
    requires WellFormed(g) && ValidLocation(from) && |SourcePile(g, from)| > 0
    ensures |rest| + |CardsToMove(g, from)| == |SourcePile(g, from)|
    ensures Ids(rest) + Ids(CardsToMove(g, from)) == Ids(SourcePile(g, from))
  {
    var p := SourcePile(g, from);
    var c := Cut(p, from.pileType == Tableau);
    IdsSplit(p, c);
    if from.pileType == Tableau then TopTurnedUp(p[..c]) else p[..c]
  }

  /** The state after a legal move: the run leaves the source (whose new top
      is turned over if it is a tableau pile), is appended to the destination
      as the source then stands, and the counters advance. */
  function Moved(g: GameState, from: Location, to: Location): (r: GameState)
    requires WellFormed(g) && ValidLocation(from) && ValidLocation(to) && Legal(g, from, to)
    ensures WellFormed(r)
  {
    var g2 := Transferred(g, from, to);
    g2.(moves := g.moves + 1, score := g.score + 10, won := g.won || CheckWin(g2.foundation))
  }

  /** The piles after a legal move, before the counters are updated. */
  function Transferred(g: GameState, from: Location, to: Location): (r: GameState)
    requires WellFormed(g) && ValidLocation(from) && ValidLocation(to) && Legal(g, from, to)
    ensures WellFormed(r)
  {
    var g1 := SetPile(g, from, Rest(g, from));
    SetPile(g1, to, Pile(g1, to) + CardsToMove(g, from))
  }

  /** One successful move: moves + 1 and score + 10 whatever the run length;
      won is set when the new foundations are full and never cleared; the
      stock is not touched. */
  lemma MovedCounters(g: GameState, from: Location, to: Location)
    requires WellFormed(g) && ValidLocation(from) && ValidLocation(to) && Legal(g, from, to)
    ensures var r := Moved(g, from, to);
      && r.moves == g.moves + 1 && r.score == g.score + 10
      && (r.won <==> g.won || CheckWin(r.foundation))
      && r.stock == g.stock
  {
  }

  /** Between two different piles, the run leaves the source and lands on top
      of the destination in the same order; every other pile stays as it
      was. */
  lemma MovedPiles(g: GameState, from: Location, to: Location)
    requires WellFormed(g) && ValidLocation(from) && ValidLocation(to) && Legal(g, from, to)
    requires from.pileType != to.pileType || from.index != to.index
    ensures var r := Moved(g, from, to);
      && Pile(r, from) == Rest(g, from)
      && Pile(r, to) == Pile(g, to) + CardsToMove(g, from)
      && (forall other :: ValidLocation(other) && (other.pileType == Tableau || other.pileType == Foundation)
            && !(other.pileType == from.pileType && other.index == from.index)
            && !(other.pileType == to.pileType && other.index == to.index)
            ==> Pile(r, other) == Pile(g, other))
      && (from.pileType != Waste ==> r.waste == g.waste)
  {
  }

  /** The source left behind: the pile below the run, with at most its new
      top card turned face up (out of a tableau pile), or the pile without
      its top card. */
  lemma RestShape(g: GameState, from: Location)
    requires WellFormed(g) && ValidLocation(from) && |SourcePile(g, from)| > 0
    ensures var p, rest := SourcePile(g, from), Rest(g, from);
      var c := |rest|;
      && CardsToMove(g, from) == p[c..]
      && (forall i :: 0 <= i < c - 1 ==> rest[i] == p[i])
      && (c > 0 ==> rest[c - 1] == (if from.pileType == Tableau then p[c - 1].(isFaceUp := true) else p[c - 1]))
  {
  }

  /** A move neither adds nor loses a card. */
  lemma MovedConservesCards(g: GameState, from: Location, to: Location)
    requires WellFormed(g) && ValidLocation(from) && ValidLocation(to) && Legal(g, from, to)
    ensures TotalIds(Moved(g, from, to)) == TotalIds(g)
  {
    var cards := CardsToMove(g, from);
    var rest := Rest(g, from);
    var g1 := SetPile(g, from, rest);
    var d := Pile(g1, to);
    var g2 := SetPile(g1, to, d + cards);
    SetPileIds(g, from, rest);
    SetPileIds(g1, to, d + cards);
    IdsConcat(d, cards);
    assert Transferred(g, from, to) == g2;
    Cancel(TotalIds(g), TotalIds(g1), TotalIds(g2), Ids(Pile(g, from)), Ids(rest), Ids(cards), Ids(d));
  }

  /** The multiset arithmetic of a move: the source loses what the
      destination gains. */
  lemma Cancel(t: multiset<CardId>, t1: multiset<CardId>, t2: multiset<CardId>,
               src: multiset<CardId>, rest: multiset<CardId>, cards: multiset<CardId>, dest: multiset<CardId>)
    requires t1 + src == t + rest
    requires t2 + dest == t1 + (dest + cards)
    requires rest + cards == src
    ensures t2 == t
  {
    forall x ensures t2[x] == t[x] {
      assert (t1 + src)[x] == (t + rest)[x];
      assert (t2 + dest)[x] == (t1 + (dest + cards))[x];
      assert (rest + cards)[x] == src[x];
    }
  }

  // ---------------------------------------------------------------------
  // Reveal
  // ---------------------------------------------------------------------

  /** The click on a tableau pile whose top card is face down: that card is
      turned over. */
  function Revealed(g: GameState, index: nat): (r: GameState)
    requires WellFormed(g) && index < 7 && |g.tableau[index]| > 0
    ensures WellFormed(r)
  {
    var p := g.tableau[index];
    g.(tableau := g.tableau[index := p[|p| - 1 := p[|p| - 1].(isFaceUp := true)]])
  }

  /** Revealing changes only the orientation of that one card. */
  lemma RevealedEffect(g: GameState, index: nat)
    requires WellFormed(g) && index < 7 && |g.tableau[index]| > 0
    ensures var r, p := Revealed(g, index), g.tableau[index];
      && r.stock == g.stock && r.waste == g.waste && r.foundation == g.foundation
      && r.moves == g.moves && r.score == g.score && r.won == g.won
      && (forall t :: 0 <= t < 7 && t != index ==> r.tableau[t] == g.tableau[t])
      && |r.tableau[index]| == |p|
      && (forall i :: 0 <= i < |p| - 1 ==> r.tableau[index][i] == p[i])
      && r.tableau[index][|p| - 1] == p[|p| - 1].(isFaceUp := true)
  {
  }

  /** Revealing neither adds nor loses a card. */
  lemma RevealedConservesCards(g: GameState, index: nat)
    requires WellFormed(g) && index < 7 && |g.tableau[index]| > 0
    ensures TotalIds(Revealed(g, index)) == TotalIds(g)
  {
    var p := g.tableau[index];
    var q := p[|p| - 1 := p[|p| - 1].(isFaceUp := true)];
    var loc := Location(Tableau, index);
    IdsFlip(p, |p| - 1, true);
    SetPileIds(g, loc, q);
    assert Revealed(g, index) == SetPile(g, loc, q);
    CancelSame(TotalIds(Revealed(g, index)), TotalIds(g), Ids(p));
  }

  lemma CancelSame(a: multiset<CardId>, b: multiset<CardId>, m: multiset<CardId>)
    requires a + m == b + m
    ensures a == b
  {
    forall x ensures a[x] == b[x] {
      assert (a + m)[x] == (b + m)[x];
    }
  }
}
