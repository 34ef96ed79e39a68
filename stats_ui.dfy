/** The figures of the statistics panel: the win rate, the average number of
    moves in won games, the two clock figures and the best move count. The
    panel rounds to the nearest whole number with halves going up; here that
    is done on exact integers. */
module StatsUI {
  import opened Types
  import opened Numerals
  import App

  /** n / d rounded to the nearest integer, a half rounded up. */
  function RoundedRatio(n: nat, d: nat): (r: nat)
    requires d > 0
    ensures (2 * r - 1) * d <= 2 * n < (2 * r + 1) * d
  {
    var q := (2 * n + d) / (2 * d);
    DivBounds(2 * n + d, 2 * d);
    assert (2 * q - 1) * d == q * (2 * d) - d && (2 * q + 1) * d == (q + 1) * (2 * d) - d;
    q
  }

  lemma DivBounds(a: nat, b: nat)
    requires b > 0
    ensures (a / b) * b <= a < (a / b + 1) * b
  {
  }

  /** Only one integer is that close to n / d. */
  lemma RoundedRatioUnique(n: nat, d: nat, r: int)
    requires d > 0 && (2 * r - 1) * d <= 2 * n < (2 * r + 1) * d
    ensures r == RoundedRatio(n, d)
  {
    var q := RoundedRatio(n, d);
    CloseUnique(2 * n, d, r, q);
  }

  lemma CloseUnique(x: int, d: nat, r: int, q: int)
    requires d > 0
    requires (2 * r - 1) * d <= x < (2 * r + 1) * d
    requires (2 * q - 1) * d <= x < (2 * q + 1) * d
    ensures r == q
  {
    if r < q {
      MulMonotone(2 * r + 1, 2 * q - 1, d);
    } else if r > q {
      MulMonotone(2 * q + 1, 2 * r - 1, d);
    }
  }

  lemma MulMonotone(a: int, b: int, d: nat)
    requires a <= b
    ensures a * d <= b * d
  {
  }

  /** The win rate in percent: 0 before any game has been started,
      otherwise the nearest whole percentage of games won. */
  function WinRate(stats: GameStats): (r: nat)
    ensures stats.gamesStarted == 0 ==> r == 0
    ensures stats.gamesStarted > 0 ==>
      (2 * r - 1) * stats.gamesStarted <= 200 * stats.gamesWon < (2 * r + 1) * stats.gamesStarted
  {
    if stats.gamesStarted > 0 then RoundedRatio(100 * stats.gamesWon, stats.gamesStarted) else 0
  }

  /** The win rate stays within 0 to 100 while no more games are won than
      started, and is 100 exactly when at least 199 in 200 started games
      were won. */
  lemma WinRateRange(stats: GameStats)
    requires stats.gamesWon <= stats.gamesStarted
    ensures WinRate(stats) <= 100
    ensures stats.gamesStarted > 0 ==> (WinRate(stats) == 100 <==> 200 * stats.gamesWon >= 199 * stats.gamesStarted)
  {
    var s, w, r := stats.gamesStarted, stats.gamesWon, WinRate(stats);
    if s > 0 {
      if r > 100 {
        MulMonotone(201, 2 * r - 1, s);
      }
      if 200 * w >= 199 * s {
        RoundedRatioUnique(100 * w, s, 100);
      }
      if r == 100 {
        assert 199 * s <= 200 * w;
      }
    }
  }

  /** The average move count of won games: 0 before the first win,
      otherwise the nearest whole number to the total over the wins. */
  function AvgMoves(stats: GameStats): (r: nat)
    ensures stats.gamesWon == 0 ==> r == 0
    ensures stats.gamesWon > 0 ==>
      (2 * r - 1) * stats.gamesWon <= 2 * stats.totalMovesInWonGames < (2 * r + 1) * stats.gamesWon
  {
    if stats.gamesWon > 0 then RoundedRatio(stats.totalMovesInWonGames, stats.gamesWon) else 0
  }

  /** The panel's clock figure: "--:--" when there is no time yet, the
      game clock's "m:ss" otherwise. */
  function FormatStatTime(seconds: Option<nat>): (text: string)
    ensures seconds.None? <==> text == "--:--"
    ensures seconds.Some? ==> text == App.FormatTime(seconds.value)
  {
    match seconds
    case None => "--:--"
    case Some(s) =>
      var t := App.FormatTime(s);
      assert AllDigits(t[|t| - 2..]) && t[|t| - 2] != '-';
      t
  }

  /** The Best Moves figure: "---" when there is no best yet, and also when
      the best is 0, which the panel treats as missing; the number
      otherwise. */
  function BestMovesLabel(bestMoves: Option<nat>): (text: string)
    ensures text == "---" <==> bestMoves.None? || bestMoves.value == 0
    ensures bestMoves.Some? && bestMoves.value > 0 ==>
      AllDigits(text) && ParseDecimal(text) == bestMoves.value
    ensures bestMoves.Some? && bestMoves.value > 0 ==> text[0] != '0'
  {
    if bestMoves.None? || bestMoves.value == 0 then "---"
    else
      var t := DecimalString(bestMoves.value);
      ParseDecimalString(bestMoves.value);
      assert IsDigit(t[0]) && t[0] != '-';
      t
  }

  /** The first game of a session is dealt without being counted as
      started: winning it from fresh statistics records one win out of no
      started games, and the win rate shows 0. */
  lemma FirstGameNotCounted(finalMoves: nat, finalTime: nat)
    ensures var s := App.StatsOnWin(App.DefaultStats, finalMoves, finalTime);
      && s.gamesStarted == 0 && s.gamesWon == 1 && WinRate(s) == 0
      && AvgMoves(s) == finalMoves
      && FormatStatTime(s.bestTime) == App.FormatTime(finalTime)
  {
    var s := App.StatsOnWin(App.DefaultStats, finalMoves, finalTime);
    RoundedRatioUnique(finalMoves, 1, finalMoves);
  }
}
