/** Worked cases of the statistics engine. Each fixes only the fields the
    case is about; every other field of the records is arbitrary. */
module StatsExamples {
  import opened Types
  import opened Rates
  import opened StatsSpec
  import StringOrder
  import Sorting
  import Stats

  lemma CountTwo(a: Game, b: Game)
    ensures CountWon([a, b]) == (if a.won then 1 else 0) + (if b.won then 1 else 0)
    ensures CountLost([a, b]) == (if a.won then 0 else 1) + (if b.won then 0 else 1)
  {
    assert [a, b][..1] == [a];
    assert [a][..0] == [];
    assert CountWon([a]) == (if a.won then 1 else 0);
    assert CountLost([a]) == (if a.won then 0 else 1);
  }

  lemma CountThree(a: Game, b: Game, c: Game)
    ensures CountWon([a, b, c]) == CountWon([a, b]) + (if c.won then 1 else 0)
    ensures CountLost([a, b, c]) == CountLost([a, b]) + (if c.won then 0 else 1)
  {
    assert [a, b, c][..2] == [a, b];
  }

  lemma OneMatch(m: Match)
    ensures MatchTotals([m]) == OfResult(CalculateMatchResult(m))
  {
    assert [m][..0] == [];
  }

  /** A tournament holding one 2-0 win. */
  ghost predicate OneWin(t: Tournament)
  {
    |t.matches| == 1 && t.matches[0].games == [Game(true, true), Game(false, true)]
  }

  /** A tournament holding one 1-2 loss. */
  ghost predicate OneLoss(t: Tournament)
  {
    |t.matches| == 1 && t.matches[0].games == [Game(true, false), Game(false, true), Game(true, false)]
  }

  lemma OneWinTotals(t: Tournament)
    requires OneWin(t)
    ensures SummaryTotals(Summary(t)) == Totals(1, 0, 2, 0)
  {
    assert t.matches == [t.matches[0]];
    CountTwo(Game(true, true), Game(false, true));
    OneMatch(t.matches[0]);
  }

  lemma OneLossTotals(t: Tournament)
    requires OneLoss(t)
    ensures SummaryTotals(Summary(t)) == Totals(0, 1, 1, 2)
  {
    assert t.matches == [t.matches[0]];
    CountTwo(Game(true, false), Game(false, true));
    CountThree(Game(true, false), Game(false, true), Game(true, false));
    OneMatch(t.matches[0]);
  }

  /** A 2-0 win at one tournament and a 1-2 loss at another: one match won,
      one lost, three games won, two lost, rate 50. */
  lemma WinThenLossOverall(t1: Tournament, t2: Tournament)
    requires OneWin(t1) && OneLoss(t2)
    ensures Overall([t1, t2]) == OverallStats(1, 1, 3, 2, 50)
  {
    OneWinTotals(t1);
    OneLossTotals(t2);
    TwoTotals(t1, t2);
  }

  lemma TwoTotals(t1: Tournament, t2: Tournament)
    ensures TournamentTotals([t1, t2]) == Plus(SummaryTotals(Summary(t1)), SummaryTotals(Summary(t2)))
  {
    var ts := [t1, t2];
    assert ts[..1] == [t1] && [t1][..0] == [];
    assert TournamentTotals([]) == Totals(0, 0, 0, 0);
    assert TournamentTotals([t1]) == Plus(Totals(0, 0, 0, 0), SummaryTotals(Summary(t1)));
    assert TournamentTotals(ts) == Plus(TournamentTotals([t1]), SummaryTotals(Summary(t2)));
  }

  /** ... and, dated 2024-01-01 and 2024-01-05, a trend of 100 then 0. */
  lemma WinThenLossTrend(t1: Tournament, t2: Tournament)
    requires OneWin(t1) && OneLoss(t2)
    requires t1.date == "2024-01-01" && t2.date == "2024-01-05"
    ensures Stats.CalculateWinRateTrend([t1, t2]) == [TrendPoint("2024-01-01", 100), TrendPoint("2024-01-05", 0)]
  {
    OneWinPoint(t1);
    OneLossPoint(t2);
    JanuaryOrder();
    StringOrder.LessAsymmetric(t1.date, t2.date);
    SortTwo(t1, t2);
  }

  lemma OneWinPoint(t: Tournament)
    requires OneWin(t)
    ensures TrendPointOf(t) == TrendPoint(t.date, 100)
  {
    OneWinTotals(t);
    assert RoundedPercent(1, 1) == 100;
  }

  lemma OneLossPoint(t: Tournament)
    requires OneLoss(t)
    ensures TrendPointOf(t) == TrendPoint(t.date, 0)
  {
    OneLossTotals(t);
    assert RoundedPercent(0, 1) == 0;
  }

  lemma JanuaryOrder()
    ensures StringOrder.Less("2024-01-01", "2024-01-05")
  {
    var a, b := "2024-01-01", "2024-01-05";
    assert a[..9] == b[..9];
    StringOrder.LessAtFirstDifference(a, b, 9);
  }

  /** Two tournaments already in date order give their points in that order. */
  lemma SortTwo(t1: Tournament, t2: Tournament)
    requires !DateBefore(t2, t1)
    ensures Stats.CalculateWinRateTrend([t1, t2]) == [TrendPointOf(t1), TrendPointOf(t2)]
  {
    DateBeforeIsWeakOrder();
    var ts := [t1, t2];
    assert ts[..1] == [t1] && [t1][..0] == [];
    assert Sorting.Sort([t1], DateBefore) == [t1];
    assert Sorting.Insert([t1], t2, DateBefore) == [t1, t2];
    assert Sorting.Sort(ts, DateBefore) == ts;
  }

  /** A match with no games is a loss and still counts in its tournament. */
  lemma EmptyMatchCountsAsLoss(t: Tournament)
    requires |t.matches| == 1 && t.matches[0].games == []
    ensures CalculateMatchResult(t.matches[0]) == MatchResult(0, 0, false)
    ensures Summary(t).matchWins == 0 && Summary(t).matchLosses == 1
  {
    assert t.matches == [t.matches[0]];
    OneMatch(t.matches[0]);
  }

  /** Four games on the play with three won and two on the draw with none
      won: on-play rate 75, on-draw rate 0. */
  lemma PlayDrawExample(t: Tournament)
    requires |t.matches| == 1
    requires t.matches[0].games == [Game(true, true), Game(false, false), Game(true, true),
                                    Game(false, false), Game(true, true), Game(true, false)]
    ensures var p := PlayDraw([t]);
      && p.onPlayWins == 3 && p.onPlayTotal == 4 && p.onDrawWins == 0 && p.onDrawTotal == 2
      && p.onPlayWinRate.num == 75 * p.onPlayWinRate.den && p.onDrawWinRate.num == 0
  {
    var gs := t.matches[0].games;
    assert t.matches == [t.matches[0]] && [t.matches[0]][..0] == [];
    assert [t][..0] == [];
    assert AllMatches([t]) == t.matches;
    assert AllGames(t.matches) == gs;
    SixGames(gs);
  }

  lemma SixGames(gs: seq<Game>)
    requires gs == [Game(true, true), Game(false, false), Game(true, true),
                    Game(false, false), Game(true, true), Game(true, false)]
    ensures BucketsOf(gs) == Buckets(3, 4, 0, 2)
  {
    var h := gs[..3];
    assert h == [Game(true, true), Game(false, false), Game(true, true)];
    var w := [Game(true, true)];
    assert h[..2] == w + [Game(false, false)] && w[..0] == [];
    assert BucketsOf(w) == Buckets(1, 1, 0, 0);
    BucketsOfSnoc(w, Game(false, false));
    BucketsOfSnoc(h[..2], Game(true, true));
    assert h == h[..2] + [Game(true, true)];
    assert BucketsOf(h) == Buckets(2, 2, 0, 1);
    assert gs[..4] == h + [gs[3]] && gs[..5] == gs[..4] + [gs[4]] && gs == gs[..5] + [gs[5]];
    BucketsOfSnoc(h, gs[3]);
    BucketsOfSnoc(gs[..4], gs[4]);
    BucketsOfSnoc(gs[..5], gs[5]);
  }
}
