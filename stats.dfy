/** src/lib/stats.ts: the loops of the statistics engine, each proved to
    compute the fold of StatsSpec that defines it, and the win-rate trend. */
module Stats {
  import opened Types
  import opened Rates
  import opened StatsSpec
  import StringOrder
  import Sorting
  import Folds
  import StatsProperties
  import TallyProperties
  import GroupingProperties

  /** getTournamentSummary: one pass over the matches with four counters. */
  method GetTournamentSummary(t: Tournament) returns (s: TournamentSummary)
    ensures s == Summary(t)
    ensures s.id == t.id && s.date == t.date && s.location == t.location
    ensures s.matchWins + s.matchLosses == |t.matches|
    ensures s.gameWins == CountWon(AllGames(t.matches)) && s.gameLosses == CountLost(AllGames(t.matches))
  {
    var matchWins: nat, matchLosses: nat, gameWins: nat, gameLosses: nat := 0, 0, 0, 0;
    var i := 0;
    while i < |t.matches|
      invariant i <= |t.matches|
      invariant Totals(matchWins, matchLosses, gameWins, gameLosses) == MatchTotals(t.matches[..i])
    {
      var result := CalculateMatchResult(t.matches[i]);
      if result.won {
        matchWins := matchWins + 1;
      } else {
        matchLosses := matchLosses + 1;
      }
      gameWins := gameWins + result.wins;
      gameLosses := gameLosses + result.losses;
      assert t.matches[..i + 1][..i] == t.matches[..i];
      i := i + 1;
    }
    assert t.matches[..i] == t.matches;
    s := TournamentSummary(t.id, t.date, t.location, matchWins, matchLosses, gameWins, gameLosses);
    StatsProperties.SummaryProperties(t);
  }

  /** calculateOverallStats: sums the tournament summaries, then rounds the
      match win rate behind the zero guard. */
  method CalculateOverallStats(ts: seq<Tournament>) returns (o: OverallStats)
    ensures o == Overall(ts)
    ensures o.totalMatchWins + o.totalMatchLosses == |AllMatches(ts)|
    ensures 0 <= o.matchWinRate <= 100
    ensures |AllMatches(ts)| == 0 ==> o.matchWinRate == 0
  {
    var totalMatchWins: nat, totalMatchLosses: nat, totalGameWins: nat, totalGameLosses: nat := 0, 0, 0, 0;
    var i := 0;
    while i < |ts|
      invariant i <= |ts|
      invariant Totals(totalMatchWins, totalMatchLosses, totalGameWins, totalGameLosses) == TournamentTotals(ts[..i])
    {
      var summary := GetTournamentSummary(ts[i]);
      totalMatchWins := totalMatchWins + summary.matchWins;
      totalMatchLosses := totalMatchLosses + summary.matchLosses;
      totalGameWins := totalGameWins + summary.gameWins;
      totalGameLosses := totalGameLosses + summary.gameLosses;
      assert ts[..i + 1][..i] == ts[..i];
      i := i + 1;
    }
    assert ts[..i] == ts;
    var totalMatches := totalMatchWins + totalMatchLosses;
    var matchWinRate := RoundedPercent(totalMatchWins, totalMatches);
    o := OverallStats(totalMatchWins, totalMatchLosses, totalGameWins, totalGameLosses, matchWinRate);
    StatsProperties.OverallProperties(ts);
  }

  /** The body of the grouping loop: look up the match's key's record (or a
      fresh one), count the match as a win or a loss, store the record back;
      a key is appended to the key order when it is first stored. */
  method CountMatch(order: seq<string>, counts: map<string, WinLoss>, m: Match, side: Side)
    returns (order': seq<string>, counts': map<string, WinLoss>)
    ensures Tally(order', counts') == Step(Tally(order, counts), m, side)
  {
    order', counts' := order, counts;
    var key := GroupKey(m, side);
    if key.Some? {
      var result := CalculateMatchResult(m);
      var current := if key.value in counts then counts[key.value] else WinLoss(0, 0);
      if result.won {
        current := current.(wins := current.wins + 1);
      } else {
        current := current.(losses := current.losses + 1);
      }
      if key.value !in counts {
        order' := order + [key.value];
      }
      counts' := counts[key.value := current];
    }
  }

  /** The grouping loop shared by the two tables: every match of every
      tournament, in order, is counted under its key. */
  method GroupMatches(ts: seq<Tournament>, side: Side) returns (order: seq<string>, counts: map<string, WinLoss>)
    ensures Tally(order, counts) == TallyOf(AllMatches(ts), side)
  {
    order, counts := [], map[];
    var i := 0;
    while i < |ts|
      invariant i <= |ts|
      invariant Tally(order, counts) == TallyOf(AllMatches(ts[..i]), side)
    {
      var j := 0;
      assert ts[i].matches[..0] == [];
      assert Visited(ts, i, 0) == AllMatches(ts[..i]);
      while j < |ts[i].matches|
        invariant j <= |ts[i].matches|
        invariant Tally(order, counts) == TallyOf(Visited(ts, i, j), side)
      {
        var m := ts[i].matches[j];
        VisitedNext(ts, i, j);
        TallyOfSnoc(Visited(ts, i, j), m, side);
        order, counts := CountMatch(order, counts, m, side);
        j := j + 1;
      }
      VisitedAll(ts, i);
      i := i + 1;
    }
    assert ts[..i] == ts;
  }

  /** calculateDeckStats: group by own deck, one row per key in key order,
      then a stable sort by falling win rate. */
  method CalculateDeckStats(ts: seq<Tournament>) returns (r: seq<DeckStats>)
    ensures r == DeckStatsOf(ts)
    ensures GroupingProperties.DeckNames(r) == set j | 0 <= j < |AllMatches(ts)| :: AllMatches(ts)[j].myDeck
    ensures forall i, j :: 0 <= i < j < |r| ==> r[i].deckName != r[j].deckName
    ensures forall i, j :: 0 <= i < j < |r| ==> !Greater(r[j].winRate, r[i].winRate)
  {
    var order, counts := GroupMatches(ts, OwnDeck);
    DeckBeforeIsWeakOrder();
    r := Sorting.Sort(DeckRows(order, counts), DeckBefore);
    GroupingProperties.DeckStatsKeys(ts);
    GroupingProperties.DeckStatsOrder(ts);
  }

  /** calculateMatchupStats: group by the non-empty opponent decks, one row
      per key, then a stable sort by falling number of matches. */
  method CalculateMatchupStats(ts: seq<Tournament>) returns (r: seq<MatchupStats>)
    ensures r == MatchupStatsOf(ts)
    ensures GroupingProperties.MatchupNames(r) ==
            set j | 0 <= j < |AllMatches(ts)| && AllMatches(ts)[j].opponentDeck != "" :: AllMatches(ts)[j].opponentDeck
    ensures forall i, j :: 0 <= i < j < |r| ==> r[i].opponentDeck != r[j].opponentDeck
    ensures forall i, j :: 0 <= i < j < |r| ==> r[i].wins + r[i].losses >= r[j].wins + r[j].losses
  {
    var order, counts := GroupMatches(ts, OpponentDeck);
    MatchupBeforeIsWeakOrder();
    r := Sorting.Sort(MatchupRows(order, counts), MatchupBefore);
    GroupingProperties.MatchupStatsKeys(ts);
    GroupingProperties.MatchupStatsOrder(ts);
  }

  lemma AllGamesNext(ms: seq<Match>, m: Match)
    ensures AllGames(ms + [m]) == AllGames(ms) + m.games
  {
    assert (ms + [m])[..|ms|] == ms;
  }

  /** calculatePlayDrawStats: three nested loops that sort every game into
      the on-the-play or on-the-draw bucket. */
  method CalculatePlayDrawStats(ts: seq<Tournament>) returns (p: PlayDrawStats)
    ensures p == PlayDraw(ts)
    ensures p.onPlayTotal + p.onDrawTotal == |AllGames(AllMatches(ts))|
    ensures p.onPlayWins + p.onDrawWins == Overall(ts).totalGameWins
  {
    var onPlayWins: nat, onPlayTotal: nat, onDrawWins: nat, onDrawTotal: nat := 0, 0, 0, 0;
    var i := 0;
    while i < |ts|
      invariant i <= |ts|
      invariant Buckets(onPlayWins, onPlayTotal, onDrawWins, onDrawTotal) == BucketsOf(AllGames(AllMatches(ts[..i])))
    {
      var j := 0;
      assert ts[i].matches[..0] == [];
      assert Visited(ts, i, 0) == AllMatches(ts[..i]);
      while j < |ts[i].matches|
        invariant j <= |ts[i].matches|
        invariant Buckets(onPlayWins, onPlayTotal, onDrawWins, onDrawTotal) == BucketsOf(AllGames(Visited(ts, i, j)))
      {
        var games := ts[i].matches[j].games;
        var k := 0;
        assert games[..0] == [];
        assert AllGames(Visited(ts, i, j)) + games[..0] == AllGames(Visited(ts, i, j));
        while k < |games|
          invariant k <= |games|
          invariant Buckets(onPlayWins, onPlayTotal, onDrawWins, onDrawTotal) ==
                    BucketsOf(AllGames(Visited(ts, i, j)) + games[..k])
        {
          var game := games[k];
          if game.onPlay {
            onPlayTotal := onPlayTotal + 1;
            if game.won { onPlayWins := onPlayWins + 1; }
          } else {
            onDrawTotal := onDrawTotal + 1;
            if game.won { onDrawWins := onDrawWins + 1; }
          }
          assert AllGames(Visited(ts, i, j)) + games[..k + 1] == (AllGames(Visited(ts, i, j)) + games[..k]) + [game];
          BucketsOfSnoc(AllGames(Visited(ts, i, j)) + games[..k], game);
          k := k + 1;
        }
        assert games[..k] == games;
        VisitedNext(ts, i, j);
        AllGamesNext(Visited(ts, i, j), ts[i].matches[j]);
        j := j + 1;
      }
      VisitedAll(ts, i);
      i := i + 1;
    }
    assert ts[..i] == ts;
    p := PlayDrawStats(onPlayWins, onPlayTotal, onDrawWins, onDrawTotal,
                       Percent(onPlayWins, onPlayTotal), Percent(onDrawWins, onDrawTotal));
    StatsProperties.PlayDrawProperties(ts);
  }

  /** calculateWinRateTrend: a stably date-sorted copy of the tournaments,
      each mapped to its date and rounded match win rate. One point per
      tournament (equal dates are not merged), dates never decrease,
      every rate lies in 0..100, and the points of one date keep the order
      of their tournaments in the input. */
  function CalculateWinRateTrend(ts: seq<Tournament>): (r: seq<TrendPoint>)
    ensures |r| == |ts|
    ensures multiset(r) == multiset(Folds.MapSeq(ts, TrendPointOf))
    ensures forall i, j :: 0 <= i < j < |r| ==> !StringOrder.Less(r[j].date, r[i].date)
    ensures forall i :: 0 <= i < |r| ==> r[i].winRate <= 100
    ensures forall d :: Folds.Filter(r, PointOn(d)) == Folds.MapSeq(Folds.Filter(ts, HeldOn(d)), TrendPointOf)
  {
    DateBeforeIsWeakOrder();
    var sorted := Sorting.Sort(ts, DateBefore);
    StatsProperties.TrendProperties(ts, sorted);
    Folds.MapSeq(sorted, TrendPointOf)
  }
}
