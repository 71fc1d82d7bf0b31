/** What the statistics of src/lib/stats.ts promise, proved about the folds
    of StatsSpec: counting identities, zero guards, bounds, grouping, order. */
module StatsProperties {
  import opened Types
  import opened Rates
  import opened StatsSpec
  import Sorting
  import Folds
  import StringOrder

  // ----- match and tournament totals -----

  lemma {:induction false} MatchTotalsAppend(a: seq<Match>, b: seq<Match>)
    ensures MatchTotals(a + b) == Plus(MatchTotals(a), MatchTotals(b))
    decreases |b|
  {
    if |b| == 0 {
      assert a + b == a;
      assert MatchTotals(b) == Totals(0, 0, 0, 0);
    } else {
      var b', last := b[..|b| - 1], b[|b| - 1];
      assert (a + b)[..|a + b| - 1] == a + b';
      assert (a + b)[|a + b| - 1] == last;
      var step := OfResult(CalculateMatchResult(last));
      assert MatchTotals(a + b) == Plus(MatchTotals(a + b'), step);
      assert MatchTotals(b) == Plus(MatchTotals(b'), step);
      MatchTotalsAppend(a, b');
      PlusAssoc(MatchTotals(a), MatchTotals(b'), step);
    }
  }

  lemma PlusAssoc(x: Totals, y: Totals, z: Totals)
    ensures Plus(Plus(x, y), z) == Plus(x, Plus(y, z))
  {
  }

  /** Every match is won or lost; the game counts are those of all games. */
  lemma {:induction false} MatchTotalsCounts(ms: seq<Match>)
    ensures MatchTotals(ms).matchWins + MatchTotals(ms).matchLosses == |ms|
    ensures MatchTotals(ms).gameWins == CountWon(AllGames(ms))
    ensures MatchTotals(ms).gameLosses == CountLost(AllGames(ms))
    decreases |ms|
  {
    if |ms| > 0 {
      var init := ms[..|ms| - 1];
      MatchTotalsCounts(init);
      CountAppend(AllGames(init), ms[|ms| - 1].games);
    }
  }

  /** getTournamentSummary: the id, date and location are copied; every match
      counts once as a win or a loss; the game counts add up the matches'. */
  lemma SummaryProperties(t: Tournament)
    ensures Summary(t).id == t.id && Summary(t).date == t.date && Summary(t).location == t.location
    ensures Summary(t).matchWins + Summary(t).matchLosses == |t.matches|
    ensures Summary(t).gameWins == CountWon(AllGames(t.matches))
    ensures Summary(t).gameLosses == CountLost(AllGames(t.matches))
    ensures Summary(t).gameWins + Summary(t).gameLosses == |AllGames(t.matches)|
  {
    MatchTotalsCounts(t.matches);
    WonPlusLost(AllGames(t.matches));
  }

  /** Summing tournament summaries is counting over all matches at once. */
  lemma {:induction false} TournamentTotalsFlat(ts: seq<Tournament>)
    ensures TournamentTotals(ts) == MatchTotals(AllMatches(ts))
    decreases |ts|
  {
    if |ts| > 0 {
      var init := ts[..|ts| - 1];
      TournamentTotalsFlat(init);
      MatchTotalsAppend(AllMatches(init), ts[|ts| - 1].matches);
    }
  }

  /** calculateOverallStats([]) is all zeros. */
  lemma OverallEmpty()
    ensures Overall([]) == OverallStats(0, 0, 0, 0, 0)
  {
  }

  /** calculateOverallStats: the totals count every match and game of every
      tournament; the rate is 0 without matches, else the nearest integer to
      100 * wins / matches (halves up), which lies in 0..100. */
  lemma OverallProperties(ts: seq<Tournament>)
    ensures var o := Overall(ts);
      && o.totalMatchWins + o.totalMatchLosses == |AllMatches(ts)|
      && o.totalGameWins == CountWon(AllGames(AllMatches(ts)))
      && o.totalGameLosses == CountLost(AllGames(AllMatches(ts)))
      && 0 <= o.matchWinRate <= 100
      && (|AllMatches(ts)| == 0 ==> o.matchWinRate == 0)
      && (|AllMatches(ts)| > 0 ==>
            2 * |AllMatches(ts)| * o.matchWinRate <= 200 * o.totalMatchWins + |AllMatches(ts)|
                                                   < 2 * |AllMatches(ts)| * o.matchWinRate + 2 * |AllMatches(ts)|)
  {
    TournamentTotalsFlat(ts);
    MatchTotalsCounts(AllMatches(ts));
    var tot := TournamentTotals(ts);
    RoundedPercentBounded(tot.matchWins, tot.matchWins + tot.matchLosses);
    if |AllMatches(ts)| > 0 {
      RoundedPercentNearest(tot.matchWins, tot.matchWins + tot.matchLosses);
    }
  }

  // ----- play / draw -----

  lemma {:induction false} BucketsCounts(gs: seq<Game>)
    ensures var b := BucketsOf(gs);
      && b.playTotal + b.drawTotal == |gs|
      && b.playWins <= b.playTotal && b.drawWins <= b.drawTotal
      && b.playWins + b.drawWins == CountWon(gs)
    decreases |gs|
  {
    if |gs| > 0 {
      BucketsCounts(gs[..|gs| - 1]);
    }
  }

  /** calculatePlayDrawStats: every game lands in exactly one bucket, a
      bucket's wins are part of it, all game wins are counted, and a rate is 0
      for an empty bucket and between 0 and 100 otherwise. */
  lemma PlayDrawProperties(ts: seq<Tournament>)
    ensures var p := PlayDraw(ts);
      && p.onPlayTotal + p.onDrawTotal == |AllGames(AllMatches(ts))|
      && p.onPlayWins <= p.onPlayTotal && p.onDrawWins <= p.onDrawTotal
      && p.onPlayWins + p.onDrawWins == Overall(ts).totalGameWins
      && (p.onPlayTotal == 0 ==> p.onPlayWinRate.num == 0)
      && (p.onDrawTotal == 0 ==> p.onDrawWinRate.num == 0)
      && p.onPlayWinRate.num <= 100 * p.onPlayWinRate.den
      && p.onDrawWinRate.num <= 100 * p.onDrawWinRate.den
  {
    var gs := AllGames(AllMatches(ts));
    BucketsCounts(gs);
    OverallProperties(ts);
    var b := BucketsOf(gs);
    if b.playTotal > 0 { PercentValue(b.playWins, b.playTotal); }
    if b.drawTotal > 0 { PercentValue(b.drawWins, b.drawTotal); }
  }

  // ----- win-rate trend -----

  /** Under the date order, the tournaments tied with `y` are those held on
      its date, in their order. */
  lemma {:induction false} DateTiesHeldOn(s: seq<Tournament>, y: Tournament)
    ensures Sorting.TiesWith(s, DateBefore, y) == Folds.Filter(s, HeldOn(y.date))
    decreases |s|
  {
    if |s| > 0 {
      var h, t := s[0], s[1..];
      assert s == [h] + t;
      DateTiesHeldOn(t, y);
      Folds.FilterAppend([h], t, HeldOn(y.date));
      assert Folds.Filter([h], HeldOn(y.date)) == (if h.date == y.date then [h] else []) by {
        assert [h][..0] == [];
      }
      if h.date == y.date {
        StringOrder.LessIrreflexive(h.date);
      } else {
        StringOrder.LessTotal(h.date, y.date);
      }
    }
  }

  /** The points of one date are the points of the tournaments held then. */
  lemma {:induction false} PointsOnDate(s: seq<Tournament>, d: string)
    ensures Folds.Filter(Folds.MapSeq(s, TrendPointOf), PointOn(d))
         == Folds.MapSeq(Folds.Filter(s, HeldOn(d)), TrendPointOf)
    decreases |s|
  {
    if |s| > 0 {
      var init, x := s[..|s| - 1], s[|s| - 1];
      var m := Folds.MapSeq(s, TrendPointOf);
      assert m[..|m| - 1] == Folds.MapSeq(init, TrendPointOf);
      assert m[|m| - 1] == TrendPointOf(x);
      PointsOnDate(init, d);
      var last := if x.date == d then [x] else [];
      Folds.MapSeqAppend(Folds.Filter(init, HeldOn(d)), last, TrendPointOf);
      assert Folds.MapSeq(last, TrendPointOf) == (if x.date == d then [TrendPointOf(x)] else []);
    }
  }

  /** calculateWinRateTrend sorts stably: the points of one date come in the
      order of their tournaments in the input. */
  lemma TrendTies(ts: seq<Tournament>, sorted: seq<Tournament>, d: string)
    requires forall y :: Sorting.TiesWith(sorted, DateBefore, y) == Sorting.TiesWith(ts, DateBefore, y)
    ensures Folds.Filter(Folds.MapSeq(sorted, TrendPointOf), PointOn(d))
         == Folds.MapSeq(Folds.Filter(ts, HeldOn(d)), TrendPointOf)
  {
    var y := Tournament("", d, "", "", []);
    DateTiesHeldOn(sorted, y);
    DateTiesHeldOn(ts, y);
    PointsOnDate(sorted, d);
  }

  /** The trend of a stably date-sorted permutation `sorted` of `ts`: one
      point per tournament, dates never decreasing, rates in 0..100, and the
      points of one date in the order of their tournaments in `ts`. */
  lemma TrendProperties(ts: seq<Tournament>, sorted: seq<Tournament>)
    requires multiset(sorted) == multiset(ts)
    requires Sorting.SortedBy(sorted, DateBefore)
    requires forall y :: Sorting.TiesWith(sorted, DateBefore, y) == Sorting.TiesWith(ts, DateBefore, y)
    ensures var r := Folds.MapSeq(sorted, TrendPointOf);
      && |r| == |ts|
      && multiset(r) == multiset(Folds.MapSeq(ts, TrendPointOf))
      && (forall i, j :: 0 <= i < j < |r| ==> !StringOrder.Less(r[j].date, r[i].date))
      && (forall i :: 0 <= i < |r| ==> r[i].winRate <= 100)
      && (forall d :: Folds.Filter(r, PointOn(d)) == Folds.MapSeq(Folds.Filter(ts, HeldOn(d)), TrendPointOf))
  {
    assert |sorted| == |ts| by {
      assert |multiset(sorted)| == |multiset(ts)|;
    }
    Folds.MapSeqPermutation(sorted, ts, TrendPointOf);
    TrendBounded(sorted);
    TrendTiesAll(ts, sorted);
  }

  /** Every point's rate lies in 0..100. */
  lemma TrendBounded(s: seq<Tournament>)
    ensures forall i :: 0 <= i < |s| ==> TrendPointOf(s[i]).winRate <= 100
  {
    forall i | 0 <= i < |s|
      ensures TrendPointOf(s[i]).winRate <= 100
    {
      var sm := Summary(s[i]);
      SummaryProperties(s[i]);
      RoundedPercentBounded(sm.matchWins, sm.matchWins + sm.matchLosses);
    }
  }

  lemma TrendTiesAll(ts: seq<Tournament>, sorted: seq<Tournament>)
    requires forall y :: Sorting.TiesWith(sorted, DateBefore, y) == Sorting.TiesWith(ts, DateBefore, y)
    ensures forall d :: Folds.Filter(Folds.MapSeq(sorted, TrendPointOf), PointOn(d))
                     == Folds.MapSeq(Folds.Filter(ts, HeldOn(d)), TrendPointOf)
  {
    forall d
      ensures Folds.Filter(Folds.MapSeq(sorted, TrendPointOf), PointOn(d))
           == Folds.MapSeq(Folds.Filter(ts, HeldOn(d)), TrendPointOf)
    {
      TrendTies(ts, sorted, d);
    }
  }
}
