/** The statistics of src/lib/stats.ts as folds over the tournament tree:
    the records the engine returns, the reference definitions its loops are
    proved against, and the orders its sorts use. */
module StatsSpec {
  import opened Types
  import opened Rates
  import StringOrder
  import Sorting
  import Folds

  // ----- games and matches -----

  /** `games.filter(g => g.won).length`. */
  function CountWon(gs: seq<Game>): nat
  {
    if |gs| == 0 then 0 else CountWon(gs[..|gs| - 1]) + (if gs[|gs| - 1].won then 1 else 0)
  }

  /** `games.filter(g => !g.won).length`. */
  function CountLost(gs: seq<Game>): nat
  {
    if |gs| == 0 then 0 else CountLost(gs[..|gs| - 1]) + (if gs[|gs| - 1].won then 0 else 1)
  }

  /** Every game is either won or lost. */
  lemma {:induction false} WonPlusLost(gs: seq<Game>)
    ensures CountWon(gs) + CountLost(gs) == |gs|
    decreases |gs|
  {
    if |gs| > 0 {
      WonPlusLost(gs[..|gs| - 1]);
    }
  }

  lemma {:induction false} CountAppend(a: seq<Game>, b: seq<Game>)
    ensures CountWon(a + b) == CountWon(a) + CountWon(b)
    ensures CountLost(a + b) == CountLost(a) + CountLost(b)
    decreases |b|
  {
    if |b| == 0 {
      assert a + b == a;
    } else {
      assert (a + b)[..|a + b| - 1] == a + b[..|b| - 1];
      CountAppend(a, b[..|b| - 1]);
    }
  }

  datatype MatchResult = MatchResult(wins: nat, losses: nat, won: bool)

  /** calculateMatchResult: a match is won exactly when more than half of
      its games are won, so a tie or an empty match is a loss. */
  function CalculateMatchResult(m: Match): (r: MatchResult)
    ensures r.wins + r.losses == |m.games|
    ensures r.won <==> 2 * r.wins > |m.games|
    ensures |m.games| == 0 ==> r == MatchResult(0, 0, false)
  {
    WonPlusLost(m.games);
    MatchResult(CountWon(m.games), CountLost(m.games), CountWon(m.games) > CountLost(m.games))
  }

  // ----- per-tournament and overall totals -----

  datatype Totals = Totals(matchWins: nat, matchLosses: nat, gameWins: nat, gameLosses: nat)

  function Plus(a: Totals, b: Totals): Totals
  {
    Totals(a.matchWins + b.matchWins, a.matchLosses + b.matchLosses,
           a.gameWins + b.gameWins, a.gameLosses + b.gameLosses)
  }

  /** What one match adds: one match win or loss, and its game counts. */
  function OfResult(r: MatchResult): Totals
  {
    Totals(if r.won then 1 else 0, if r.won then 0 else 1, r.wins, r.losses)
  }

  /** The forEach of getTournamentSummary over a list of matches. */
  function MatchTotals(ms: seq<Match>): Totals
  {
    if |ms| == 0 then Totals(0, 0, 0, 0)
    else Plus(MatchTotals(ms[..|ms| - 1]), OfResult(CalculateMatchResult(ms[|ms| - 1])))
  }

  datatype TournamentSummary = TournamentSummary(
    id: string, date: string, location: string,
    matchWins: nat, matchLosses: nat, gameWins: nat, gameLosses: nat)

  /** The summary getTournamentSummary returns. */
  function Summary(t: Tournament): TournamentSummary
  {
    var tot := MatchTotals(t.matches);
    TournamentSummary(t.id, t.date, t.location, tot.matchWins, tot.matchLosses, tot.gameWins, tot.gameLosses)
  }

  function SummaryTotals(s: TournamentSummary): Totals
  {
    Totals(s.matchWins, s.matchLosses, s.gameWins, s.gameLosses)
  }

  /** The forEach of calculateOverallStats over the tournaments. */
  function TournamentTotals(ts: seq<Tournament>): Totals
  {
    if |ts| == 0 then Totals(0, 0, 0, 0)
    else Plus(TournamentTotals(ts[..|ts| - 1]), SummaryTotals(Summary(ts[|ts| - 1])))
  }

  datatype OverallStats = OverallStats(
    totalMatchWins: nat, totalMatchLosses: nat, totalGameWins: nat, totalGameLosses: nat,
    matchWinRate: nat)

  /** The record calculateOverallStats returns. */
  function Overall(ts: seq<Tournament>): OverallStats
  {
    var tot := TournamentTotals(ts);
    OverallStats(tot.matchWins, tot.matchLosses, tot.gameWins, tot.gameLosses,
                 RoundedPercent(tot.matchWins, tot.matchWins + tot.matchLosses))
  }

  // ----- grouping by deck (a JavaScript Map keeps keys in first-insertion order) -----

  datatype WinLoss = WinLoss(wins: nat, losses: nat)

  /** A `Map<string, {wins, losses}>`: its keys in insertion order and its entries. */
  datatype Tally = Tally(order: seq<string>, counts: map<string, WinLoss>)

  /** Keys listed once each, and exactly the keys of the map. */
  ghost predicate TallyValid(t: Tally)
  {
    && (forall i, j :: 0 <= i < j < |t.order| ==> t.order[i] != t.order[j])
    && (forall k :: k in t.counts <==> k in t.order)
  }

  /** Which side of the match a table groups by. */
  datatype Side = OwnDeck | OpponentDeck

  /** The key a match is filed under; matchup stats skip a match whose
      opponent deck is empty (`if (!match.opponentDeck) return`). */
  function GroupKey(m: Match, side: Side): Option<string>
  {
    match side
    case OwnDeck => Some(m.myDeck)
    case OpponentDeck => if m.opponentDeck == "" then None else Some(m.opponentDeck)
  }

  /** `get(key) || {wins: 0, losses: 0}`, one increment, then `set(key, ...)`. */
  function Record(t: Tally, key: string, won: bool): Tally
  {
    var current := if key in t.counts then t.counts[key] else WinLoss(0, 0);
    var updated := if won then current.(wins := current.wins + 1) else current.(losses := current.losses + 1);
    Tally(if key in t.counts then t.order else t.order + [key], t.counts[key := updated])
  }

  function Step(t: Tally, m: Match, side: Side): Tally
  {
    match GroupKey(m, side)
    case None => t
    case Some(k) => Record(t, k, CalculateMatchResult(m).won)
  }

  /** The map after visiting `ms` in order. */
  function TallyOf(ms: seq<Match>, side: Side): (r: Tally)
    ensures TallyValid(r)
  {
    if |ms| == 0 then Tally([], map[])
    else
      var prev := TallyOf(ms[..|ms| - 1], side);
      var r := Step(prev, ms[|ms| - 1], side);
      assert TallyValid(r) by {
        if GroupKey(ms[|ms| - 1], side).Some? {
          var k := GroupKey(ms[|ms| - 1], side).value;
          if k !in prev.counts {
            assert k !in prev.order;
          }
        }
      }
      r
  }

  lemma TallyOfSnoc(ms: seq<Match>, m: Match, side: Side)
    ensures TallyOf(ms + [m], side) == Step(TallyOf(ms, side), m, side)
  {
    assert (ms + [m])[..|ms|] == ms;
  }

  // ----- deck stats -----

  datatype DeckStats = DeckStats(deckName: string, matchWins: nat, matchLosses: nat, winRate: Ratio)

  function DeckRow(name: string, wl: WinLoss): DeckStats
  {
    DeckStats(name, wl.wins, wl.losses, Percent(wl.wins, wl.wins + wl.losses))
  }

  /** `Array.from(deckMap.entries()).map(...)`: one row per key, in key order. */
  function DeckRows(order: seq<string>, counts: map<string, WinLoss>): (r: seq<DeckStats>)
    requires forall k :: k in order ==> k in counts
    ensures |r| == |order|
    ensures forall i :: 0 <= i < |order| ==> r[i] == DeckRow(order[i], counts[order[i]])
  {
    if |order| == 0 then []
    else DeckRows(order[..|order| - 1], counts) + [DeckRow(order[|order| - 1], counts[order[|order| - 1]])]
  }

  /** `(a, b) => b.winRate - a.winRate` is negative: `a` has the higher rate. */
  predicate DeckBefore(a: DeckStats, b: DeckStats)
  {
    Greater(a.winRate, b.winRate)
  }

  lemma DeckBeforeIsWeakOrder()
    ensures Sorting.StrictWeakOrder(DeckBefore)
  {
    forall x: DeckStats, y: DeckStats, z: DeckStats | DeckBefore(x, y) && DeckBefore(y, z)
      ensures DeckBefore(x, z)
    {
      GreaterTransitive(x.winRate, y.winRate, z.winRate);
    }
    forall x: DeckStats, y: DeckStats, z: DeckStats | DeckBefore(x, z)
      ensures DeckBefore(x, y) || DeckBefore(y, z)
    {
      if !DeckBefore(x, y) && !DeckBefore(y, z) {
        AtMostTransitive(x.winRate, y.winRate, z.winRate);
      }
    }
  }

  function DeckRowsOf(ts: seq<Tournament>): seq<DeckStats>
  {
    var t := TallyOf(AllMatches(ts), OwnDeck);
    DeckRows(t.order, t.counts)
  }

  /** The list calculateDeckStats returns. */
  function DeckStatsOf(ts: seq<Tournament>): seq<DeckStats>
  {
    DeckBeforeIsWeakOrder();
    Sorting.Sort(DeckRowsOf(ts), DeckBefore)
  }

  // ----- matchup stats -----

  datatype MatchupStats = MatchupStats(opponentDeck: string, wins: nat, losses: nat, winRate: Ratio)

  function MatchupRow(name: string, wl: WinLoss): MatchupStats
  {
    MatchupStats(name, wl.wins, wl.losses, Percent(wl.wins, wl.wins + wl.losses))
  }

  function MatchupRows(order: seq<string>, counts: map<string, WinLoss>): (r: seq<MatchupStats>)
    requires forall k :: k in order ==> k in counts
    ensures |r| == |order|
    ensures forall i :: 0 <= i < |order| ==> r[i] == MatchupRow(order[i], counts[order[i]])
  {
    if |order| == 0 then []
    else MatchupRows(order[..|order| - 1], counts) + [MatchupRow(order[|order| - 1], counts[order[|order| - 1]])]
  }

  /** `(a, b) => (b.wins + b.losses) - (a.wins + a.losses)` is negative. */
  predicate MatchupBefore(a: MatchupStats, b: MatchupStats)
  {
    a.wins + a.losses > b.wins + b.losses
  }

  lemma MatchupBeforeIsWeakOrder()
    ensures Sorting.StrictWeakOrder(MatchupBefore)
  {
  }

  function MatchupRowsOf(ts: seq<Tournament>): seq<MatchupStats>
  {
    var t := TallyOf(AllMatches(ts), OpponentDeck);
    MatchupRows(t.order, t.counts)
  }

  /** The list calculateMatchupStats returns. */
  function MatchupStatsOf(ts: seq<Tournament>): seq<MatchupStats>
  {
    MatchupBeforeIsWeakOrder();
    Sorting.Sort(MatchupRowsOf(ts), MatchupBefore)
  }

  // ----- play / draw -----

  datatype Buckets = Buckets(playWins: nat, playTotal: nat, drawWins: nat, drawTotal: nat)

  function AddGame(b: Buckets, g: Game): Buckets
  {
    if g.onPlay then b.(playTotal := b.playTotal + 1, playWins := b.playWins + if g.won then 1 else 0)
    else b.(drawTotal := b.drawTotal + 1, drawWins := b.drawWins + if g.won then 1 else 0)
  }

  /** The counters after visiting the games `gs` in order. */
  function BucketsOf(gs: seq<Game>): Buckets
  {
    if |gs| == 0 then Buckets(0, 0, 0, 0) else AddGame(BucketsOf(gs[..|gs| - 1]), gs[|gs| - 1])
  }

  lemma BucketsOfSnoc(gs: seq<Game>, g: Game)
    ensures BucketsOf(gs + [g]) == AddGame(BucketsOf(gs), g)
  {
    assert (gs + [g])[..|gs|] == gs;
  }

  datatype PlayDrawStats = PlayDrawStats(
    onPlayWins: nat, onPlayTotal: nat, onDrawWins: nat, onDrawTotal: nat,
    onPlayWinRate: Ratio, onDrawWinRate: Ratio)

  function PlayDrawOf(b: Buckets): PlayDrawStats
  {
    PlayDrawStats(b.playWins, b.playTotal, b.drawWins, b.drawTotal,
                  Percent(b.playWins, b.playTotal), Percent(b.drawWins, b.drawTotal))
  }

  /** The record calculatePlayDrawStats returns. */
  function PlayDraw(ts: seq<Tournament>): PlayDrawStats
  {
    PlayDrawOf(BucketsOf(AllGames(AllMatches(ts))))
  }

  // ----- win-rate trend -----

  datatype TrendPoint = TrendPoint(date: string, winRate: nat)

  function TrendPointOf(t: Tournament): TrendPoint
  {
    var s := Summary(t);
    TrendPoint(t.date, RoundedPercent(s.matchWins, s.matchWins + s.matchLosses))
  }

  /** The tournaments held on date `d`. */
  function HeldOn(d: string): Tournament -> bool
  {
    (t: Tournament) => t.date == d
  }

  /** The trend points dated `d`. */
  function PointOn(d: string): TrendPoint -> bool
  {
    (p: TrendPoint) => p.date == d
  }

  /** `new Date(a.date).getTime() - new Date(b.date).getTime()` is negative,
      with dates as ISO `YYYY-MM-DD` strings. */
  predicate DateBefore(a: Tournament, b: Tournament)
  {
    StringOrder.Less(a.date, b.date)
  }

  lemma DateBeforeIsWeakOrder()
    ensures Sorting.StrictWeakOrder(DateBefore)
  {
    forall x: Tournament
      ensures !DateBefore(x, x)
    {
      StringOrder.LessIrreflexive(x.date);
    }
    forall x: Tournament, y: Tournament, z: Tournament | DateBefore(x, y) && DateBefore(y, z)
      ensures DateBefore(x, z)
    {
      StringOrder.LessTransitive(x.date, y.date, z.date);
    }
    forall x: Tournament, y: Tournament, z: Tournament | DateBefore(x, z)
      ensures DateBefore(x, y) || DateBefore(y, z)
    {
      if y.date != x.date && y.date != z.date {
        StringOrder.LessTotal(x.date, y.date);
        if StringOrder.Less(y.date, x.date) {
          StringOrder.LessTransitive(y.date, x.date, z.date);
        }
      }
    }
  }
}
