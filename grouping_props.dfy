/** The tables of calculateDeckStats and calculateMatchupStats: one entry per
    key present, the counts under each key, the total they add up to, the
    order of the rows and the order of rows the comparator cannot tell apart. */
module GroupingProperties {
  import opened Types
  import opened Rates
  import opened StatsSpec
  import opened TallyProperties
  import Sorting
  import Folds

  // ----- deck stats -----

  function DeckName(d: DeckStats): string { d.deckName }

  function DeckTotal(d: DeckStats): nat { d.matchWins + d.matchLosses }

  lemma {:induction false} DeckRowsSum(order: seq<string>, counts: map<string, WinLoss>)
    requires forall k :: k in order ==> k in counts
    ensures Folds.SumBy(DeckRows(order, counts), DeckTotal) == KeySum(order, counts)
    decreases |order|
  {
    if |order| > 0 {
      var init := order[..|order| - 1];
      var rows := DeckRows(order, counts);
      assert rows[..|rows| - 1] == DeckRows(init, counts);
      DeckRowsSum(init, counts);
    }
  }

  /** Every entry of the sorted table is one of the unsorted rows. */
  lemma DeckEntryIsRow(ts: seq<Tournament>, i: nat) returns (p: nat)
    requires i < |DeckStatsOf(ts)|
    ensures p < |DeckRowsOf(ts)| && DeckStatsOf(ts)[i] == DeckRowsOf(ts)[p]
  {
    var r, rows := DeckStatsOf(ts), DeckRowsOf(ts);
    assert r[i] in multiset(r);
    assert r[i] in rows;
    p :| 0 <= p < |rows| && rows[p] == r[i];
  }

  /** The deck names of a list of entries. */
  function DeckNames(r: seq<DeckStats>): set<string>
  {
    set i | 0 <= i < |r| :: r[i].deckName
  }

  lemma DeckNamesOfRows(order: seq<string>, counts: map<string, WinLoss>)
    requires forall k :: k in order ==> k in counts
    ensures DeckNames(DeckRows(order, counts)) == set k | k in order
    ensures (forall i, j :: 0 <= i < j < |order| ==> order[i] != order[j]) ==>
            var rows := DeckRows(order, counts);
            forall i, j :: 0 <= i < j < |rows| ==> rows[i].deckName != rows[j].deckName
  {
    var rows := DeckRows(order, counts);
    forall k | k in order
      ensures k in DeckNames(rows)
    {
      var p :| 0 <= p < |order| && order[p] == k;
      assert rows[p].deckName == k;
    }
  }

  /** A permutation has the same names, and no repeated name if the
      original had none. */
  lemma DeckNamesPermutation(rows: seq<DeckStats>, r: seq<DeckStats>)
    requires multiset(r) == multiset(rows)
    ensures DeckNames(r) == DeckNames(rows)
    ensures (forall i, j :: 0 <= i < j < |rows| ==> rows[i].deckName != rows[j].deckName) ==>
            (forall i, j :: 0 <= i < j < |r| ==> r[i].deckName != r[j].deckName)
  {
    forall d | d in DeckNames(r)
      ensures d in DeckNames(rows)
    {
      var i :| 0 <= i < |r| && r[i].deckName == d;
      assert r[i] in multiset(rows);
      var p :| 0 <= p < |rows| && rows[p] == r[i];
    }
    forall d | d in DeckNames(rows)
      ensures d in DeckNames(r)
    {
      var p :| 0 <= p < |rows| && rows[p].deckName == d;
      assert rows[p] in multiset(r);
      var i :| 0 <= i < |r| && r[i] == rows[p];
    }
    var names, rowNames := Folds.MapSeq(r, DeckName), Folds.MapSeq(rows, DeckName);
    Folds.MapSeqPermutation(rows, r, DeckName);
    if forall i, j :: 0 <= i < j < |rows| ==> rows[i].deckName != rows[j].deckName {
      assert Folds.Distinct(rowNames);
      Folds.DistinctPermutation(rowNames, names);
    }
  }

  /** The keys of the own-deck map are the decks of the matches. */
  lemma OwnDeckKeys(ms: seq<Match>)
    ensures (set k | k in TallyOf(ms, OwnDeck).order) == set j | 0 <= j < |ms| :: ms[j].myDeck
  {
    var t := TallyOf(ms, OwnDeck);
    forall k | k in t.order
      ensures k in set j | 0 <= j < |ms| :: ms[j].myDeck
    {
      TallyCounts(ms, OwnDeck, k);
      var j :| 0 <= j < |ms| && GroupKey(ms[j], OwnDeck) == Some(k);
    }
    forall j | 0 <= j < |ms|
      ensures ms[j].myDeck in t.order
    {
      TallyCounts(ms, OwnDeck, ms[j].myDeck);
      assert GroupKey(ms[j], OwnDeck) == Some(ms[j].myDeck);
    }
  }

  /** calculateDeckStats lists exactly the decks the player used, each once:
      a name is in the table iff some match was played with that deck. */
  lemma DeckStatsKeys(ts: seq<Tournament>)
    ensures var r, ms := DeckStatsOf(ts), AllMatches(ts);
      && DeckNames(r) == (set j | 0 <= j < |ms| :: ms[j].myDeck)
      && (forall i, j :: 0 <= i < j < |r| ==> r[i].deckName != r[j].deckName)
  {
    var r, ms := DeckStatsOf(ts), AllMatches(ts);
    var t, rows := TallyOf(ms, OwnDeck), DeckRowsOf(ts);
    DeckNamesOfRows(t.order, t.counts);
    OwnDeckKeys(ms);
    DeckNamesPermutation(rows, r);
  }

  /** Entry `i` counts the matches won and lost with that deck, has at
      least one match, and has rate 100 * wins / (wins + losses). */
  lemma DeckEntryCounts(ts: seq<Tournament>, i: nat)
    requires i < |DeckStatsOf(ts)|
    ensures var e, ms := DeckStatsOf(ts)[i], AllMatches(ts);
      && e.matchWins == CountKeyed(ms, OwnDeck, e.deckName, true)
      && e.matchLosses == CountKeyed(ms, OwnDeck, e.deckName, false)
      && e.matchWins + e.matchLosses > 0
      && e.winRate == Percent(e.matchWins, e.matchWins + e.matchLosses)
  {
    var ms := AllMatches(ts);
    var t := TallyOf(ms, OwnDeck);
    var p := DeckEntryIsRow(ts, i);
    var k := t.order[p];
    var e := DeckRows(t.order, t.counts)[p];
    assert e == DeckRow(k, t.counts[k]);
    TallyCounts(ms, OwnDeck, k);
    CountKeyedPositive(ms, OwnDeck, k);
    assert t.counts[k] == WinLoss(CountKeyed(ms, OwnDeck, k, true), CountKeyed(ms, OwnDeck, k, false));
  }

  /** calculateDeckStats: every entry's counts and rate, as in DeckEntryCounts. */
  lemma DeckStatsCounts(ts: seq<Tournament>)
    ensures var r, ms := DeckStatsOf(ts), AllMatches(ts);
      forall i :: 0 <= i < |r| ==>
        && r[i].matchWins == CountKeyed(ms, OwnDeck, r[i].deckName, true)
        && r[i].matchLosses == CountKeyed(ms, OwnDeck, r[i].deckName, false)
        && r[i].matchWins + r[i].matchLosses > 0
        && r[i].winRate == Percent(r[i].matchWins, r[i].matchWins + r[i].matchLosses)
  {
    forall i | 0 <= i < |DeckStatsOf(ts)|
      ensures var e := DeckStatsOf(ts)[i];
        && e.matchWins == CountKeyed(AllMatches(ts), OwnDeck, e.deckName, true)
        && e.matchLosses == CountKeyed(AllMatches(ts), OwnDeck, e.deckName, false)
        && e.matchWins + e.matchLosses > 0
        && e.winRate == Percent(e.matchWins, e.matchWins + e.matchLosses)
    {
      DeckEntryCounts(ts, i);
    }
  }

  /** The entries' wins and losses add up to the number of matches. */
  lemma DeckStatsTotal(ts: seq<Tournament>)
    ensures Folds.SumBy(DeckStatsOf(ts), DeckTotal) == |AllMatches(ts)|
  {
    var ms := AllMatches(ts);
    var t := TallyOf(ms, OwnDeck);
    Folds.SumByPermutation(DeckStatsOf(ts), DeckRowsOf(ts), DeckTotal);
    DeckRowsSum(t.order, t.counts);
    TallyTotal(ms, OwnDeck);
    OwnDeckGroupsAll(ms);
  }

  /** The table runs from the highest rate down, and entries with the same
      rate appear in the order their decks were first played. */
  lemma DeckStatsOrder(ts: seq<Tournament>)
    ensures var r, ms := DeckStatsOf(ts), AllMatches(ts);
      && (forall i, j :: 0 <= i < j < |r| ==> !Greater(r[j].winRate, r[i].winRate))
      && (forall i, j :: 0 <= i < j < |r| &&
            r[i].winRate.num * r[j].winRate.den == r[j].winRate.num * r[i].winRate.den
            ==> SeenFirst(ms, OwnDeck, r[i].deckName, r[j].deckName))
  {
    var r, ms := DeckStatsOf(ts), AllMatches(ts);
    var t, rows := TallyOf(ms, OwnDeck), DeckRowsOf(ts);
    forall i, j | 0 <= i < j < |r| &&
        r[i].winRate.num * r[j].winRate.den == r[j].winRate.num * r[i].winRate.den
      ensures SeenFirst(ms, OwnDeck, r[i].deckName, r[j].deckName)
    {
      Sorting.StableOrder(rows, r, DeckBefore, i, j);
      DeckRowsFirstSeen(ms, r[i], r[j]);
    }
  }

  /** Of two rows in row order, the first deck was played first. */
  lemma DeckRowsFirstSeen(ms: seq<Match>, x: DeckStats, z: DeckStats)
    ensures var t := TallyOf(ms, OwnDeck);
      Sorting.Precedes(DeckRows(t.order, t.counts), x, z) ==> SeenFirst(ms, OwnDeck, x.deckName, z.deckName)
  {
    var t := TallyOf(ms, OwnDeck);
    var rows := DeckRows(t.order, t.counts);
    if Sorting.Precedes(rows, x, z) {
      var p, q :| 0 <= p < q < |rows| && rows[p] == x && rows[q] == z;
      TallyOrderPair(ms, OwnDeck, p, q);
      FirstIndexSeenFirst(ms, OwnDeck, t.order[p], t.order[q]);
    }
  }

  // ----- matchup stats -----

  function MatchupName(m: MatchupStats): string { m.opponentDeck }

  function MatchupTotal(m: MatchupStats): nat { m.wins + m.losses }

  lemma {:induction false} MatchupRowsSum(order: seq<string>, counts: map<string, WinLoss>)
    requires forall k :: k in order ==> k in counts
    ensures Folds.SumBy(MatchupRows(order, counts), MatchupTotal) == KeySum(order, counts)
    decreases |order|
  {
    if |order| > 0 {
      var init := order[..|order| - 1];
      var rows := MatchupRows(order, counts);
      assert rows[..|rows| - 1] == MatchupRows(init, counts);
      MatchupRowsSum(init, counts);
    }
  }

  lemma MatchupEntryIsRow(ts: seq<Tournament>, i: nat) returns (p: nat)
    requires i < |MatchupStatsOf(ts)|
    ensures p < |MatchupRowsOf(ts)| && MatchupStatsOf(ts)[i] == MatchupRowsOf(ts)[p]
  {
    var r, rows := MatchupStatsOf(ts), MatchupRowsOf(ts);
    assert r[i] in multiset(r);
    assert r[i] in rows;
    p :| 0 <= p < |rows| && rows[p] == r[i];
  }

  function MatchupNames(r: seq<MatchupStats>): set<string>
  {
    set i | 0 <= i < |r| :: r[i].opponentDeck
  }

  lemma MatchupNamesOfRows(order: seq<string>, counts: map<string, WinLoss>)
    requires forall k :: k in order ==> k in counts
    ensures MatchupNames(MatchupRows(order, counts)) == set k | k in order
    ensures (forall i, j :: 0 <= i < j < |order| ==> order[i] != order[j]) ==>
            var rows := MatchupRows(order, counts);
            forall i, j :: 0 <= i < j < |rows| ==> rows[i].opponentDeck != rows[j].opponentDeck
  {
    var rows := MatchupRows(order, counts);
    forall k | k in order
      ensures k in MatchupNames(rows)
    {
      var p :| 0 <= p < |order| && order[p] == k;
      assert rows[p].opponentDeck == k;
    }
  }

  lemma MatchupNamesPermutation(rows: seq<MatchupStats>, r: seq<MatchupStats>)
    requires multiset(r) == multiset(rows)
    ensures MatchupNames(r) == MatchupNames(rows)
    ensures (forall i, j :: 0 <= i < j < |rows| ==> rows[i].opponentDeck != rows[j].opponentDeck) ==>
            (forall i, j :: 0 <= i < j < |r| ==> r[i].opponentDeck != r[j].opponentDeck)
  {
    forall d | d in MatchupNames(r)
      ensures d in MatchupNames(rows)
    {
      var i :| 0 <= i < |r| && r[i].opponentDeck == d;
      assert r[i] in multiset(rows);
      var p :| 0 <= p < |rows| && rows[p] == r[i];
    }
    forall d | d in MatchupNames(rows)
      ensures d in MatchupNames(r)
    {
      var p :| 0 <= p < |rows| && rows[p].opponentDeck == d;
      assert rows[p] in multiset(r);
      var i :| 0 <= i < |r| && r[i] == rows[p];
    }
    var names, rowNames := Folds.MapSeq(r, MatchupName), Folds.MapSeq(rows, MatchupName);
    Folds.MapSeqPermutation(rows, r, MatchupName);
    if forall i, j :: 0 <= i < j < |rows| ==> rows[i].opponentDeck != rows[j].opponentDeck {
      assert Folds.Distinct(rowNames);
      Folds.DistinctPermutation(rowNames, names);
    }
  }

  /** The keys of the opponent-deck map are the non-empty opponent decks. */
  lemma OpponentDeckKeys(ms: seq<Match>)
    ensures (set k | k in TallyOf(ms, OpponentDeck).order) ==
            set j | 0 <= j < |ms| && ms[j].opponentDeck != "" :: ms[j].opponentDeck
  {
    var t := TallyOf(ms, OpponentDeck);
    forall k | k in t.order
      ensures k in set j | 0 <= j < |ms| && ms[j].opponentDeck != "" :: ms[j].opponentDeck
    {
      TallyCounts(ms, OpponentDeck, k);
      var j :| 0 <= j < |ms| && GroupKey(ms[j], OpponentDeck) == Some(k);
    }
    forall j | 0 <= j < |ms| && ms[j].opponentDeck != ""
      ensures ms[j].opponentDeck in t.order
    {
      TallyCounts(ms, OpponentDeck, ms[j].opponentDeck);
      assert GroupKey(ms[j], OpponentDeck) == Some(ms[j].opponentDeck);
    }
  }

  /** calculateMatchupStats lists exactly the non-empty opponent decks met,
      each once; a match with no opponent deck adds no entry. */
  lemma MatchupStatsKeys(ts: seq<Tournament>)
    ensures var r, ms := MatchupStatsOf(ts), AllMatches(ts);
      && MatchupNames(r) == (set j | 0 <= j < |ms| && ms[j].opponentDeck != "" :: ms[j].opponentDeck)
      && (forall i, j :: 0 <= i < j < |r| ==> r[i].opponentDeck != r[j].opponentDeck)
  {
    var r, ms := MatchupStatsOf(ts), AllMatches(ts);
    var t, rows := TallyOf(ms, OpponentDeck), MatchupRowsOf(ts);
    MatchupNamesOfRows(t.order, t.counts);
    OpponentDeckKeys(ms);
    MatchupNamesPermutation(rows, r);
  }

  /** Entry `i` counts the matches won and lost against that deck, has at
      least one match, and has rate 100 * wins / (wins + losses). */
  lemma MatchupEntryCounts(ts: seq<Tournament>, i: nat)
    requires i < |MatchupStatsOf(ts)|
    ensures var e, ms := MatchupStatsOf(ts)[i], AllMatches(ts);
      && e.wins == CountKeyed(ms, OpponentDeck, e.opponentDeck, true)
      && e.losses == CountKeyed(ms, OpponentDeck, e.opponentDeck, false)
      && e.wins + e.losses > 0
      && e.winRate == Percent(e.wins, e.wins + e.losses)
  {
    var ms := AllMatches(ts);
    var t := TallyOf(ms, OpponentDeck);
    var p := MatchupEntryIsRow(ts, i);
    var k := t.order[p];
    var e := MatchupRows(t.order, t.counts)[p];
    assert e == MatchupRow(k, t.counts[k]);
    TallyCounts(ms, OpponentDeck, k);
    CountKeyedPositive(ms, OpponentDeck, k);
    assert t.counts[k] == WinLoss(CountKeyed(ms, OpponentDeck, k, true), CountKeyed(ms, OpponentDeck, k, false));
  }

  /** calculateMatchupStats: every entry's counts and rate, as in MatchupEntryCounts. */
  lemma MatchupStatsCounts(ts: seq<Tournament>)
    ensures var r, ms := MatchupStatsOf(ts), AllMatches(ts);
      forall i :: 0 <= i < |r| ==>
        && r[i].wins == CountKeyed(ms, OpponentDeck, r[i].opponentDeck, true)
        && r[i].losses == CountKeyed(ms, OpponentDeck, r[i].opponentDeck, false)
        && r[i].wins + r[i].losses > 0
        && r[i].winRate == Percent(r[i].wins, r[i].wins + r[i].losses)
  {
    forall i | 0 <= i < |MatchupStatsOf(ts)|
      ensures var e := MatchupStatsOf(ts)[i];
        && e.wins == CountKeyed(AllMatches(ts), OpponentDeck, e.opponentDeck, true)
        && e.losses == CountKeyed(AllMatches(ts), OpponentDeck, e.opponentDeck, false)
        && e.wins + e.losses > 0
        && e.winRate == Percent(e.wins, e.wins + e.losses)
    {
      MatchupEntryCounts(ts, i);
    }
  }

  /** The entries' totals add up to the number of matches that name an
      opponent deck. */
  lemma MatchupStatsTotal(ts: seq<Tournament>)
    ensures Folds.SumBy(MatchupStatsOf(ts), MatchupTotal) == CountGrouped(AllMatches(ts), OpponentDeck)
  {
    var ms := AllMatches(ts);
    var t := TallyOf(ms, OpponentDeck);
    Folds.SumByPermutation(MatchupStatsOf(ts), MatchupRowsOf(ts), MatchupTotal);
    MatchupRowsSum(t.order, t.counts);
    TallyTotal(ms, OpponentDeck);
  }

  /** The table runs from the most played opponent deck down, and decks met
      equally often appear in the order they were first met. */
  lemma MatchupStatsOrder(ts: seq<Tournament>)
    ensures var r, ms := MatchupStatsOf(ts), AllMatches(ts);
      && (forall i, j :: 0 <= i < j < |r| ==> r[i].wins + r[i].losses >= r[j].wins + r[j].losses)
      && (forall i, j :: 0 <= i < j < |r| && r[i].wins + r[i].losses == r[j].wins + r[j].losses ==>
            SeenFirst(ms, OpponentDeck, r[i].opponentDeck, r[j].opponentDeck))
  {
    var r, ms := MatchupStatsOf(ts), AllMatches(ts);
    var t, rows := TallyOf(ms, OpponentDeck), MatchupRowsOf(ts);
    forall i, j | 0 <= i < j < |r| && r[i].wins + r[i].losses == r[j].wins + r[j].losses
      ensures SeenFirst(ms, OpponentDeck, r[i].opponentDeck, r[j].opponentDeck)
    {
      Sorting.StableOrder(rows, r, MatchupBefore, i, j);
      MatchupRowsFirstSeen(ms, r[i], r[j]);
    }
  }

  lemma MatchupRowsFirstSeen(ms: seq<Match>, x: MatchupStats, z: MatchupStats)
    ensures var t := TallyOf(ms, OpponentDeck);
      Sorting.Precedes(MatchupRows(t.order, t.counts), x, z) ==> SeenFirst(ms, OpponentDeck, x.opponentDeck, z.opponentDeck)
  {
    var t := TallyOf(ms, OpponentDeck);
    var rows := MatchupRows(t.order, t.counts);
    if Sorting.Precedes(rows, x, z) {
      var p, q :| 0 <= p < q < |rows| && rows[p] == x && rows[q] == z;
      TallyOrderPair(ms, OpponentDeck, p, q);
      FirstIndexSeenFirst(ms, OpponentDeck, t.order[p], t.order[q]);
    }
  }
}
