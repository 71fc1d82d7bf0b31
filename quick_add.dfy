/** src/app/api/quick-add/route.ts: a score "myWins-opponentWins" becomes
    an ordered list of games, and the match the route files in the inbox. */
module QuickAdd {
  import opened Types
  import opened StatsSpec
  import DataLocal

  /** Whether the next game is a win, given the games so far: a win while I
      still have wins to hand out, on even games, or once the opponent's
      wins are all handed out. */
  function IsMyWin(sofar: seq<Game>, myWins: nat, opponentWins: nat): bool
  {
    CountWon(sofar) < myWins && (|sofar| % 2 == 0 || CountLost(sofar) == opponentWins)
  }

  /** Game `i` is on the play when `i` is even. */
  function OnPlayAt(i: nat, onPlay: bool): bool
  {
    if i % 2 == 0 then onPlay else !onPlay
  }

  /** The first `n` games the route's loop generates. */
  function QuickGames(myWins: nat, opponentWins: nat, onPlay: bool, n: nat): (r: seq<Game>)
    ensures |r| == n
  {
    if n == 0 then []
    else
      var sofar := QuickGames(myWins, opponentWins, onPlay, n - 1);
      sofar + [Game(OnPlayAt(n - 1, onPlay), IsMyWin(sofar, myWins, opponentWins))]
  }

  function Min(a: nat, b: nat): nat { if a <= b then a else b }

  /** A closed form of the same list: games alternate win, loss while both
      players have wins left, then the rest go to whoever has wins left. */
  function WonAt(i: nat, myWins: nat, opponentWins: nat): bool
  {
    if i < 2 * Min(myWins, opponentWins) then i % 2 == 0 else myWins > opponentWins
  }

  lemma CountSnoc(gs: seq<Game>, g: Game)
    ensures CountWon(gs + [g]) == CountWon(gs) + (if g.won then 1 else 0)
    ensures CountLost(gs + [g]) == CountLost(gs) + (if g.won then 0 else 1)
  {
    assert (gs + [g])[..|gs|] == gs;
  }

  /** The wins among the first `n` games, by the closed form. */
  function WonBy(n: nat, myWins: nat, opponentWins: nat): nat
  {
    if n <= 2 * Min(myWins, opponentWins) then (n + 1) / 2
    else if myWins > opponentWins then n - opponentWins
    else myWins
  }

  /** The losses among the first `n` games, by the closed form. */
  function LostBy(n: nat, myWins: nat, opponentWins: nat): nat
  {
    if n <= 2 * Min(myWins, opponentWins) then n / 2
    else if myWins > opponentWins then opponentWins
    else n - myWins
  }

  predicate CountsAt(n: nat, myWins: nat, opponentWins: nat, won: nat, lost: nat)
  {
    won == WonBy(n, myWins, opponentWins) && lost == LostBy(n, myWins, opponentWins)
  }

  /** One step of the loop moves the counts along the closed form, and the
      game it adds is the closed form's. */
  lemma CountsStep(n: nat, myWins: nat, opponentWins: nat, won: nat, lost: nat, isMyWin: bool)
    requires n < myWins + opponentWins
    requires CountsAt(n, myWins, opponentWins, won, lost)
    requires isMyWin == (won < myWins && (n % 2 == 0 || lost == opponentWins))
    ensures isMyWin == WonAt(n, myWins, opponentWins)
    ensures CountsAt(n + 1, myWins, opponentWins, won + (if isMyWin then 1 else 0), lost + (if isMyWin then 0 else 1))
  {
  }

  lemma {:induction false} QuickGamesCounts(myWins: nat, opponentWins: nat, onPlay: bool, n: nat)
    requires n <= myWins + opponentWins
    ensures CountsAt(n, myWins, opponentWins,
                     CountWon(QuickGames(myWins, opponentWins, onPlay, n)),
                     CountLost(QuickGames(myWins, opponentWins, onPlay, n)))
    decreases n
  {
    if n > 0 {
      var k := n - 1;
      QuickGamesCounts(myWins, opponentWins, onPlay, k);
      QuickGamesCountsStep(myWins, opponentWins, onPlay, k);
      assert k + 1 == n;
    } else {
      assert QuickGames(myWins, opponentWins, onPlay, n) == [];
    }
  }

  lemma QuickGamesCountsStep(myWins: nat, opponentWins: nat, onPlay: bool, n: nat)
    requires n < myWins + opponentWins
    requires CountsAt(n, myWins, opponentWins,
                      CountWon(QuickGames(myWins, opponentWins, onPlay, n)),
                      CountLost(QuickGames(myWins, opponentWins, onPlay, n)))
    ensures CountsAt(n + 1, myWins, opponentWins,
                     CountWon(QuickGames(myWins, opponentWins, onPlay, n + 1)),
                     CountLost(QuickGames(myWins, opponentWins, onPlay, n + 1)))
  {
    var sofar := QuickGames(myWins, opponentWins, onPlay, n);
    var isMyWin := IsMyWin(sofar, myWins, opponentWins);
    var game := Game(OnPlayAt(n, onPlay), isMyWin);
    assert QuickGames(myWins, opponentWins, onPlay, n + 1) == sofar + [game];
    CountSnoc(sofar, game);
    CountsStep(n, myWins, opponentWins, CountWon(sofar), CountLost(sofar), isMyWin);
  }

  /** Game `i` of the list is the closed form's. */
  lemma {:induction false} QuickGamesWonAt(myWins: nat, opponentWins: nat, onPlay: bool, n: nat)
    requires n <= myWins + opponentWins
    ensures forall i :: 0 <= i < n ==>
      QuickGames(myWins, opponentWins, onPlay, n)[i].won == WonAt(i, myWins, opponentWins) &&
      QuickGames(myWins, opponentWins, onPlay, n)[i].onPlay == OnPlayAt(i, onPlay)
    decreases n
  {
    if n > 0 {
      var k := n - 1;
      QuickGamesWonAt(myWins, opponentWins, onPlay, k);
      QuickGamesCounts(myWins, opponentWins, onPlay, k);
      QuickGamesWonStep(myWins, opponentWins, onPlay, k);
      assert k + 1 == n;
    }
  }

  lemma QuickGamesWonStep(myWins: nat, opponentWins: nat, onPlay: bool, n: nat)
    requires n < myWins + opponentWins
    requires CountsAt(n, myWins, opponentWins,
                      CountWon(QuickGames(myWins, opponentWins, onPlay, n)),
                      CountLost(QuickGames(myWins, opponentWins, onPlay, n)))
    requires forall i :: 0 <= i < n ==>
      QuickGames(myWins, opponentWins, onPlay, n)[i].won == WonAt(i, myWins, opponentWins) &&
      QuickGames(myWins, opponentWins, onPlay, n)[i].onPlay == OnPlayAt(i, onPlay)
    ensures forall i :: 0 <= i < n + 1 ==>
      QuickGames(myWins, opponentWins, onPlay, n + 1)[i].won == WonAt(i, myWins, opponentWins) &&
      QuickGames(myWins, opponentWins, onPlay, n + 1)[i].onPlay == OnPlayAt(i, onPlay)
  {
    var sofar := QuickGames(myWins, opponentWins, onPlay, n);
    var isMyWin := IsMyWin(sofar, myWins, opponentWins);
    var g := QuickGames(myWins, opponentWins, onPlay, n + 1);
    assert g == sofar + [Game(OnPlayAt(n, onPlay), isMyWin)];
    CountsStep(n, myWins, opponentWins, CountWon(sofar), CountLost(sofar), isMyWin);
    forall i | 0 <= i < n
      ensures g[i] == sofar[i]
    {
    }
  }

  /** Counting never overshoots either player's score, and the full list
      holds exactly the score's wins and losses. */
  lemma QuickGamesBounded(myWins: nat, opponentWins: nat, onPlay: bool, n: nat)
    requires n <= myWins + opponentWins
    ensures CountWon(QuickGames(myWins, opponentWins, onPlay, n)) <= myWins
    ensures CountLost(QuickGames(myWins, opponentWins, onPlay, n)) <= opponentWins
    ensures n == myWins + opponentWins ==>
      CountWon(QuickGames(myWins, opponentWins, onPlay, n)) == myWins &&
      CountLost(QuickGames(myWins, opponentWins, onPlay, n)) == opponentWins
  {
    QuickGamesCounts(myWins, opponentWins, onPlay, n);
  }

  /** The whole list: one game per point of the score, exactly the score's
      wins and losses, alternating play and draw, and a first game won
      whenever I won any. */
  lemma QuickGamesProperties(myWins: nat, opponentWins: nat, onPlay: bool)
    ensures var games := QuickGames(myWins, opponentWins, onPlay, myWins + opponentWins);
      && |games| == myWins + opponentWins
      && CountWon(games) == myWins && CountLost(games) == opponentWins
      && (forall i :: 0 <= i < |games| ==> games[i].onPlay == OnPlayAt(i, onPlay))
      && (myWins > 0 ==> games[0].won)
  {
    var n := myWins + opponentWins;
    var games := QuickGames(myWins, opponentWins, onPlay, n);
    QuickGamesBounded(myWins, opponentWins, onPlay, n);
    QuickGamesWonAt(myWins, opponentWins, onPlay, n);
    if myWins > 0 {
      assert games[0].won == WonAt(0, myWins, opponentWins);
      assert WonAt(0, myWins, opponentWins) by {
        if opponentWins > 0 {
          assert 0 < 2 * Min(myWins, opponentWins);
        }
      }
    }
  }

  /** One turn of the loop of POST, from counters that agree with the
      games so far. */
  lemma ExpandStep(myWins: nat, opponentWins: nat, onPlay: bool, i: nat, mine: nat, theirs: nat)
    requires i < myWins + opponentWins && mine + theirs == i && mine <= myWins && theirs <= opponentWins
    requires CountWon(QuickGames(myWins, opponentWins, onPlay, i)) == mine
    requires CountLost(QuickGames(myWins, opponentWins, onPlay, i)) == theirs
    ensures var w := mine < myWins && (i % 2 == 0 || theirs == opponentWins);
      && QuickGames(myWins, opponentWins, onPlay, i + 1)
         == QuickGames(myWins, opponentWins, onPlay, i) + [Game(OnPlayAt(i, onPlay), w)]
      && CountWon(QuickGames(myWins, opponentWins, onPlay, i + 1)) == mine + (if w then 1 else 0)
      && CountLost(QuickGames(myWins, opponentWins, onPlay, i + 1)) == theirs + (if w then 0 else 1)
      && (w ==> mine < myWins) && (!w ==> theirs < opponentWins)
  {
    var sofar := QuickGames(myWins, opponentWins, onPlay, i);
    var w := mine < myWins && (i % 2 == 0 || theirs == opponentWins);
    CountSnoc(sofar, Game(OnPlayAt(i, onPlay), w));
  }

  /** The loop of POST: `myWins + opponentWins` games, `won` decided by two
      counters, `onPlay` alternating. */
  method ExpandResult(myWins: nat, opponentWins: nat, onPlay: bool) returns (games: seq<Game>)
    ensures games == QuickGames(myWins, opponentWins, onPlay, myWins + opponentWins)
    ensures |games| == myWins + opponentWins
    ensures CountWon(games) == myWins && CountLost(games) == opponentWins
    ensures forall i :: 0 <= i < |games| ==> games[i].onPlay == OnPlayAt(i, onPlay)
    ensures myWins > 0 ==> games[0].won
  {
    games := [];
    var totalGames := myWins + opponentWins;
    var myCurrentWins, opponentCurrentWins := 0, 0;
    for i := 0 to totalGames
      invariant myCurrentWins <= myWins && opponentCurrentWins <= opponentWins
      invariant myCurrentWins + opponentCurrentWins == i
      invariant games == QuickGames(myWins, opponentWins, onPlay, i)
      invariant CountWon(games) == myCurrentWins && CountLost(games) == opponentCurrentWins
    {
      ExpandStep(myWins, opponentWins, onPlay, i, myCurrentWins, opponentCurrentWins);
      var isMyWin := myCurrentWins < myWins && (i % 2 == 0 || opponentCurrentWins == opponentWins);
      if isMyWin {
        myCurrentWins := myCurrentWins + 1;
      } else {
        opponentCurrentWins := opponentCurrentWins + 1;
      }
      games := games + [Game(if i % 2 == 0 then onPlay else !onPlay, isMyWin)];
    }
    QuickGamesProperties(myWins, opponentWins, onPlay);
  }

  /** `notes || ''`: a missing or empty note becomes the empty string. */
  function NotesOrEmpty(notes: Option<string>): (r: Option<string>)
    ensures r.Some?
    ensures notes.Some? && notes.value != "" ==> r == notes
    ensures notes.None? || notes.value == "" ==> r == Some("")
  {
    if notes.Some? && notes.value != "" then notes else Some("")
  }

  /** The match POST files: a fresh id (a parameter here), no opponent
      name, the given decks, the expanded games and the note or "". */
  method BuildMatch(id: string, myDeck: string, opponentDeck: string, onPlay: bool,
                    myWins: nat, opponentWins: nat, notes: Option<string>) returns (m: Match)
    ensures m == Match(id, "", myDeck, opponentDeck, QuickGames(myWins, opponentWins, onPlay, myWins + opponentWins),
                       NotesOrEmpty(notes))
    ensures CalculateMatchResult(m).won <==> myWins > opponentWins
  {
    var games := ExpandResult(myWins, opponentWins, onPlay);
    m := Match(id, "", myDeck, opponentDeck, games, NotesOrEmpty(notes));
    QuickMatchResult(myWins, opponentWins, onPlay);
  }

  /** The filed match counts, by calculateMatchResult, as won exactly when
      the score says so: the score's wins and losses, and no more. */
  lemma QuickMatchResult(myWins: nat, opponentWins: nat, onPlay: bool)
    ensures var r := CalculateMatchResult(Match("", "", "", "", QuickGames(myWins, opponentWins, onPlay, myWins + opponentWins), None));
      r.wins == myWins && r.losses == opponentWins && (r.won <==> myWins > opponentWins)
  {
    QuickGamesBounded(myWins, opponentWins, onPlay, myWins + opponentWins);
  }

  /** "2-1" is win, loss, win. */
  lemma TwoOne(myWins: nat, opponentWins: nat, onPlay: bool)
    requires myWins == 2 && opponentWins == 1
    ensures QuickGames(myWins, opponentWins, onPlay, 3) == [Game(onPlay, true), Game(!onPlay, false), Game(onPlay, true)]
  {
    QuickGamesWonAt(myWins, opponentWins, onPlay, 3);
    assert WonAt(0, myWins, opponentWins) && !WonAt(1, myWins, opponentWins) && WonAt(2, myWins, opponentWins);
  }

  /** "1-2" is win, loss, loss. */
  lemma OneTwo(myWins: nat, opponentWins: nat, onPlay: bool)
    requires myWins == 1 && opponentWins == 2
    ensures QuickGames(myWins, opponentWins, onPlay, 3) == [Game(onPlay, true), Game(!onPlay, false), Game(onPlay, false)]
  {
    QuickGamesWonAt(myWins, opponentWins, onPlay, 3);
    assert WonAt(0, myWins, opponentWins) && !WonAt(1, myWins, opponentWins) && !WonAt(2, myWins, opponentWins);
  }

  /** POST: the score becomes the games, the match is given the id the
      caller supplies (the source draws one with `crypto.randomUUID()`), and
      it is filed at the end of the inbox, which holds one match more. */
  method PostQuickAdd(store: DataLocal.TournamentStore, id: string, myDeck: string, opponentDeck: string,
                      onPlay: bool, myWins: nat, opponentWins: nat, notes: Option<string>)
      returns (matchId: string)
    modifies store
    ensures var m := Match(id, "", myDeck, opponentDeck,
                           QuickGames(myWins, opponentWins, onPlay, myWins + opponentWins), NotesOrEmpty(notes));
      && store.tournaments == DataLocal.AddMatchTo(old(store.tournaments), INBOX_ID, m)
      && DataLocal.Find(store.tournaments, INBOX_ID).Some?
      && DataLocal.Find(store.tournaments, INBOX_ID).value.matches
           == DataLocal.Find(DataLocal.WithInbox(old(store.tournaments)), INBOX_ID).value.matches + [m]
      && DataLocal.TotalMatches(store.tournaments) == DataLocal.TotalMatches(old(store.tournaments)) + 1
    ensures matchId == id
  {
    var m := BuildMatch(id, myDeck, opponentDeck, onPlay, myWins, opponentWins, notes);
    DataLocal.AddMatchProperties(store.tournaments, INBOX_ID, m, INBOX_ID);
    store.AddMatch(INBOX_ID, m);
    matchId := m.id;
  }
}
