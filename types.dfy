/** The record types shared by the statistics engine, the local store and the
    quick-add route (src/lib/types.ts). */
module Types {

  datatype Option<+T> = None | Some(value: T)

  /** One game of a match: who went first and who won. */
  datatype Game = Game(onPlay: bool, won: bool)

  /** One opponent pairing. `notes` is optional in the source record. */
  datatype Match = Match(
    id: string,
    opponentName: string,
    myDeck: string,
    opponentDeck: string,
    games: seq<Game>,
    notes: Option<string>)

  /** A tournament; `matches` is kept in entry order. */
  datatype Tournament = Tournament(
    id: string,
    date: string,
    location: string,
    format: string,
    matches: seq<Match>)

  /** The reserved id of the holding area for matches not yet filed. */
  const INBOX_ID: string := "__inbox__"

  /** Every match of every tournament, tournament by tournament, in order. */
  function AllMatches(ts: seq<Tournament>): (ms: seq<Match>)
    ensures |ts| == 0 ==> ms == []
  {
    if |ts| == 0 then [] else AllMatches(ts[..|ts| - 1]) + ts[|ts| - 1].matches
  }

  /** Every game of every match, in order. */
  function AllGames(ms: seq<Match>): (gs: seq<Game>)
    ensures |ms| == 0 ==> gs == []
  {
    if |ms| == 0 then [] else AllGames(ms[..|ms| - 1]) + ms[|ms| - 1].games
  }

  lemma AllMatchesSnoc(ts: seq<Tournament>, i: nat)
    requires i < |ts|
    ensures AllMatches(ts[..i + 1]) == AllMatches(ts[..i]) + ts[i].matches
  {
    assert ts[..i + 1][..i] == ts[..i];
  }

  lemma AllGamesSnoc(ms: seq<Match>, i: nat)
    requires i < |ms|
    ensures AllGames(ms[..i + 1]) == AllGames(ms[..i]) + ms[i].games
  {
    assert ms[..i + 1][..i] == ms[..i];
  }

  lemma {:induction false} AllGamesAppend(a: seq<Match>, b: seq<Match>)
    ensures AllGames(a + b) == AllGames(a) + AllGames(b)
    decreases |b|
  {
    if |b| == 0 {
      assert a + b == a;
    } else {
      var b' := b[..|b| - 1];
      assert (a + b)[..|a + b| - 1] == a + b';
      AllGamesAppend(a, b');
    }
  }

  lemma {:induction false} AllMatchesAppend(a: seq<Tournament>, b: seq<Tournament>)
    ensures AllMatches(a + b) == AllMatches(a) + AllMatches(b)
    decreases |b|
  {
    if |b| == 0 {
      assert a + b == a;
    } else {
      var b' := b[..|b| - 1];
      assert (a + b)[..|a + b| - 1] == a + b';
      AllMatchesAppend(a, b');
    }
  }

  /** The matches visited so far by two nested loops over `ts`. */
  function Visited(ts: seq<Tournament>, i: nat, j: nat): seq<Match>
    requires i < |ts| && j <= |ts[i].matches|
  {
    AllMatches(ts[..i]) + ts[i].matches[..j]
  }

  lemma VisitedNext(ts: seq<Tournament>, i: nat, j: nat)
    requires i < |ts| && j < |ts[i].matches|
    ensures Visited(ts, i, j + 1) == Visited(ts, i, j) + [ts[i].matches[j]]
  {
    assert ts[i].matches[..j + 1] == ts[i].matches[..j] + [ts[i].matches[j]];
  }

  lemma VisitedAll(ts: seq<Tournament>, i: nat)
    requires i < |ts|
    ensures Visited(ts, i, |ts[i].matches|) == AllMatches(ts[..i + 1])
  {
    assert ts[i].matches[..|ts[i].matches|] == ts[i].matches;
    AllMatchesSnoc(ts, i);
  }
}
