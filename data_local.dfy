/** The local tournament store of src/lib/data-local.ts.  The source keeps the
    table as a JSON array in data/local-tournaments.json and re-reads it at the
    start of every operation; here the file's contents are the field
    `tournaments` of a `TournamentStore`, and an operation that reads, changes
    and writes the array reassigns that field.

    Each operation is specified by a function on the old table (`Fetch`,
    `Upsert`, `RemoveId`, `AddMatchTo`, ...), and what those functions do to
    the table is proved about them as lemmas. */
module DataLocal {
  import opened Types
  import Folds
  import Sorting
  import StringOrder

  // ----- the predicates handed to find, findIndex and filter -----

  /** `t => t.id === id` */
  function IdIs(id: string): Tournament -> bool
  {
    (t: Tournament) => t.id == id
  }

  /** `t => t.id !== id` */
  function IdIsNot(id: string): Tournament -> bool
  {
    (t: Tournament) => t.id != id
  }

  /** `m => m.id === id` */
  function MatchIdIs(id: string): Match -> bool
  {
    (m: Match) => m.id == id
  }

  /** `m => m.id !== id` */
  function MatchIdIsNot(id: string): Match -> bool
  {
    (m: Match) => m.id != id
  }

  // ----- the table as a value -----

  /** Some tournament of `ts` has this id. */
  ghost predicate HasId(ts: seq<Tournament>, id: string)
  {
    exists i :: 0 <= i < |ts| && ts[i].id == id
  }

  /** Some match of `t` has this id. */
  ghost predicate HasMatch(t: Tournament, mid: string)
  {
    exists k :: 0 <= k < |t.matches| && t.matches[k].id == mid
  }

  /** `tournaments.findIndex(t => t.id === id)`. */
  function IndexOfId(ts: seq<Tournament>, id: string): (r: int)
    ensures -1 <= r
    ensures r >= 0 <==> HasId(ts, id)
    ensures r >= 0 ==> r < |ts| && ts[r].id == id
    ensures r >= 0 ==> forall k :: 0 <= k < r ==> ts[k].id != id
  {
    var r := Folds.FindIndex(ts, IdIs(id));
    assert r < 0 ==> forall k :: 0 <= k < |ts| ==> !IdIs(id)(ts[k]);
    r
  }

  /** `tournaments.find(t => t.id === id) || null`: the first tournament
      with that id. */
  function Find(ts: seq<Tournament>, id: string): (r: Option<Tournament>)
    ensures r.Some? <==> HasId(ts, id)
    ensures r.Some? ==> r.value.id == id && r.value == ts[IndexOfId(ts, id)]
  {
    var i := IndexOfId(ts, id);
    if i >= 0 then Some(ts[i]) else None
  }

  /** The inbox that ensureInboxExists creates.  Its `gameType` ('Magic') is
      not modelled. */
  function InboxRecord(): Tournament
  {
    Tournament(INBOX_ID, "", "Inbox", "", [])
  }

  /** ensureInboxExists: when no tournament has the inbox's id, an empty inbox
      is put at the front of the table. */
  function WithInbox(ts: seq<Tournament>): seq<Tournament>
  {
    if IndexOfId(ts, INBOX_ID) >= 0 then ts else [InboxRecord()] + ts
  }

  /** The table after getTournamentById(id) has read it: the inbox is
      created when it is the one asked for. */
  function Fetch(ts: seq<Tournament>, id: string): seq<Tournament>
  {
    if id == INBOX_ID then WithInbox(ts) else ts
  }

  /** saveTournament: the first tournament with the same id is replaced in
      place, or the tournament is appended. */
  function Upsert(ts: seq<Tournament>, t: Tournament): seq<Tournament>
  {
    var i := IndexOfId(ts, t.id);
    if i >= 0 then ts[i := t] else ts + [t]
  }

  /** deleteTournament: every tournament with this id is dropped. */
  function RemoveId(ts: seq<Tournament>, id: string): seq<Tournament>
  {
    Folds.Filter(ts, IdIsNot(id))
  }

  /** addMatch: the match is appended to the tournament and the tournament
      saved; an unknown tournament leaves the table as it was read. */
  function AddMatchTo(ts: seq<Tournament>, tid: string, m: Match): seq<Tournament>
  {
    var ts' := Fetch(ts, tid);
    match Find(ts', tid)
    case None => ts'
    case Some(t) => Upsert(ts', t.(matches := t.matches + [m]))
  }

  /** updateMatch: the first match with that id is replaced and the
      tournament saved; nothing is saved when either is missing. */
  function UpdateMatchIn(ts: seq<Tournament>, tid: string, mid: string, um: Match): seq<Tournament>
  {
    var ts' := Fetch(ts, tid);
    match Find(ts', tid)
    case None => ts'
    case Some(t) =>
      var k := Folds.FindIndex(t.matches, MatchIdIs(mid));
      if k < 0 then ts' else Upsert(ts', t.(matches := t.matches[k := um]))
  }

  /** deleteMatch: every match with that id is dropped and the tournament is
      saved, whether or not one was found. */
  function DeleteMatchIn(ts: seq<Tournament>, tid: string, mid: string): seq<Tournament>
  {
    var ts' := Fetch(ts, tid);
    match Find(ts', tid)
    case None => ts'
    case Some(t) => Upsert(ts', t.(matches := Folds.Filter(t.matches, MatchIdIsNot(mid))))
  }

  /** The answer of moveMatch and the table it leaves behind. */
  datatype Moved = Moved(ok: bool, tournaments: seq<Tournament>)

  /** moveMatch: the source and then the target are read, each by its own
      getTournamentById; the first match with that id is spliced out of the
      source copy, appended to the target copy, and the source and then the
      target are saved. */
  function MoveIn(ts: seq<Tournament>, mid: string, from: string, to: string): Moved
  {
    var ts1 := Fetch(ts, from);
    var ts2 := Fetch(ts1, to);
    var source := Find(ts1, from);
    var target := Find(ts2, to);
    if source.None? || target.None? then Moved(false, ts2)
    else
      var s, t := source.value, target.value;
      var k := Folds.FindIndex(s.matches, MatchIdIs(mid));
      if k < 0 then Moved(false, ts2)
      else
        var m := s.matches[k];
        var s' := s.(matches := s.matches[..k] + s.matches[k + 1..]);
        var t' := t.(matches := t.matches + [m]);
        Moved(true, Upsert(Upsert(ts2, s'), t'))
  }

  /** How many matches a tournament holds. */
  function MatchCount(t: Tournament): nat
  {
    |t.matches|
  }

  /** How many matches the whole table holds. */
  function TotalMatches(ts: seq<Tournament>): nat
  {
    Folds.SumBy(ts, MatchCount)
  }

  /** The deck names a match contributes: its own and its opponent's, when
      not empty (`if (match.myDeck)`, `if (match.opponentDeck)`). */
  function NamesOfMatch(m: Match): set<string>
  {
    (if m.myDeck != "" then {m.myDeck} else {}) + (if m.opponentDeck != "" then {m.opponentDeck} else {})
  }

  /** The deck names of all of `ms`. */
  function DeckNamesOf(ms: seq<Match>): set<string>
  {
    if |ms| == 0 then {} else DeckNamesOf(ms[..|ms| - 1]) + NamesOfMatch(ms[|ms| - 1])
  }

  // ----- lemmas about findIndex on tables -----

  /** A position that passes with none passing before it is what findIndex returns. */
  lemma IndexOfIdIs(ts: seq<Tournament>, id: string, i: nat)
    requires i < |ts| && ts[i].id == id
    requires forall k :: 0 <= k < i ==> ts[k].id != id
    ensures IndexOfId(ts, id) == i
  {
  }

  /** Lookups of `id` agree on two tables whose records agree on passing it. */
  lemma IndexOfIdSame(a: seq<Tournament>, b: seq<Tournament>, id: string)
    requires |a| == |b|
    requires forall k :: 0 <= k < |a| ==> (a[k].id == id <==> b[k].id == id)
    ensures IndexOfId(a, id) == IndexOfId(b, id)
  {
    var i := IndexOfId(a, id);
    if i >= 0 {
      IndexOfIdIs(b, id, i);
    } else {
      assert !HasId(b, id);
    }
  }

  /** A record put in front shifts every lookup of another id by one. */
  lemma IndexOfIdCons(x: Tournament, ts: seq<Tournament>, id: string)
    requires x.id != id
    ensures HasId([x] + ts, id) <==> HasId(ts, id)
    ensures Find([x] + ts, id) == Find(ts, id)
  {
    var s := [x] + ts;
    if HasId(ts, id) {
      var i := IndexOfId(ts, id);
      assert s[i + 1] == ts[i];
      IndexOfIdIs(s, id, i + 1);
    }
    if HasId(s, id) {
      var j :| 0 <= j < |s| && s[j].id == id;
      assert j > 0 && ts[j - 1] == s[j];
    }
  }

  // ----- ensureInboxExists -----

  /** After ensureInboxExists the table has an inbox; a table that had one is
      unchanged, one that had none gets an empty inbox at the front; doing it
      twice is doing it once; no match is added; other lookups are unchanged. */
  lemma WithInboxProperties(ts: seq<Tournament>, id: string)
    ensures HasId(WithInbox(ts), INBOX_ID) && Find(WithInbox(ts), INBOX_ID).Some?
    ensures HasId(ts, INBOX_ID) ==> WithInbox(ts) == ts
    ensures !HasId(ts, INBOX_ID) ==> WithInbox(ts) == [InboxRecord()] + ts
    ensures WithInbox(WithInbox(ts)) == WithInbox(ts)
    ensures AllMatches(WithInbox(ts)) == AllMatches(ts)
    ensures TotalMatches(WithInbox(ts)) == TotalMatches(ts)
    ensures id != INBOX_ID || HasId(ts, id) ==> Find(WithInbox(ts), id) == Find(ts, id)
  {
    var w := WithInbox(ts);
    if !HasId(ts, INBOX_ID) {
      assert w[0].id == INBOX_ID;
      AllMatchesAppend([InboxRecord()], ts);
      assert AllMatches([InboxRecord()]) == AllMatches([]) + [];
      Folds.SumByAppend([InboxRecord()], ts, MatchCount);
      assert Folds.SumBy([InboxRecord()], MatchCount) == 0 by {
        assert [InboxRecord()][..0] == [];
      }
      if id != INBOX_ID {
        IndexOfIdCons(InboxRecord(), ts, id);
      }
    }
  }

  /** getTournamentById never loses a tournament that was there. */
  lemma FetchKeeps(ts: seq<Tournament>, fetched: string, id: string)
    ensures id != INBOX_ID || HasId(ts, id) ==> Find(Fetch(ts, fetched), id) == Find(ts, id)
    ensures HasId(Fetch(ts, fetched), fetched) <==> fetched == INBOX_ID || HasId(ts, fetched)
    ensures TotalMatches(Fetch(ts, fetched)) == TotalMatches(ts)
  {
    WithInboxProperties(ts, id);
    WithInboxProperties(ts, fetched);
  }

  // ----- saveTournament -----

  /** saveTournament: the saved record is what a later lookup of its id
      finds; lookups of other ids are unchanged; every other record keeps
      its place; the table grows only when the id was new. */
  lemma UpsertProperties(ts: seq<Tournament>, t: Tournament, id: string)
    ensures Find(Upsert(ts, t), t.id) == Some(t)
    ensures id != t.id ==> Find(Upsert(ts, t), id) == Find(ts, id)
    ensures HasId(ts, t.id) ==> |Upsert(ts, t)| == |ts|
    ensures !HasId(ts, t.id) ==> Upsert(ts, t) == ts + [t]
    ensures forall k :: 0 <= k < |ts| && k != IndexOfId(ts, t.id) ==> Upsert(ts, t)[k] == ts[k]
  {
    var i := IndexOfId(ts, t.id);
    var r := Upsert(ts, t);
    if i >= 0 {
      IndexOfIdIs(r, t.id, i);
      if id != t.id {
        IndexOfIdSame(r, ts, id);
      }
    } else {
      IndexOfIdIs(r, t.id, |ts|);
      if id != t.id {
        if HasId(ts, id) {
          var j := IndexOfId(ts, id);
          IndexOfIdIs(r, id, j);
        } else {
          assert !HasId(r, id);
        }
      }
    }
  }

  /** saveTournament changes the number of stored matches by the size
      difference between the new record and the one it replaces. */
  lemma UpsertTotal(ts: seq<Tournament>, t: Tournament)
    ensures TotalMatches(Upsert(ts, t)) + (if HasId(ts, t.id) then |Find(ts, t.id).value.matches| else 0)
         == TotalMatches(ts) + |t.matches|
  {
    var i := IndexOfId(ts, t.id);
    if i >= 0 {
      Folds.SumByUpdate(ts, i, t, MatchCount);
    } else {
      Folds.SumByAppend(ts, [t], MatchCount);
      assert [t][..0] == [];
    }
  }

  // ----- deleteTournament -----

  /** deleteTournament keeps exactly the records with another id, leaves no
      record with that id, and changes nothing when there was none.  The
      records kept keep their order: see RemoveIdAppend. */
  lemma RemoveIdProperties(ts: seq<Tournament>, id: string, t: Tournament)
    ensures t in RemoveId(ts, id) <==> t in ts && t.id != id
    ensures !HasId(RemoveId(ts, id), id)
    ensures !HasId(ts, id) ==> RemoveId(ts, id) == ts
    ensures |RemoveId(ts, id)| <= |ts|
  {
    Folds.FilterMembers(ts, IdIsNot(id), t);
    var r := RemoveId(ts, id);
    assert forall k :: 0 <= k < |r| ==> IdIsNot(id)(r[k]);
    if !HasId(ts, id) {
      assert forall k :: 0 <= k < |ts| ==> IdIsNot(id)(ts[k]);
      Folds.FilterAll(ts, IdIsNot(id));
    }
  }

  /** Removing an id from two stretches of the table is removing it from
      each: what is kept keeps its order. */
  lemma RemoveIdAppend(a: seq<Tournament>, b: seq<Tournament>, id: string)
    ensures RemoveId(a + b, id) == RemoveId(a, id) + RemoveId(b, id)
  {
    Folds.FilterAppend(a, b, IdIsNot(id));
  }

  // ----- addMatch, updateMatch, deleteMatch -----

  /** addMatch: the inbox is always found (so the source's fallback that
      re-creates it never runs); a missing tournament leaves the table as
      getTournamentById left it; otherwise that tournament, and only it,
      gains the match at its end, in place, and the table holds one match
      more. */
  lemma AddMatchProperties(ts: seq<Tournament>, tid: string, m: Match, id: string)
    ensures tid == INBOX_ID ==> Find(Fetch(ts, tid), tid).Some?
    ensures !HasId(Fetch(ts, tid), tid) ==> AddMatchTo(ts, tid, m) == Fetch(ts, tid)
    ensures HasId(Fetch(ts, tid), tid) ==>
      var t := Find(Fetch(ts, tid), tid).value;
      && Find(AddMatchTo(ts, tid, m), tid) == Some(t.(matches := t.matches + [m]))
      && |AddMatchTo(ts, tid, m)| == |Fetch(ts, tid)|
      && TotalMatches(AddMatchTo(ts, tid, m)) == TotalMatches(ts) + 1
    ensures id != tid && (id != INBOX_ID || HasId(ts, id)) ==> Find(AddMatchTo(ts, tid, m), id) == Find(ts, id)
  {
    var ts' := Fetch(ts, tid);
    FetchKeeps(ts, tid, id);
    FetchKeeps(ts, tid, tid);
    if HasId(ts', tid) {
      var t := Find(ts', tid).value;
      UpsertProperties(ts', t.(matches := t.matches + [m]), id);
      UpsertTotal(ts', t.(matches := t.matches + [m]));
    }
  }

  /** updateMatch: when both are found, the first match with that id, and no
      other, is replaced, in place, and the number of matches is unchanged;
      when either is missing nothing is saved. */
  lemma UpdateMatchProperties(ts: seq<Tournament>, tid: string, mid: string, um: Match, id: string)
    ensures !HasId(Fetch(ts, tid), tid) ==> UpdateMatchIn(ts, tid, mid, um) == Fetch(ts, tid)
    ensures HasId(Fetch(ts, tid), tid) ==>
      var t := Find(Fetch(ts, tid), tid).value;
      && (!HasMatch(t, mid) ==> UpdateMatchIn(ts, tid, mid, um) == Fetch(ts, tid))
      && (HasMatch(t, mid) ==>
            var k := Folds.FindIndex(t.matches, MatchIdIs(mid));
            && 0 <= k < |t.matches| && t.matches[k].id == mid
            && (forall j :: 0 <= j < k ==> t.matches[j].id != mid)
            && Find(UpdateMatchIn(ts, tid, mid, um), tid) == Some(t.(matches := t.matches[k := um]))
            && TotalMatches(UpdateMatchIn(ts, tid, mid, um)) == TotalMatches(ts))
    ensures id != tid && (id != INBOX_ID || HasId(ts, id)) ==> Find(UpdateMatchIn(ts, tid, mid, um), id) == Find(ts, id)
  {
    var ts' := Fetch(ts, tid);
    FetchKeeps(ts, tid, id);
    FetchKeeps(ts, tid, tid);
    if HasId(ts', tid) {
      var t := Find(ts', tid).value;
      var k := Folds.FindIndex(t.matches, MatchIdIs(mid));
      if k >= 0 {
        var t' := t.(matches := t.matches[k := um]);
        assert UpdateMatchIn(ts, tid, mid, um) == Upsert(ts', t');
        UpsertProperties(ts', t', id);
        UpsertTotal(ts', t');
        assert HasMatch(t, mid);
      } else {
        assert forall j :: 0 <= j < |t.matches| ==> !MatchIdIs(mid)(t.matches[j]);
      }
    }
  }

  /** deleteMatch: the tournament's matches become the filter of its old
      ones, so it keeps exactly its matches with another id, in their order
      (Folds.FilterAppend), and has none with that id left; a tournament
      without such a match is saved unchanged. */
  lemma DeleteMatchProperties(ts: seq<Tournament>, tid: string, mid: string, x: Match, id: string)
    ensures !HasId(Fetch(ts, tid), tid) ==> DeleteMatchIn(ts, tid, mid) == Fetch(ts, tid)
    ensures HasId(Fetch(ts, tid), tid) ==> Find(DeleteMatchIn(ts, tid, mid), tid).Some?
    ensures HasId(Fetch(ts, tid), tid) ==>
      var t := Find(Fetch(ts, tid), tid).value;
      var t' := Find(DeleteMatchIn(ts, tid, mid), tid).value;
      && t'.id == t.id && t'.date == t.date && t'.location == t.location && t'.format == t.format
      && t'.matches == Folds.Filter(t.matches, MatchIdIsNot(mid))
      && (x in t'.matches <==> x in t.matches && x.id != mid)
      && !HasMatch(t', mid)
      && (!HasMatch(t, mid) ==> t' == t)
      && TotalMatches(DeleteMatchIn(ts, tid, mid)) <= TotalMatches(ts)
    ensures id != tid && (id != INBOX_ID || HasId(ts, id)) ==> Find(DeleteMatchIn(ts, tid, mid), id) == Find(ts, id)
  {
    var ts' := Fetch(ts, tid);
    FetchKeeps(ts, tid, id);
    FetchKeeps(ts, tid, tid);
    if HasId(ts', tid) {
      var t := Find(ts', tid).value;
      var kept := Folds.Filter(t.matches, MatchIdIsNot(mid));
      var t' := t.(matches := kept);
      assert DeleteMatchIn(ts, tid, mid) == Upsert(ts', t');
      UpsertProperties(ts', t', id);
      UpsertProperties(ts', t', tid);
      UpsertTotal(ts', t');
      Folds.FilterMembers(t.matches, MatchIdIsNot(mid), x);
      assert forall k :: 0 <= k < |kept| ==> MatchIdIsNot(mid)(kept[k]);
      if !HasMatch(t, mid) {
        assert forall k :: 0 <= k < |t.matches| ==> MatchIdIsNot(mid)(t.matches[k]);
        Folds.FilterAll(t.matches, MatchIdIsNot(mid));
      }
    }
  }

  // ----- moveMatch -----

  /** moveMatch answers false exactly when the source, the target, or the
      match in the source is missing, and then saves nothing: the table is
      as the two reads left it, with the same matches. */
  lemma MoveFails(ts: seq<Tournament>, mid: string, from: string, to: string)
    ensures var ts1 := Fetch(ts, from);
      !MoveIn(ts, mid, from, to).ok <==>
        !HasId(ts1, from) || !HasId(Fetch(ts1, to), to) || !HasMatch(Find(ts1, from).value, mid)
    ensures !MoveIn(ts, mid, from, to).ok ==>
      && MoveIn(ts, mid, from, to).tournaments == Fetch(Fetch(ts, from), to)
      && TotalMatches(MoveIn(ts, mid, from, to).tournaments) == TotalMatches(ts)
  {
    var ts1 := Fetch(ts, from);
    FetchKeeps(ts, from, from);
    FetchKeeps(ts1, to, to);
    if HasId(ts1, from) {
      var s := Find(ts1, from).value;
      var k := Folds.FindIndex(s.matches, MatchIdIs(mid));
      if k >= 0 {
        assert HasMatch(s, mid);
      } else {
        assert forall j :: 0 <= j < |s.matches| ==> !MatchIdIs(mid)(s.matches[j]);
      }
    }
  }

  /** The two records of a successful move, as the source computes them. */
  lemma MoveRecords(ts: seq<Tournament>, mid: string, from: string, to: string)
      returns (s: Tournament, t: Tournament, k: nat)
    requires MoveIn(ts, mid, from, to).ok
    ensures Find(Fetch(ts, from), from) == Some(s)
    ensures Find(Fetch(Fetch(ts, from), to), to) == Some(t)
    ensures k == Folds.FindIndex(s.matches, MatchIdIs(mid)) && k < |s.matches| && s.matches[k].id == mid
    ensures MoveIn(ts, mid, from, to).tournaments ==
      Upsert(Upsert(Fetch(Fetch(ts, from), to), s.(matches := s.matches[..k] + s.matches[k + 1..])),
             t.(matches := t.matches + [s.matches[k]]))
  {
    var ts1 := Fetch(ts, from);
    var ts2 := Fetch(ts1, to);
    var source, target := Find(ts1, from), Find(ts2, to);
    assert source.Some? && target.Some?;
    s, t := source.value, target.value;
    var i := Folds.FindIndex(s.matches, MatchIdIs(mid));
    assert i >= 0;
    k := i;
    assert MatchIdIs(mid)(s.matches[k]);
  }

  /** A successful move between two different tournaments: the first match
      with that id leaves the source, the others keeping their order, and is
      appended to the target; no match is lost or gained. */
  lemma MoveBetween(ts: seq<Tournament>, mid: string, from: string, to: string)
    requires from != to && MoveIn(ts, mid, from, to).ok
    ensures var s := Find(Fetch(ts, from), from).value;
      var t := Find(Fetch(Fetch(ts, from), to), to).value;
      var k := Folds.FindIndex(s.matches, MatchIdIs(mid));
      var r := MoveIn(ts, mid, from, to).tournaments;
      && 0 <= k < |s.matches| && s.matches[k].id == mid
      && Find(r, from) == Some(s.(matches := s.matches[..k] + s.matches[k + 1..]))
      && Find(r, to) == Some(t.(matches := t.matches + [s.matches[k]]))
      && TotalMatches(r) == TotalMatches(ts)
  {
    var s, t, k := MoveRecords(ts, mid, from, to);
    var ts1 := Fetch(ts, from);
    var ts2 := Fetch(ts1, to);
    FetchKeeps(ts1, to, from);
    FetchKeeps(ts, from, from);
    FetchKeeps(ts1, to, to);
    assert Find(ts2, from) == Some(s) && Find(ts2, to) == Some(t);
    assert TotalMatches(ts2) == TotalMatches(ts);
    var s' := s.(matches := s.matches[..k] + s.matches[k + 1..]);
    var t' := t.(matches := t.matches + [s.matches[k]]);
    assert s'.id == from && t'.id == to;
    UpsertTwo(ts2, s', t', from);
    var r := Upsert(Upsert(ts2, s'), t');
    assert r == MoveIn(ts, mid, from, to).tournaments;
    assert |s'.matches| + 1 == |s.matches| && |t'.matches| == |t.matches| + 1;
    assert Find(r, from) == Some(s') && Find(r, to) == Some(t');
    assert TotalMatches(r) == TotalMatches(ts);
  }

  /** A successful move changes no tournament but the source and the target. */
  lemma MoveLeavesOthers(ts: seq<Tournament>, mid: string, from: string, to: string, id: string)
    requires from != to && MoveIn(ts, mid, from, to).ok
    ensures id != from && id != to ==> Find(MoveIn(ts, mid, from, to).tournaments, id) == Find(ts, id)
  {
    var s, t, k := MoveRecords(ts, mid, from, to);
    var ts1 := Fetch(ts, from);
    var ts2 := Fetch(ts1, to);
    FetchKeeps(ts1, to, from);
    FetchKeeps(ts, from, id);
    FetchKeeps(ts1, to, id);
    var s' := s.(matches := s.matches[..k] + s.matches[k + 1..]);
    var t' := t.(matches := t.matches + [s.matches[k]]);
    assert HasId(ts2, from) && HasId(ts2, to);
    UpsertTwo(ts2, s', t', id);
    if id == INBOX_ID && id != from && id != to {
      assert ts2 == ts;
    }
  }

  /** Saving two records with different ids that were both present. */
  lemma UpsertTwo(ts: seq<Tournament>, s: Tournament, t: Tournament, id: string)
    requires s.id != t.id && HasId(ts, s.id) && HasId(ts, t.id)
    ensures Find(Upsert(Upsert(ts, s), t), s.id) == Some(s)
    ensures Find(Upsert(Upsert(ts, s), t), t.id) == Some(t)
    ensures TotalMatches(Upsert(Upsert(ts, s), t)) + |Find(ts, s.id).value.matches| + |Find(ts, t.id).value.matches|
         == TotalMatches(ts) + |s.matches| + |t.matches|
    ensures id != s.id && id != t.id ==> Find(Upsert(Upsert(ts, s), t), id) == Find(ts, id)
  {
    var mid := Upsert(ts, s);
    UpsertProperties(ts, s, t.id);
    UpsertProperties(mid, t, s.id);
    UpsertProperties(ts, s, id);
    UpsertProperties(mid, t, id);
    UpsertTotal(ts, s);
    UpsertTotal(mid, t);
  }

  /** A move from a tournament to itself, as written: the copy read as the
      target still holds the match when it is saved last, so the tournament
      ends with the match twice, once where it was and once at the end. */
  lemma MoveWithin(ts: seq<Tournament>, mid: string, from: string)
    requires MoveIn(ts, mid, from, from).ok
    ensures var s := Find(Fetch(ts, from), from).value;
      var k := Folds.FindIndex(s.matches, MatchIdIs(mid));
      var r := MoveIn(ts, mid, from, from).tournaments;
      && 0 <= k < |s.matches|
      && Find(r, from) == Some(s.(matches := s.matches + [s.matches[k]]))
      && TotalMatches(r) == TotalMatches(ts) + 1
  {
    var s, t, k := MoveRecords(ts, mid, from, from);
    var ts1 := Fetch(ts, from);
    var ts2 := Fetch(ts1, from);
    var s' := s.(matches := s.matches[..k] + s.matches[k + 1..]);
    var t' := t.(matches := t.matches + [s.matches[k]]);
    FetchKeeps(ts, from, from);
    FetchKeeps(ts1, from, from);
    assert t == s;
    UpsertProperties(ts2, s', from);
    UpsertProperties(Upsert(ts2, s'), t', from);
    UpsertTotal(ts2, s');
    UpsertTotal(Upsert(ts2, s'), t');
    assert |s'.matches| + 1 == |s.matches|;
  }

  // ----- getAllDeckNames -----

  /** The deck names are exactly the non-empty own and opponent deck names
      of some match. */
  lemma {:induction false} DeckNamesOfMembers(ms: seq<Match>, d: string)
    ensures d in DeckNamesOf(ms) <==>
      d != "" && exists i :: 0 <= i < |ms| && (ms[i].myDeck == d || ms[i].opponentDeck == d)
    decreases |ms|
  {
    if |ms| > 0 {
      var init, m := ms[..|ms| - 1], ms[|ms| - 1];
      assert ms == init + [m];
      DeckNamesOfMembers(init, d);
      if d in DeckNamesOf(init) {
        var i :| 0 <= i < |init| && (init[i].myDeck == d || init[i].opponentDeck == d);
        assert ms[i] == init[i];
      }
      if d != "" && exists i :: 0 <= i < |ms| && (ms[i].myDeck == d || ms[i].opponentDeck == d) {
        var i :| 0 <= i < |ms| && (ms[i].myDeck == d || ms[i].opponentDeck == d);
        if i < |init| {
          assert init[i] == ms[i];
        }
      }
    }
  }

  lemma {:induction false} DeckNamesOfAppend(a: seq<Match>, b: seq<Match>)
    ensures DeckNamesOf(a + b) == DeckNamesOf(a) + DeckNamesOf(b)
    decreases |b|
  {
    if |b| == 0 {
      assert a + b == a;
    } else {
      var b', m := b[..|b| - 1], b[|b| - 1];
      assert a + b == (a + b') + [m] && b == b' + [m];
      DeckNamesOfAppend(a, b');
      DeckNamesOfSnoc(a + b', m);
      DeckNamesOfSnoc(b', m);
    }
  }

  lemma DeckNamesOfNext(ts: seq<Tournament>, i: nat)
    requires i < |ts|
    ensures DeckNamesOf(AllMatches(ts[..i + 1])) == DeckNamesOf(AllMatches(ts[..i])) + DeckNamesOf(ts[i].matches)
  {
    AllMatchesSnoc(ts, i);
    DeckNamesOfAppend(AllMatches(ts[..i]), ts[i].matches);
  }

  lemma DeckNamesOfSnoc(ms: seq<Match>, m: Match)
    ensures DeckNamesOf(ms + [m]) == DeckNamesOf(ms) + NamesOfMatch(m)
  {
    assert (ms + [m])[..|ms|] == ms;
  }

  /** The body of getAllDeckNames' inner loop: `deckNames.add` of each
      non-empty name of the match.  The `Set` is the list of its elements in
      the order they were first added. */
  method AddDeckNames(deckNames: seq<string>, m: Match) returns (deckNames': seq<string>)
    requires Folds.Distinct(deckNames)
    ensures Folds.Distinct(deckNames')
    ensures forall d :: d in deckNames' <==> d in deckNames || d in NamesOfMatch(m)
  {
    deckNames' := deckNames;
    if m.myDeck != "" && m.myDeck !in deckNames' {
      deckNames' := deckNames' + [m.myDeck];
    }
    if m.opponentDeck != "" && m.opponentDeck !in deckNames' {
      deckNames' := deckNames' + [m.opponentDeck];
    }
  }

  /** The two loops of getAllDeckNames: every non-empty deck name of every
      match of every tournament, each once. */
  method CollectDeckNames(ts: seq<Tournament>) returns (deckNames: seq<string>)
    ensures Folds.Distinct(deckNames)
    ensures forall d :: d in deckNames <==> d in DeckNamesOf(AllMatches(ts))
  {
    deckNames := [];
    for i := 0 to |ts|
      invariant forall d :: d in deckNames <==> d in DeckNamesOf(AllMatches(ts[..i]))
      invariant Folds.Distinct(deckNames)
    {
      deckNames := AddTournamentDeckNames(deckNames, ts[i].matches);
      DeckNamesOfNext(ts, i);
    }
    assert ts[..|ts|] == ts;
  }

  /** The inner loop of getAllDeckNames over the matches of one tournament. */
  method AddTournamentDeckNames(deckNames: seq<string>, ms: seq<Match>) returns (deckNames': seq<string>)
    requires Folds.Distinct(deckNames)
    ensures Folds.Distinct(deckNames')
    ensures forall d :: d in deckNames' <==> d in deckNames || d in DeckNamesOf(ms)
  {
    deckNames' := deckNames;
    for j := 0 to |ms|
      invariant Folds.Distinct(deckNames')
      invariant forall d :: d in deckNames' <==> d in deckNames || d in DeckNamesOf(ms[..j])
    {
      deckNames' := AddDeckNames(deckNames', ms[j]);
      assert ms[..j + 1] == ms[..j] + [ms[j]];
      DeckNamesOfSnoc(ms[..j], ms[j]);
    }
    assert ms[..|ms|] == ms;
  }

  /** `Array.from(deckNames).sort()`: the distinct names in strictly
      increasing order. */
  method SortDeckNames(deckNames: seq<string>) returns (names: seq<string>)
    requires Folds.Distinct(deckNames)
    ensures StringOrder.StrictlySorted(names)
    ensures forall d :: d in names <==> d in deckNames
  {
    StringOrder.LessIsWeakOrder();
    names := Sorting.Sort(deckNames, StringOrder.Less);
    Folds.DistinctPermutation(deckNames, names);
    StringOrder.SortedDistinctIsStrict(names);
    assert forall d :: d in names <==> d in multiset(names);
  }

  // ----- the store -----

  /** The file data/local-tournaments.json: an array of tournaments. */
  class TournamentStore {
    var tournaments: seq<Tournament>

    /** A store whose file does not exist yet reads as the empty array. */
    constructor ()
      ensures tournaments == []
    {
      tournaments := [];
    }

    /** ensureInboxExists on the stored array, writing it back only when the
        inbox had to be added. */
    method EnsureInboxExists()
      modifies this
      ensures tournaments == WithInbox(old(tournaments))
    {
      var hasInbox := IndexOfId(tournaments, INBOX_ID) >= 0;
      if !hasInbox {
        tournaments := [InboxRecord()] + tournaments;
      }
    }

    /** getTournaments: the whole table, with the inbox. */
    method GetTournaments() returns (ts: seq<Tournament>)
      modifies this
      ensures tournaments == WithInbox(old(tournaments))
      ensures ts == tournaments
    {
      EnsureInboxExists();
      ts := tournaments;
    }

    /** getTournamentById: the first tournament with that id, or None; asking
        for the inbox creates it. */
    method GetTournamentById(id: string) returns (r: Option<Tournament>)
      modifies this
      ensures tournaments == Fetch(old(tournaments), id)
      ensures r == Find(tournaments, id)
    {
      if id == INBOX_ID {
        EnsureInboxExists();
      }
      r := Find(tournaments, id);
    }

    /** saveTournament. */
    method SaveTournament(t: Tournament)
      modifies this
      ensures tournaments == Upsert(old(tournaments), t)
    {
      var ts := tournaments;
      var index := IndexOfId(ts, t.id);
      if index >= 0 {
        ts := ts[index := t];
      } else {
        ts := ts + [t];
      }
      tournaments := ts;
    }

    /** deleteTournament. */
    method DeleteTournament(id: string)
      modifies this
      ensures tournaments == RemoveId(old(tournaments), id)
    {
      tournaments := Folds.Filter(tournaments, IdIsNot(id));
    }

    /** addMatch.  The source's fallback for a missing inbox (re-read the
        file, create the inbox, look it up again) cannot run, because
        getTournamentById has just created the inbox. */
    method AddMatch(tid: string, m: Match)
      modifies this
      ensures tournaments == AddMatchTo(old(tournaments), tid, m)
    {
      ghost var ts := tournaments;
      var tournament := GetTournamentById(tid);
      if tournament.None? && tid == INBOX_ID {
        AddMatchProperties(ts, tid, m, tid);
        assert false;
      }
      if tournament.None? {
        return;
      }
      var t := tournament.value;
      SaveTournament(t.(matches := t.matches + [m]));
    }

    /** updateMatch. */
    method UpdateMatch(tid: string, mid: string, um: Match)
      modifies this
      ensures tournaments == UpdateMatchIn(old(tournaments), tid, mid, um)
    {
      var tournament := GetTournamentById(tid);
      if tournament.None? {
        return;
      }
      var t := tournament.value;
      var index := Folds.FindIndex(t.matches, MatchIdIs(mid));
      if index >= 0 {
        SaveTournament(t.(matches := t.matches[index := um]));
      }
    }

    /** deleteMatch. */
    method DeleteMatch(tid: string, mid: string)
      modifies this
      ensures tournaments == DeleteMatchIn(old(tournaments), tid, mid)
    {
      var tournament := GetTournamentById(tid);
      if tournament.None? {
        return;
      }
      var t := tournament.value;
      SaveTournament(t.(matches := Folds.Filter(t.matches, MatchIdIsNot(mid))));
    }

    /** getInboxMatches: the inbox's matches (`inbox?.matches || []`); the
        inbox always exists by then. */
    method GetInboxMatches() returns (ms: seq<Match>)
      modifies this
      ensures tournaments == WithInbox(old(tournaments))
      ensures Find(tournaments, INBOX_ID).Some?
      ensures ms == Find(tournaments, INBOX_ID).value.matches
    {
      ghost var ts := tournaments;
      var inbox := GetTournamentById(INBOX_ID);
      WithInboxProperties(ts, INBOX_ID);
      ms := if inbox.Some? then inbox.value.matches else [];
    }

    /** moveMatch.  The two saves of `Promise.all` run one after the other,
        source first, since saveTournament finishes before it returns. */
    method MoveMatch(mid: string, from: string, to: string) returns (ok: bool)
      modifies this
      ensures Moved(ok, tournaments) == MoveIn(old(tournaments), mid, from, to)
    {
      var source := GetTournamentById(from);
      var target := GetTournamentById(to);
      if source.None? || target.None? {
        return false;
      }
      var s, t := source.value, target.value;
      var matchIndex := Folds.FindIndex(s.matches, MatchIdIs(mid));
      if matchIndex < 0 {
        return false;
      }
      var m := s.matches[matchIndex];
      s := s.(matches := s.matches[..matchIndex] + s.matches[matchIndex + 1..]);
      t := t.(matches := t.matches + [m]);
      SaveTournament(s);
      SaveTournament(t);
      return true;
    }

    /** getAllDeckNames: every non-empty own or opponent deck name of every
        stored match, once each, in `sort()` order.  The `Set` is kept as the
        list of names in the order they were first added. */
    method GetAllDeckNames() returns (names: seq<string>)
      modifies this
      ensures tournaments == WithInbox(old(tournaments))
      ensures StringOrder.StrictlySorted(names)
      ensures forall d :: d in names <==> d in DeckNamesOf(AllMatches(old(tournaments)))
    {
      ghost var old_ts := tournaments;
      var ts := GetTournaments();
      var deckNames := CollectDeckNames(ts);
      WithInboxProperties(old_ts, INBOX_ID);
      names := SortDeckNames(deckNames);
    }
  }
}
