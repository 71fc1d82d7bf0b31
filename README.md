# mtg-tracker statistics and local store

This project models the core of mtg-tracker, a tracker for results in a
trading-card game, in Dafny. The core has three parts.

- **The statistics engine** (`src/lib/stats.ts`). It works out:
  - the result of one match;
  - a tournament summary;
  - the overall totals and the rounded match win rate;
  - per-deck and per-opposing-deck tables, each built on an insertion-ordered `Map` and then sorted;
  - win rates on the play and on the draw;
  - the win-rate trend, with tournaments sorted by date.
- **The quick-add route** (`src/app/api/quick-add/route.ts`). It turns a score such as "2-1" into a list of games that alternates between the play and the draw, then files the match in the inbox.
- **The local JSON store** (`src/lib/data-local.ts`). It holds a table of tournaments, including a reserved inbox tournament. Its operations read, upsert, delete, add or update or delete a match, move a match between tournaments, and list all deck names.

How each part is modelled:

- **Loops become methods.** A source loop that accumulates counters becomes a Dafny method with a loop. Each method is proved equal to a specification function. Examples:
  - `Stats.CalculateDeckStats` equals `StatsSpec.DeckStatsOf`;
  - `QuickAdd.ExpandResult` equals `QuickAdd.QuickGames`.
- **What the source promises is proved about those functions as lemmas.** This covers counts, bounds, which keys a table holds, what it counts under each key, its order and its totals.
- **The store is a class.** `DataLocal.TournamentStore` has one field, `tournaments`: the contents of the data file. Each operation has a specification function on the old table, such as `Upsert`, `AddMatchTo` or `MoveIn`, and lemmas state what that function does to the table.
- **JavaScript's sort is a proved stable sort.** `Array.prototype.sort` becomes a stable insertion sort, `Sorting.Sort`. It is proved to return a sorted permutation that keeps tied elements in their original order.
- **Rates are exact fractions.** The source computes `(wins / total) * 100` in floating point. Here it is a fraction, and `Math.round` becomes an integer formula.

Three behaviours of the code are easy to miss:

- `moveMatch` is not atomic. It performs two separate saves, first the source and then the target.
- When the source and the target are the same tournament, the match ends up in that tournament twice: once where it was, and once at the end. `DataLocal.MoveWithin` proves this.
  - The cause: the target is read before the source is saved, and the target copy is saved last.
  - The organize route can pass the inbox as both source and target.
- Asking `getTournamentById` for the inbox creates the inbox and writes it to the store. `DataLocal.Fetch` models this.
  - As a result, `addMatch`, `updateMatch`, `deleteMatch` and `moveMatch` can create the inbox as a side effect.
  - It also makes `addMatch`'s fallback that re-creates a missing inbox (src/lib/data-local.ts:85-90) unreachable. `DataLocal.AddMatchProperties` proves this.

## Model

| member | source | states |
|---|---|---|
| StatsSpec.CountWon | src/lib/stats.ts:4 | defines the number of won games; its properties are stated by StatsSpec.WonPlusLost and StatsSpec.CountAppend |
| StatsSpec.CountLost | src/lib/stats.ts:5 | defines the number of lost games; its properties are stated by StatsSpec.WonPlusLost and StatsSpec.CountAppend |
| StatsSpec.CalculateMatchResult | src/lib/stats.ts:3-7 | wins plus losses is the number of games; the match is won exactly when more than half the games are won; a match without games is 0-0 and lost |
| StatsSpec.WonPlusLost | src/lib/stats.ts:4-5 | every game is counted once, as won or as lost |
| StatsSpec.CountAppend | src/lib/stats.ts:4-5 | won and lost game counts add up over concatenated game lists |
| StatsSpec.Summary | src/lib/stats.ts:9-35 | defines the summary of one tournament; Stats.GetTournamentSummary is proved equal to it and StatsProperties.SummaryProperties states what it counts |
| Stats.GetTournamentSummary | src/lib/stats.ts:9-35 | the loop computes the summary; id, date and location are copied; every match counts once as a win or a loss; the game counts are those of all the tournament's games |
| StatsProperties.SummaryProperties | src/lib/stats.ts:9-35 | the summary's match counts add up to the number of matches and its game counts to the number of games |
| StatsProperties.MatchTotalsCounts | src/lib/stats.ts:15-24 | over any list of matches, match wins plus losses is its length and the game counts are the counts over all its games |
| StatsProperties.MatchTotalsAppend | src/lib/stats.ts:15-24 | totals over a concatenation are the sum of the totals of the parts |
| StatsProperties.TournamentTotalsFlat | src/lib/stats.ts:43-49 | adding up per-tournament summaries gives the totals over all matches of all tournaments at once |
| StatsSpec.Overall | src/lib/stats.ts:37-61 | defines the overall statistics; Stats.CalculateOverallStats is proved equal to it and StatsProperties.OverallProperties states what it counts |
| Stats.CalculateOverallStats | src/lib/stats.ts:37-61 | the loop computes the overall statistics; wins plus losses is the number of matches; the rate lies in 0..100 and is 0 without matches |
| StatsProperties.OverallProperties | src/lib/stats.ts:37-61 | totals count every match and game; the rate is the integer nearest to 100 * wins / matches, halves rounded up, and 0 without matches |
| StatsProperties.OverallEmpty | src/lib/stats.ts:51-59 | no tournaments give all-zero statistics |
| Rates.Percent | src/lib/stats.ts:117-118 | defines the guarded rate `total > 0 ? (wins / total) * 100 : 0` as an exact fraction; Rates.PercentOfNothing and Rates.PercentValue state its value |
| Rates.RoundedPercent | src/lib/stats.ts:52-59 | defines `Math.round` of the guarded rate as an integer formula; Rates.RoundedPercentNearest and Rates.RoundedPercentBounded state its value |
| Rates.RoundedPercentNearest | src/lib/stats.ts:52-59 | `Math.round` of the guarded rate is within one half of 100 * wins / total |
| Rates.RoundedPercentBounded | src/lib/stats.ts:52-59 | a rounded rate of a part of a total lies in 0..100 |
| Rates.PercentOfNothing | src/lib/stats.ts:52 | an empty total gives rate 0 rather than a division by zero |
| Rates.PercentValue | src/lib/stats.ts:87 | a guarded rate equals 100 * wins / total and is at most 100 |
| Rates.PercentGreater | src/lib/stats.ts:89 | comparing two rates is comparing the cross-products of their wins and totals |
| Rates.AtMostTransitive | src/lib/stats.ts:89 | "rate at most" is transitive, so the deck comparator is consistent |
| Rates.GreaterTransitive | src/lib/stats.ts:89 | "rate greater" is transitive |
| StatsSpec.Record | src/lib/stats.ts:67-77 | defines the effect of one `get`, increment and `set` on the map; TallyProperties.RecordEntry states it |
| StatsSpec.Step | src/lib/stats.ts:66-77 | defines one loop step: a match is filed under its key, or skipped when it has none; Stats.CountMatch is proved equal to it |
| StatsSpec.TallyOf | src/lib/stats.ts:64-79 | the map after visiting the matches in order lists each of its keys once, and exactly the keys it holds; TallyProperties states what it holds under each key |
| Stats.CountMatch | src/lib/stats.ts:68-77 | one loop step: the key's record, or a fresh one, gains a win or a loss, and a new key is appended to the key order |
| Stats.GroupMatches | src/lib/stats.ts:64-79 | the nested loops build exactly the map that folding every match of every tournament into it builds |
| TallyProperties.TallyCounts | src/lib/stats.ts:64-79 | the map holds exactly the keys some match is filed under, and under each the number of won and lost matches filed there |
| TallyProperties.TallyKeys | src/lib/stats.ts:64-79 | a key is in the map exactly when some match is filed under it |
| TallyProperties.TallyEntry | src/lib/stats.ts:64-79 | a key's entry counts the won and the lost matches filed under it; a key not in the map has no matches filed under it |
| TallyProperties.TallyTotal | src/lib/stats.ts:64-79 | summed over its keys, the map counts every filed match exactly once |
| TallyProperties.OwnDeckGroupsAll | src/lib/stats.ts:69-77 | grouping by the player's own deck files every match |
| TallyProperties.TallyOrderFirstSeen | src/lib/stats.ts:81 | `Map.entries()` lists keys in the order of the first match filed under each |
| TallyProperties.CountKeyedPositive | src/lib/stats.ts:81-88 | every listed key has at least one match, so its rate is never the zero-guard case |
| Sorting.Sort | src/lib/stats.ts:89 | the sort returns a permutation of its input, sorted by the comparator, and elements tied under the comparator keep their relative order |
| Sorting.StableOrder | src/lib/stats.ts:89 | two tied elements of the sorted list appear in that order in the input |
| StatsSpec.DeckBeforeIsWeakOrder | src/lib/stats.ts:89 | descending win rate is a strict weak order |
| StatsSpec.DeckStatsOf | src/lib/stats.ts:63-90 | defines the deck table: the map's entries as rows, sorted by descending exact rate; the GroupingProperties deck lemmas state its contents and order |
| Stats.CalculateDeckStats | src/lib/stats.ts:63-90 | the method builds the table; one row per distinct own-deck name of any match, no name twice, rows in non-increasing win rate |
| GroupingProperties.DeckStatsKeys | src/lib/stats.ts:63-90 | the rows' names are exactly the own-deck names of all matches, each once |
| GroupingProperties.DeckStatsCounts | src/lib/stats.ts:81-88 | each row counts exactly the won and lost matches played with that deck, at least one, and its rate is their exact percentage |
| GroupingProperties.DeckStatsTotal | src/lib/stats.ts:63-90 | the rows' wins and losses add up to the number of matches |
| GroupingProperties.DeckStatsOrder | src/lib/stats.ts:89 | rates never increase down the table, and decks with equal rates appear in the order in which they were first played |
| StatsSpec.MatchupBeforeIsWeakOrder | src/lib/stats.ts:150 | more matches first is a strict weak order |
| StatsSpec.MatchupStatsOf | src/lib/stats.ts:122-151 | defines the matchup table: the map's entries as rows, sorted by descending number of matches; the GroupingProperties matchup lemmas state its contents and order |
| Stats.CalculateMatchupStats | src/lib/stats.ts:122-151 | the method builds the table; one row per distinct non-empty opponent deck, no name twice, rows in non-increasing number of matches |
| GroupingProperties.OpponentDeckKeys | src/lib/stats.ts:127 | matches without an opponent deck are skipped: the keys are exactly the non-empty opponent decks |
| GroupingProperties.MatchupStatsKeys | src/lib/stats.ts:122-151 | the rows' names are exactly the non-empty opponent decks of all matches, each once |
| GroupingProperties.MatchupStatsCounts | src/lib/stats.ts:142-149 | each row counts exactly the won and lost matches against that deck, at least one, and its rate is their exact percentage |
| GroupingProperties.MatchupStatsTotal | src/lib/stats.ts:122-151 | the rows add up to the number of matches that name an opponent deck |
| GroupingProperties.MatchupStatsOrder | src/lib/stats.ts:150 | row sizes never increase down the table, and equal sizes keep the order of first appearance |
| StatsSpec.BucketsOf | src/lib/stats.ts:100-108 | defines the four counters after visiting the games in order; StatsProperties.BucketsCounts states them |
| StatsSpec.PlayDraw | src/lib/stats.ts:92-120 | defines the play/draw record with its guarded rates; StatsProperties.PlayDrawProperties states it |
| Stats.CalculatePlayDrawStats | src/lib/stats.ts:92-120 | the triple loop computes the buckets; every game is in exactly one bucket; the bucket wins add up to all game wins |
| StatsProperties.BucketsCounts | src/lib/stats.ts:98-110 | the two bucket totals add up to the games, each bucket's wins are part of it, and the wins add up to the won games |
| StatsProperties.PlayDrawProperties | src/lib/stats.ts:112-119 | each rate is 0 for an empty bucket and at most 100; the wins agree with the overall game wins |
| StatsSpec.TrendPointOf | src/lib/stats.ts:156-164 | defines one trend point: the tournament's date and its rounded match win rate |
| StatsProperties.TrendProperties | src/lib/stats.ts:153-166 | mapping a stably date-sorted permutation gives one point per tournament, dates never decreasing, rates at most 100, and the points of each date in input order |
| StatsProperties.TrendTies | src/lib/stats.ts:154-156 | with the ties of the sort kept, the points of date d are the points of the tournaments held on d, in input order |
| Stats.CalculateWinRateTrend | src/lib/stats.ts:153-166 | one point per tournament; the points are those of the tournaments, reordered; dates never decrease; every rate is at most 100; the points of one date come in the order of their tournaments in the input, as the stable sort keeps them |
| StatsSpec.DateBeforeIsWeakOrder | src/lib/stats.ts:154 | comparing ISO dates is a strict weak order |
| StatsExamples.EmptyMatchCountsAsLoss | src/lib/stats.ts:17-21 | a match with no games counts as a lost match |
| StatsExamples.OneWinTotals | src/lib/stats.ts:9-35 | a 2-0 match gives one match win and two game wins |
| StatsExamples.OneLossTotals | src/lib/stats.ts:9-35 | a 1-2 match gives one match loss, one game win and two game losses |
| StatsExamples.WinThenLossOverall | src/lib/stats.ts:37-61 | one won and one lost tournament give 1-1 in matches, 3-2 in games, rate 50 |
| StatsExamples.WinThenLossTrend | src/lib/stats.ts:153-166 | two tournaments are listed by date with rates 100 and 0 |
| StatsExamples.PlayDrawExample | src/lib/stats.ts:92-120 | six games give 3 of 4 on the play, 0 of 2 on the draw, and a 75 percent play rate |
| StringOrder.Less | src/lib/data-local.ts:145 | defines the order of the default `sort()`: code unit by code unit, a proper prefix first; StringOrder.LessIsWeakOrder states it is a strict weak order |
| StringOrder.LessIsWeakOrder | src/lib/data-local.ts:145 | the default string order is a strict weak order |
| StringOrder.SortedDistinctIsStrict | src/lib/data-local.ts:145 | sorted distinct names are strictly increasing |
| StringOrder.StrictlySortedUnique | src/lib/data-local.ts:145 | a set of names has exactly one strictly increasing listing, so the sorted names are determined by the set |
| QuickAdd.IsMyWin | src/app/api/quick-add/route.ts:30 | defines the loop's choice of the next game's winner; QuickAdd.QuickGamesCounts and QuickAdd.QuickGamesWonAt state its effect |
| QuickAdd.OnPlayAt | src/app/api/quick-add/route.ts:36 | defines the alternating play and draw; QuickAdd.QuickGamesWonAt states that each game has it |
| QuickAdd.QuickGames | src/app/api/quick-add/route.ts:22-39 | n loop steps give n games |
| QuickAdd.QuickGamesCounts | src/app/api/quick-add/route.ts:22-39 | after n games the wins and losses handed out match the closed form: alternate while both sides have games left, then the rest |
| QuickAdd.QuickGamesWonAt | src/app/api/quick-add/route.ts:22-39 | game i is won per the closed form, and on the play exactly when i is even, given the first game's side |
| QuickAdd.QuickGamesBounded | src/app/api/quick-add/route.ts:22-39 | no more wins or losses are handed out than the score has, and exactly the score's at the end |
| QuickAdd.QuickGamesProperties | src/app/api/quick-add/route.ts:22-39 | the full loop gives myWins + opponentWins games, exactly myWins won and opponentWins lost, alternating sides from the first game's, the first won when there is a win |
| QuickAdd.ExpandResult | src/app/api/quick-add/route.ts:22-39 | the loop builds myWins + opponentWins games, exactly myWins won and opponentWins lost, alternating play and draw, the first won when there is a win |
| QuickAdd.TwoOne | src/app/api/quick-add/route.ts:22-39 | "2-1" is win, loss, win |
| QuickAdd.OneTwo | src/app/api/quick-add/route.ts:22-39 | "1-2" is win, loss, loss |
| QuickAdd.NotesOrEmpty | src/app/api/quick-add/route.ts:47 | non-empty notes are kept; missing or empty notes become the empty string |
| QuickAdd.BuildMatch | src/app/api/quick-add/route.ts:41-48 | the match has the given id, no opponent name, the decks, the expanded games and the notes; it counts as won exactly when myWins > opponentWins |
| QuickAdd.QuickMatchResult | src/app/api/quick-add/route.ts:41-48 | the filed match's result has exactly the score's wins and losses |
| QuickAdd.PostQuickAdd | src/app/api/quick-add/route.ts:41-51 | the match is appended to the end of the inbox, which then exists; the store holds one match more |
| DataLocal.IndexOfId | src/lib/data-local.ts:65 | `findIndex` gives the first position with that id, or -1 exactly when there is none |
| DataLocal.Find | src/lib/data-local.ts:58-60 | `find` gives the first tournament with that id, or nothing exactly when there is none |
| DataLocal.TournamentStore.constructor | src/lib/data-local.ts:14-22 | a store without a data file reads as the empty table |
| DataLocal.WithInbox | src/lib/data-local.ts:30-43 | defines the table after ensureInboxExists; DataLocal.WithInboxProperties states it |
| DataLocal.TournamentStore.EnsureInboxExists | src/lib/data-local.ts:30-43 | the table becomes the table with the inbox ensured |
| DataLocal.WithInboxProperties | src/lib/data-local.ts:30-43 | afterwards there is an inbox; a table that had one is unchanged; an empty inbox is otherwise put first; it is idempotent; no match is added; other lookups are unchanged |
| DataLocal.TournamentStore.GetTournaments | src/lib/data-local.ts:47-51 | returns the table with the inbox ensured, which is also what is stored |
| DataLocal.Fetch | src/lib/data-local.ts:53-61 | defines the table after getTournamentById has read it; DataLocal.FetchKeeps states it |
| DataLocal.TournamentStore.GetTournamentById | src/lib/data-local.ts:53-61 | returns the first tournament with that id; asking for the inbox creates it |
| DataLocal.FetchKeeps | src/lib/data-local.ts:53-61 | reading by id loses no tournament and no match; the asked-for id is found exactly when it is the inbox or was present |
| DataLocal.Upsert | src/lib/data-local.ts:63-72 | defines saveTournament on the table; DataLocal.UpsertProperties and DataLocal.UpsertTotal state it |
| DataLocal.TournamentStore.SaveTournament | src/lib/data-local.ts:63-72 | the table becomes the upsert of the tournament |
| DataLocal.UpsertProperties | src/lib/data-local.ts:63-72 | a later lookup finds the saved record; other ids are unchanged; other records keep their places; the table grows only for a new id |
| DataLocal.UpsertTotal | src/lib/data-local.ts:63-72 | a save changes the number of stored matches by the size difference between the new record and the one it replaces |
| DataLocal.RemoveId | src/lib/data-local.ts:74-77 | defines deleteTournament's filter; DataLocal.RemoveIdProperties and DataLocal.RemoveIdAppend state it |
| DataLocal.TournamentStore.DeleteTournament | src/lib/data-local.ts:74-77 | the table becomes the filter that drops that id |
| DataLocal.RemoveIdProperties | src/lib/data-local.ts:74-77 | exactly the records with another id are kept; none with that id remains; a table without it is unchanged |
| DataLocal.RemoveIdAppend | src/lib/data-local.ts:76 | removing an id from a table made of two parts removes it from each part, so the records kept keep their order |
| Folds.FilterAppend | src/lib/data-local.ts:76 | filtering keeps the relative order of the elements it keeps |
| Folds.FilterMembers | src/lib/data-local.ts:76 | the filter keeps exactly the elements that pass |
| Folds.FindIndex | src/lib/data-local.ts:65 | the first passing position, or -1 exactly when none passes |
| DataLocal.AddMatchTo | src/lib/data-local.ts:81-95 | defines addMatch on the table; DataLocal.AddMatchProperties states it |
| DataLocal.TournamentStore.AddMatch | src/lib/data-local.ts:81-95 | the table becomes what the add-match function gives; the inbox fallback branch is shown unreachable |
| DataLocal.AddMatchProperties | src/lib/data-local.ts:81-95 | the inbox is always found; an unknown tournament changes nothing beyond the read; otherwise that tournament alone gains the match at its end, and the store one match |
| DataLocal.UpdateMatchIn | src/lib/data-local.ts:97-105 | defines updateMatch on the table; DataLocal.UpdateMatchProperties states it |
| DataLocal.TournamentStore.UpdateMatch | src/lib/data-local.ts:97-105 | the table becomes what the update-match function gives |
| DataLocal.UpdateMatchProperties | src/lib/data-local.ts:97-105 | the first match with that id, and only it, is replaced in place, and the match count is unchanged; nothing is saved when the tournament or the match is missing |
| DataLocal.DeleteMatchIn | src/lib/data-local.ts:107-112 | defines deleteMatch on the table; DataLocal.DeleteMatchProperties states it |
| DataLocal.TournamentStore.DeleteMatch | src/lib/data-local.ts:107-112 | the table becomes what the delete-match function gives |
| DataLocal.DeleteMatchProperties | src/lib/data-local.ts:107-112 | the tournament's matches become the order-keeping filter of its old matches, so it keeps its fields and exactly its matches with another id, in their order; none with that id remains; without such a match it is unchanged |
| DataLocal.TournamentStore.GetInboxMatches | src/lib/data-local.ts:116-119 | the inbox exists afterwards, and its matches are returned |
| DataLocal.MoveIn | src/lib/data-local.ts:121-134 | defines moveMatch's answer and the table it leaves; DataLocal.MoveFails, DataLocal.MoveBetween, DataLocal.MoveLeavesOthers and DataLocal.MoveWithin state them |
| DataLocal.TournamentStore.MoveMatch | src/lib/data-local.ts:121-134 | answer and table are those of the move function |
| DataLocal.MoveFails | src/lib/data-local.ts:121-127 | the move fails exactly when the source, the target or the match is missing, and then nothing is saved |
| DataLocal.MoveBetween | src/lib/data-local.ts:121-134 | between different tournaments, the first match with that id leaves the source and is appended to the target; the total number of matches is unchanged |
| DataLocal.MoveLeavesOthers | src/lib/data-local.ts:121-134 | a successful move changes no tournament but the source and the target |
| DataLocal.MoveWithin | src/lib/data-local.ts:121-134 | a move within a single tournament leaves the match there twice, and the store one match more |
| DataLocal.TournamentStore.GetAllDeckNames | src/lib/data-local.ts:136-146 | the answer is strictly increasing and holds exactly the deck names of the stored matches; the inbox is ensured |
| DataLocal.AddDeckNames | src/lib/data-local.ts:141-142 | the set gains exactly the match's non-empty deck names and never holds one twice |
| DataLocal.AddTournamentDeckNames | src/lib/data-local.ts:140-143 | the inner loop adds exactly the non-empty deck names of the tournament's matches and never holds one twice |
| DataLocal.CollectDeckNames | src/lib/data-local.ts:138-144 | the nested loops collect each non-empty deck name of every match of every tournament, and each only once |
| DataLocal.SortDeckNames | src/lib/data-local.ts:145 | sorting the distinct names gives them in strictly increasing order, no name lost |
| DataLocal.DeckNamesOfMembers | src/lib/data-local.ts:136-146 | a name is listed exactly when it is non-empty and some match uses it as own or opponent deck |

## Left out

- The file system is not modelled: `ensureDataDir`, `readData`, `writeData` and the JSON encoding. The file's contents are the store's `tournaments` field. Every operation starts from what the last one wrote, as the source's fresh `readData` does.
- Concurrency is not modelled. The `async` operations run one at a time, so two requests interleaving their reads and writes of the file is not covered.
- The two saves inside `moveMatch`'s `Promise.all` are modelled as sequential, source first. This matches the source, because `saveTournament` does all its work before its first `await`.
- Win rates are exact fractions, not floating point.
  - The comparator `b.winRate - a.winRate` and `Math.round` can behave differently on rounded doubles. For example, 14.5 can be computed as 14.4999…, so the rounding and the tie-breaking among equal rates are exact here where the source may differ.
- `new Date(date).getTime()` is modelled as the character order of ISO `YYYY-MM-DD` strings. Dates that do not parse, which give `NaN` in the source comparator, are not modelled.
- JavaScript's `sort()` compares UTF-16 code units. The model compares Unicode characters, which orders the same way except for characters outside the Basic Multilingual Plane.
- Score parsing is not modelled: `result.split('-').map(Number)`. The model takes the two scores as natural numbers, so malformed, negative or fractional scores are not covered.
- `crypto.randomUUID()` is not modelled. The new match's id is a parameter.
- The HTTP handlers' request parsing, JSON responses and error responses are not modelled. Nor are the GET handler of the quick-add route (it returns `getAllDeckNames`, which is modelled), the Supabase backend, the module that chooses between the backends, and the user interface.
- The inbox's `gameType: 'Magic'` is not modelled, because the Tournament type in src/lib/types.ts has no such field.
- Filtering out the inbox and selecting a game type before calling the statistics functions is done by callers. It is not modelled.
- The fallback in `addMatch` that re-creates a missing inbox (src/lib/data-local.ts:85-90) is not modelled as a computation. `DataLocal.AddMatchProperties` proves that the branch cannot run, and `DataLocal.TournamentStore.AddMatch` marks it unreachable.
- Aliasing is not modelled because the source has none to model: every read parses a fresh copy of the file, so a record that an operation changes is never shared with the stored table.
