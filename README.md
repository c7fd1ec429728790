# Ping-pong ladder: monthly awards, match rules and data store

This project is a Dafny model of the logic of a small ping-pong ladder web
application (Next.js, React and Supabase). Players record matches. Each
match updates the players' ratings and win/loss counters. Every month the
application hands out awards in nine categories, computed by folding the
month's matches into per-player statistics:

- most points;
- highest rating;
- longest winning streak;
- giant killer;
- social butterfly;
- best defence;
- highest match score;
- biggest rating swing;
- biggest loser.

Two one-off scripts produce the same awards for past months. A CSV export
and a CSV import move award rows between the scripts and the database.

The model has one module per source file of the core:

- MonthlyWinners: components/MonthlyWinners.jsx.
- ExportAwards: components/ExportAwards.jsx.
- BackfillAwards: scripts/backfill-awards.js.
- GenerateAwardsCsv: scripts/generate-awards-csv.js.
- ImportAwardsCsv: scripts/import-awards-csv.js.
- StatsCards: components/StatsCards.jsx.
- Scoreboard: components/Scoreboard.jsx.
- Leaderboard: components/Leaderboard.jsx.
- AddMatchDialog: components/AddMatchDialog.jsx.
- AddPlayerDialog: components/AddPlayerDialog.jsx.
- PlayerDetail: components/PlayerDetail.jsx.
- DataContext: lib/DataContext.js.
- PlayersApi: pages/api/players.js.

Shared modules:

- StatsFold: the monthly statistics fold that four places in the source copy line for line.
- Rankings: the nine ranked lists built from that fold.
- Rivalry: the unordered-pair match counter.
- Rating: the rating and counter update after a match.
- Sorting: `Array.prototype.sort` with a numeric comparator, a stable sort.
- Grouping: the `grouped[key].push(x)` dictionary pattern.
- Text: JavaScript's `trim`, `split`, `join`, `toLowerCase`, `parseInt`, `Number` and number printing.
- Domain: players, matches, award rows, and the calendar month of a match.
- Wrappers: `Option` and `Result`.

Modelling choices:

- The code that updates state in place is imperative Dafny:
  - the per-player statistics dictionaries and the rivalry counters are maps that loops update;
  - the forms (Scoreboard, Leaderboard and the two dialogs) and the data store are classes whose methods change their fields.
- Each such method is proved against a specification function. Lemmas then state what that function means: sums, maxima, streak rules, partitions and round trips.
- A timestamp is an instant in milliseconds, plus the local year and 0-based month that `getFullYear` and `getMonth` report for it.
- The clock (`Date.now()`, `new Date()`) is a parameter.
- Every network or database call becomes its outcome, a `Result` value the caller supplies.
- The floating-point part of the rating formula is a function parameter `delta`.

## Model

| member | source | states |
|---|---|---|
| Domain.When | components/MonthlyWinners.jsx:44 | a match's time is `played_at` when present, otherwise `created_at` |
| Domain.FilterMonth | components/MonthlyWinners.jsx:43-47 | a match is kept iff its time falls in the selected month and year; nothing else is kept or dropped; by `FilterMonthConcat` the kept matches stay in input order |
| Domain.FilterMonthConcat | components/MonthlyWinners.jsx:43-47 | filtering distributes over concatenation and keeps a single match iff it is of the month, so the kept matches are in input order |
| Domain.SwingOf | components/MonthlyWinners.jsx:319-320 | `Math.abs` of a rating change; a `null` change counts as 0 |
| Domain.MonthName | components/MonthlyWinners.jsx:121 | the English name of the month index, always one of the twelve names |
| Domain.Roster | components/MonthlyWinners.jsx:272-287 | the stats dictionary has a key exactly for every player id; the record stored under an id carries that id and is one of the listed players; `RosterLast` says which one |
| Domain.RosterLast | components/MonthlyWinners.jsx:272-287 | the record stored under an id is the last listed player with that id, since later assignments overwrite |
| Domain.IdOrder | components/MonthlyWinners.jsx:366 | `Object.values` lists each key of the dictionary once, and exactly the roster's keys; `IdOrderFirstAppearance` gives their order |
| Domain.IdOrderFirstAppearance | components/MonthlyWinners.jsx:366 | ids are listed by first appearance: the first record of an earlier id comes before every record of a later one |
| Domain.FindPlayer | components/Scoreboard.jsx:113-114 | `players.find` by id: `None` iff no player has the id; otherwise the first listed player with that id |
| Domain.FindByName | components/Leaderboard.jsx:68-70 | `players.find` ignoring letter case: `None` iff no name matches; otherwise a listed player whose name matches; `FindByNameFirst` makes it the first |
| Domain.FindByNameFirst | components/Leaderboard.jsx:68-70 | no player before the one found has a matching name |
| Domain.RoundHalfUp | components/StatsCards.jsx:56 | `Math.round` gives the integer within one half of its argument |
| Domain.Percent | components/StatsCards.jsx:56 | a rounded win percentage lies in 0..100 whenever 0 <= won <= played |
| Sorting.SortDesc | components/MonthlyWinners.jsx:374-382 | the copy-and-sort is a permutation of its input, sorted by the comparator's key |
| Sorting.SortDescStable | components/MonthlyWinners.jsx:374-382 | elements with equal keys keep their input order |
| Sorting.SortDescHead | scripts/backfill-awards.js:150-158 | `sort(...)[0]` is the first element of greatest key in input order |
| Sorting.SortDescHeadMax | scripts/backfill-awards.js:150-158 | the head of the sorted list has a key at least as great as any element's |
| Sorting.FirstMaxIndex | scripts/backfill-awards.js:150-158 | the index of the first element whose key is maximal |
| Text.Trim | pages/api/players.js:25 | the trimmed string has no white space at either end and equals the input when the input has none; `TrimWindow` makes it the input with only white space cut from each end |
| Text.TrimWindow | pages/api/players.js:25 | the trimmed string is a slice of the input, and everything cut off on either side is white space |
| Text.BlankIffAllWhite | components/AddPlayerDialog.jsx:113 | `!s.trim()` holds iff every character of `s` is white space |
| Text.Split | scripts/import-awards-csv.js:29 | `split` gives at least one piece; no piece contains the separator; joining the pieces gives back the string |
| Text.SplitOfJoin | scripts/import-awards-csv.js:29 | splitting undoes joining when no part contains the separator |
| Text.ToLower | components/Leaderboard.jsx:68-70 | `toLowerCase` keeps the length, lowers each ASCII capital to the letter 32 code points above and leaves every other character as it is |
| Text.IntToStringClean | components/ExportAwards.jsx:140 | a printed integer contains no comma, line break or space, and no `-` unless negative |
| Text.ParseIntOfIntToString | scripts/import-awards-csv.js:33-34 | `parseInt` reads back every printed integer |
| Text.NumberOfNatToString | components/ExportAwards.jsx:112 | `Number` reads back every printed natural number |
| Rating.ActualHalves | components/Scoreboard.jsx:95 | the actual score in halves: 2 for a win, 1 for a tie, 0 for a loss |
| Rating.ActualComplement | components/Scoreboard.jsx:95 | the two players' actual scores add up to one point |
| Rating.WinnerOf | components/Scoreboard.jsx:123 | the winner is always one of the two players |
| Rating.WinnerRule | components/Scoreboard.jsx:123 | player 1 wins iff they scored strictly more; a tie names player 2 |
| Rating.ApplyMatch | components/Scoreboard.jsx:143-165 | the `prev.map` update keeps the list's length and updates each record on its own |
| Rating.ApplyMatchEffect | components/Scoreboard.jsx:143-165 | both participants play one more match, the winner wins one more and the other loses one more; each rating moves by its own change; others are unchanged; ids, names and `played == won + lost` are kept |
| Rating.SumEloAfter | components/Scoreboard.jsx:143-165 | the rating sum moves by each change once per record of its player |
| Rating.UpdatedElo | components/Scoreboard.jsx:148-157 | one record's rating after the update, plus changes still to come, is its old rating plus each change it is owed |
| Rating.ZeroSum | components/Scoreboard.jsx:121-122 | with player 2's change the negation of player 1's and each player listed once, a match leaves the sum of ratings unchanged |
| Scoreboard.ByCreated | components/Scoreboard.jsx:55 | fetched matches are a permutation of the answer, newest `created_at` first |
| Scoreboard.Scoreboard.constructor | components/Scoreboard.jsx:6-15 | the form starts with no players, no matches, no selection, scores 0 and no error |
| Scoreboard.Rejection | components/Scoreboard.jsx:103-119 | the checks of `addMatch` in order: two different players, then no negative score, then both players known; a match is sent iff all pass |
| Scoreboard.TieAccepted | components/Scoreboard.jsx:121-123 | a tie between two known players is sent, counts as half a point each, and names player 2 the winner |
| Scoreboard.AcceptedUpdate | components/Scoreboard.jsx:121-165 | an accepted match keeps the rating sum of a roster that lists each player once, and keeps balanced records balanced |
| Scoreboard.Scoreboard.FetchPlayers | components/Scoreboard.jsx:23-38 | the fetched list replaces the players and fills an empty selection with the first or second player; a failure empties the list |
| Scoreboard.Scoreboard.FetchMatches | components/Scoreboard.jsx:40-63 | the matches become the answer sorted newest first, or none after a failure |
| Scoreboard.Scoreboard.AddPlayer | components/Scoreboard.jsx:67-89 | a blank name is refused; otherwise the trimmed name is sent; success appends the player, clears the name and fills the first empty selection; a failure shows its message |
| Scoreboard.Scoreboard.Added | components/Scoreboard.jsx:82-85 | the added player is appended and fills player 1's slot if empty, else player 2's if empty |
| Scoreboard.Scoreboard.AddMatch | components/Scoreboard.jsx:101-172 | rejected matches change nothing but the error; an accepted one is sent with the winner and the opposite changes; success prepends the match, applies the rating update and resets the scores |
| Scoreboard.Scoreboard.Recorded | components/Scoreboard.jsx:141-168 | the new match goes first, the update is applied to the players, both scores return to 0 |
| Leaderboard.CanSubmit | components/Leaderboard.jsx:108-119 | the button is enabled iff both players are chosen, they differ, and one score is at least 11 |
| Leaderboard.MatchRejection | components/Leaderboard.jsx:138-149 | both scores below 11 are refused first, then an unknown player; a match is sent iff neither applies |
| Leaderboard.ElevenAllAccepted | components/Leaderboard.jsx:138-153 | an 11-11 tie passes both the button and the checks, counts as a draw for the rating, and names player 2 the winner |
| Leaderboard.SelfMatchOnlyDisabled | components/Leaderboard.jsx:108-149 | a player against themselves is stopped only by the disabled button, not by the submit checks |
| Leaderboard.SubmittableMeetsElevenRule | components/Leaderboard.jsx:108-141 | whatever the button allows passes the 11-point rule |
| Leaderboard.NameRejection | components/Leaderboard.jsx:62-74 | a blank name is refused first, then a name equal to an existing one ignoring case; the name is accepted iff neither applies |
| Leaderboard.AcceptedNameKeepsDistinct | components/Leaderboard.jsx:68-78 | adding an accepted name, stored trimmed, keeps all names distinct ignoring case |
| Leaderboard.AcceptedNameTrimmed | components/Leaderboard.jsx:62-78 | the name sent is not empty and has no white space at either end |
| Leaderboard.Leaderboard.constructor | components/Leaderboard.jsx:12-17 | the form starts with no selection, scores 0, an empty name and no error |
| Leaderboard.Leaderboard.HandleAddMatch | components/Leaderboard.jsx:131-186 | a rejected match sets its message and keeps the form; an accepted one is sent with the winner, opposite changes and `played_at = now`; success resets scores and selections; a failure shows its message |
| Leaderboard.Leaderboard.HandleAddPlayer | components/Leaderboard.jsx:60-87 | a rejected name sets its message; an accepted one is sent trimmed; success clears the name, a failure keeps it |
| Leaderboard.Leaderboard.PlayerAnswered | components/Leaderboard.jsx:76-85 | success clears the error and the name; a failure shows its message and keeps the name |
| AddMatchDialog.Rejection | components/AddMatchDialog.jsx:56-69 | the submit checks in order: a missing player, the same player twice, a tie; a match is sent iff none applies |
| AddMatchDialog.AcceptedWinner | components/AddMatchDialog.jsx:79 | a sent match names one of its two players as the winner, and that player scored strictly more |
| AddMatchDialog.TieEnabledThenRefused | components/AddMatchDialog.jsx:49-69 | a tie above 0 enables the button and is then refused by the submit handler |
| AddMatchDialog.AddMatchDialog.constructor | components/AddMatchDialog.jsx:10-14 | the dialog starts with no selection, scores 0 and no error |
| AddMatchDialog.AddMatchDialog.HandleClose | components/AddMatchDialog.jsx:36-47 | closing resets both players, both scores and the error |
| AddMatchDialog.AddMatchDialog.HandleSubmit | components/AddMatchDialog.jsx:53-85 | a rejected match sets its message and keeps the form; an accepted one is sent with the higher scorer as winner; success closes and resets; a failure shows its message |
| AddPlayerDialog.ConfirmDisabled | components/AddPlayerDialog.jsx:113 | the confirm button is disabled iff the name is all white space |
| AddPlayerDialog.DisabledIffEmptyRefusal | components/AddPlayerDialog.jsx:42-56 | disabled exactly for the names refused as empty; every other refusal is a taken name |
| AddPlayerDialog.AddPlayerDialog.constructor | components/AddPlayerDialog.jsx:10-11 | the dialog starts with an empty name and no error |
| AddPlayerDialog.AddPlayerDialog.HandleClose | components/AddPlayerDialog.jsx:33-40 | closing clears the name and the error |
| AddPlayerDialog.AddPlayerDialog.HandleSubmit | components/AddPlayerDialog.jsx:42-66 | the leaderboard's name checks; an accepted name is sent trimmed; success clears the name and closes; a failure shows its message and keeps the name |
| PlayersApi.Handle | pages/api/players.js:5-37 | GET lists; POST with a missing, non-string or blank name gets 400; any other POST inserts the trimmed name at rating 1000 with zero counters; other methods get 405 |
| PlayersApi.CreatedPlayer | pages/api/players.js:22-30 | a created player has a non-empty trimmed name, rating 1000, no matches and `played == won + lost` |
| PlayersApi.FormNameStored | pages/api/players.js:16-30 | a name the form accepts, sent trimmed, is stored exactly as sent |
| PlayersApi.BlankRefused | pages/api/players.js:18-20 | a name of white space only is refused with 400 |
| StatsFold.Fresh | components/MonthlyWinners.jsx:272-287 | a new record starts with no points, no points against, no opponents and zero streaks |
| StatsFold.Processed | components/MonthlyWinners.jsx:299-302 | the matches the fold handles are exactly those whose two players are both known; by `ProcessedConcat` they keep their input order |
| StatsFold.ProcessedConcat | components/MonthlyWinners.jsx:299-302 | the filter distributes over concatenation and keeps a single match iff both players are known |
| StatsFold.AddPoints | components/MonthlyWinners.jsx:307-308 | each player's total rises by their own score in the match, and only the match's players change |
| StatsFold.PushAgainst | components/MonthlyWinners.jsx:311-312 | each player's points-against list gains the opponent's score |
| StatsFold.RaiseMax | components/MonthlyWinners.jsx:315-316 | each player's best match score is raised to their score in the match |
| StatsFold.RaiseSwing | components/MonthlyWinners.jsx:319-320 | each player's biggest swing is raised to the absolute value of their rating change |
| StatsFold.UpdateStreaks | components/MonthlyWinners.jsx:323-335 | the loser's losses rise and streak resets; the winner's streak rises and the longest is raised to it |
| StatsFold.CountGiant | components/MonthlyWinners.jsx:340-344 | the winner's giant-kill count rises when rated strictly below the loser |
| StatsFold.AddOpponents | components/MonthlyWinners.jsx:347-348 | each player's opponent set gains the other player |
| StatsFold.FoldMonth | components/MonthlyWinners.jsx:298-364 | the loop leaves, for every player, the record the specification fold gives for the sorted matches |
| StatsFold.StartRecords | components/MonthlyWinners.jsx:272-287 | the initial dictionary is the fold over no matches: a fresh record under every player id |
| StatsFold.ApplyMatch | components/MonthlyWinners.jsx:307-348 | the loop body for a match between two known players is the specification step |
| StatsFold.FoldStep | components/MonthlyWinners.jsx:298-364 | one iteration extends the described prefix by one match, skipping a match with an unknown player |
| StatsFold.FoldMatches | components/MonthlyWinners.jsx:298-364 | the `forEach` leaves the dictionary the fold over all the sorted matches |
| StatsFold.Folded | components/MonthlyWinners.jsx:272-364 | the specification fold as a dictionary: a key for every player, each holding its expected record |
| StatsFold.DescribesUnique | components/MonthlyWinners.jsx:272-364 | any dictionary the loop can leave is that one dictionary, so the fold is deterministic |
| StatsFold.StepDescribes | components/MonthlyWinners.jsx:298-364 | one more match keeps the dictionary equal to the specification fold, and a skipped match changes nothing |
| StatsFold.ExpectedMeaning | components/MonthlyWinners.jsx:307-320 | after the fold: one points-against entry per processed match played; total = sum of own scores; best match and biggest swing are maxima over own scores and own swings (0 if none); 0 <= current streak <= longest streak |
| StatsFold.StreakRules | components/MonthlyWinners.jsx:323-335 | a win adds one to the streak and raises the longest to it; a loss zeroes the streak and adds a loss; a match whose winner is neither player changes no streak or loss |
| StatsFold.GiantRuleMeaning | components/MonthlyWinners.jsx:340-344 | a giant kill goes to the winner iff rated strictly below the other player, and to at most one player per match |
| StatsFold.GiantStepCount | components/MonthlyWinners.jsx:340-344 | a match adds one giant kill to a player exactly when it is that player's giant kill |
| StatsFold.OpponentsMeaning | components/MonthlyWinners.jsx:347-348 | an id is among a player's opponents iff some processed match pairs them |
| StatsFold.AgainstLength | components/MonthlyWinners.jsx:311-312 | the points-against and own-score lists have one entry per appearance |
| StatsFold.MaxFoldBounds | components/MonthlyWinners.jsx:315-320 | a running maximum bounds its start and every value, and is one of them |
| StatsFold.RunKeepsOk | components/MonthlyWinners.jsx:323-335 | the streak rules keep 0 <= current <= longest; losses and longest never decrease |
| Rankings.WithStats | components/MonthlyWinners.jsx:366 | the active list is exactly the records with at least one points-against entry; by `WithStatsConcat` they keep the order of `Object.values` |
| Rankings.WithStatsConcat | components/MonthlyWinners.jsx:366 | the filter distributes over concatenation and keeps a single record iff it has a points-against entry |
| Rankings.Rank | components/MonthlyWinners.jsx:374-382 | each of eight lists is a permutation of the active records sorted by its own statistic, best defence ascending; `highestElo` is a permutation of all players sorted by rating |
| Rankings.RankedAreActive | components/MonthlyWinners.jsx:366-382 | inactive players appear in no list but `highestElo`, which holds every player |
| Rankings.RankHeads | components/MonthlyWinners.jsx:374-382 | `sort` is stable, so each list's head is the earliest record with the best key; `highestElo`'s head is the earliest best-rated player |
| Rivalry.PairKey | components/MonthlyWinners.jsx:351 | the pair key is one of the two joinings of the ids |
| Rivalry.PairKeySymmetric | components/MonthlyWinners.jsx:351 | both orientations of a pair give one key |
| Rivalry.KeyOrder | components/MonthlyWinners.jsx:385 | the counter lists each key once, and exactly the keys of the matches |
| Rivalry.TallyMatch | components/MonthlyWinners.jsx:352-360 | one match opens its entry if new, then bumps it; the counter stays exact |
| Rivalry.CountRivalries | components/MonthlyWinners.jsx:350-361 | the counter lists keys in first-seen order; each entry counts its key's matches and keeps the first one |
| Rivalry.TableMeaning | components/MonthlyWinners.jsx:350-361 | a counter that tallied all matches holds exactly their keys with their counts |
| Rivalry.FirstWithUnique | components/MonthlyWinners.jsx:352-358 | a key has one earliest match, so the entry a new key opens is determined |
| Rivalry.KeyCountPositive | components/MonthlyWinners.jsx:350-361 | a key is listed iff some match carries it |
| Rivalry.CountsSum | components/MonthlyWinners.jsx:350-361 | the counts add up to the number of matches tallied |
| MonthlyWinners.ByTime | components/MonthlyWinners.jsx:293-295 | the sorted copy is a permutation of the month's matches, oldest first |
| MonthlyWinners.ByTimeStable | components/MonthlyWinners.jsx:293-295 | matches at the same instant keep their input order |
| MonthlyWinners.Records | components/MonthlyWinners.jsx:353-358 | each rivalry record carries the first match's players and ids, and its key's count |
| MonthlyWinners.RivalryRecordsMeaning | components/MonthlyWinners.jsx:350-361 | the i-th record is that of the i-th pair key: its ids join to that key, its count is the key's match count and positive, and its players and ids are those of the first match with the key, in that match's orientation |
| MonthlyWinners.RecordsAgree | components/MonthlyWinners.jsx:350-385 | `Object.values` of the counter the loop builds is exactly `RivalryRecords` of the matches |
| MonthlyWinners.TopRivalryHead | components/MonthlyWinners.jsx:385-386 | `topRivalries[0]` is the earliest-keyed pair with the greatest count, since `sort` is stable |
| MonthlyWinners.SumCountsPerm | components/MonthlyWinners.jsx:385-386 | reordering the records keeps the sum of their counts |
| MonthlyWinners.TopRivalries | components/MonthlyWinners.jsx:385-386 | the list is exactly `RivalryRecords` sorted by count, stably: one record per pair that met, in first-seen key order before sorting; each count is its pair's match count and positive; the counts add up to the processed matches |
| MonthlyWinners.CalculateMonthlyWinners | components/MonthlyWinners.jsx:266-401 | `null` iff the month has no matches; otherwise the stats are the fold over the sorted matches, the lists are their ranking, and the rivalries are `RivalryRecords` of the processed matches sorted by count |
| MonthlyWinners.CalculateWinnersForMatches | components/MonthlyWinners.jsx:172-263 | `null` iff the list is empty; otherwise exactly `WinnersOf`: the ranking of the fold over the sorted matches, `highestElo` holding every player |
| MonthlyWinners.WinnersOf | components/MonthlyWinners.jsx:172-263 | the ranking of the fold over the matches oldest first; `highestElo` holds every player |
| MonthlyWinners.StatsWinner | components/MonthlyWinners.jsx:139 | no winner for an empty list; otherwise the head's `player.id` |
| MonthlyWinners.PlayerWinner | components/MonthlyWinners.jsx:139 | a bare player record has no `.player`, so its own id is used |
| MonthlyWinners.Categories | components/MonthlyWinners.jsx:123-134 | the nine categories, in order, under their stored names |
| MonthlyWinners.CategoriesNamed | components/MonthlyWinners.jsx:123-134 | every category is one of the nine stored names |
| MonthlyWinners.CategoryKeysDistinct | components/MonthlyWinners.jsx:123-134 | no two categories share a name |
| MonthlyWinners.Won | components/MonthlyWinners.jsx:137-138 | exactly the categories that have a winner, in order |
| MonthlyWinners.BuildRows | components/MonthlyWinners.jsx:137-150 | one row per category with a winner, in category order, with the 0-based month, year and month name |
| MonthlyWinners.RowsFacts | components/MonthlyWinners.jsx:137-150 | every category with a winner has a row, every row has a category, and distinct names give distinct rows |
| MonthlyWinners.SaveMonthAwards | components/MonthlyWinners.jsx:115-169 | the rows are exactly `AwardRows` of the month's matches, so each row's player is the head of its ranked list; no rows for no matches; at most nine rows, all of the month, distinct known categories; a month with players always has a `highestElo` row |
| MonthlyWinners.AwardRows | components/MonthlyWinners.jsx:115-150 | no rows for no matches; otherwise one row per category of `WinnersOf` with a winner, in category order, with the month, year and month name |
| MonthlyWinners.SavedRows | components/MonthlyWinners.jsx:123-150 | the facts of `SaveMonthAwards` hold for the rows built from any ranking whose `highestElo` holds every player |
| MonthlyWinners.PrevNext | components/MonthlyWinners.jsx:87-88 | the previous month of January is December of the year before; going back and forward returns to the start |
| MonthlyWinners.CheckAndSaveAwards | components/MonthlyWinners.jsx:69-113 | saves iff loaded, not loading, some matches, a new marker month, day 1, the selected month has matches and the previous month has matches; then the marker moves to now and the rows are `AwardRows` of the previous month's matches; at most nine rows, all of the previous month |
| ExportAwards.Lines | components/ExportAwards.jsx:140 | one `id,category,month,year,name` line per row, in order |
| ExportAwards.KeyRows | components/ExportAwards.jsx:111-143 | the rows are exactly `KeyAwardRows`: none for a key without matches; otherwise one row per winning category of that month's ranking, at most nine, with distinct categories, each of that month |
| ExportAwards.KeyAwardRows | components/ExportAwards.jsx:111-143 | no rows for a key without matches; otherwise one row per winning category of the ranking of that month's matches, with its month, year and name |
| ExportAwards.GenerateCsv | components/ExportAwards.jsx:105-147 | the rows are the winners' rows of each selected key in selection order (`SelectedRows`); the text is the header then one line per row joined by line breaks; at most nine rows per selected month, each of a selected month |
| ExportAwards.FlattenConcat | components/ExportAwards.jsx:111-143 | the rows of two key lists are the rows of the first then those of the second |
| ExportAwards.SelectedRowsStep | components/ExportAwards.jsx:111-143 | one more selected key appends exactly that key's rows |
| ExportAwards.HeaderFirst | components/ExportAwards.jsx:109 | the output always starts with `player_id,category,month,year,month_name` |
| ExportAwards.LinesConcat | components/ExportAwards.jsx:140 | the lines of two row lists are the lines of the first then those of the second |
| ExportAwards.ToggleMonth | components/ExportAwards.jsx:166-172 | toggling flips the key's membership and keeps all others; a list without duplicates stays so |
| ExportAwards.Without | components/ExportAwards.jsx:169 | the filter drops exactly the key |
| ExportAwards.ToggleTwice | components/ExportAwards.jsx:166-172 | toggling twice restores the selected set, and the list itself when the key was absent |
| ExportAwards.WithoutAppended | components/ExportAwards.jsx:169 | removing a key that was just appended gives back the list |
| ExportAwards.MonthKeyInjective | components/ExportAwards.jsx:179 | different months print different keys |
| ExportAwards.EntryOfKey | components/ExportAwards.jsx:182-187 | a printed key parses back into its year and month |
| ExportAwards.MonthsOf | components/ExportAwards.jsx:176-181 | the `Set` holds each month of the matches once, and nothing else |
| ExportAwards.ParsedKeys | components/ExportAwards.jsx:182-189 | parsing the printed keys gives back each month's entry |
| ExportAwards.AvailableFromMatches | components/ExportAwards.jsx:175-194 | every listed month is the month of some match |
| ExportAwards.AvailableCovers | components/ExportAwards.jsx:175-194 | the month of every match is listed |
| ExportAwards.AvailableStrict | components/ExportAwards.jsx:190-193 | months are listed newest first, strictly, so each month appears once |
| ExportAwards.AvailableEntries | components/ExportAwards.jsx:175-194 | the available months are the entries of the distinct months, sorted newest first |
| GenerateAwardsCsv.ResultCategories | scripts/generate-awards-csv.js:120-130 | the nine entries of the script's result, in its order |
| GenerateAwardsCsv.ResultCategoriesFacts | scripts/generate-awards-csv.js:161-164 | every entry with a line is one of the eight result keys other than `highestElo`; no key repeats |
| GenerateAwardsCsv.NoHighestEloLine | scripts/generate-awards-csv.js:162 | `highestElo` never produces a line |
| GenerateAwardsCsv.WinnersExist | scripts/generate-awards-csv.js:113-130 | every entry but `highestElo` has a winner iff some player has a processed match |
| GenerateAwardsCsv.CalculateMonthlyWinners | scripts/generate-awards-csv.js:45-131 | the stats are the fold over the matches oldest first; the entries are the heads of the ranked lists |
| GenerateAwardsCsv.MonthLines | scripts/generate-awards-csv.js:153-166 | the lines are exactly `ScriptLines`: none for a month without matches; otherwise one line per result entry with a winner, naming the head of its ranked list, at most eight, with distinct result keys, month index and year 2025 |
| GenerateAwardsCsv.ScriptLines | scripts/generate-awards-csv.js:153-166 | no lines for a month without matches; otherwise at most eight, one per winning result entry of the month's ranking |
| GenerateAwardsCsv.ScriptRowsFacts | scripts/generate-awards-csv.js:161-166 | at most eight rows a month, none for `highestElo`, no category twice |
| GenerateAwardsCsv.ScriptRowsShape | scripts/generate-awards-csv.js:161-166 | the i-th row carries the i-th winning entry's player and key, the month index, 2025 and the month name |
| GenerateAwardsCsv.GenerateAwardsCsv | scripts/generate-awards-csv.js:134-195 | `null` iff either list is empty; otherwise the header and the rows joined, the rows being the winners' lines of August (month 7) then September (month 8) of 2025; at most sixteen rows, each month's only when it has matches |
| ImportAwardsCsv.Field | scripts/import-awards-csv.js:31-35 | a field is present iff its position is within the split |
| ImportAwardsCsv.CsvLines | scripts/import-awards-csv.js:24 | `trim().split('\n')` always gives at least one line |
| ImportAwardsCsv.ParseCsv | scripts/import-awards-csv.js:23-41 | the header line is dropped, and every other line becomes one award, in order |
| ImportAwardsCsv.ParseLines | scripts/import-awards-csv.js:28-38 | the loop parses each line after the first, in order |
| ImportAwardsCsv.LineRoundTrip | scripts/import-awards-csv.js:29-36 | parsing an exported line gives back the row's five fields |
| ImportAwardsCsv.LineSplits | scripts/import-awards-csv.js:29 | an exported line splits at its commas into exactly the row's five fields |
| ImportAwardsCsv.LinesBack | scripts/import-awards-csv.js:24 | `trim().split('\n')` of joined lines gives them back when none holds a line break or outer white space |
| ImportAwardsCsv.HeaderAndLinesBack | scripts/import-awards-csv.js:24-25 | the exported header and lines come back from `trim().split('\n')` unchanged |
| ImportAwardsCsv.CsvTextLines | scripts/import-awards-csv.js:24 | the exported text splits back into the header and its lines |
| ImportAwardsCsv.RoundTrip | scripts/import-awards-csv.js:24-38 | reading back an export recovers every row, in order, when no field holds a comma or line break |
| ImportAwardsCsv.CommaBreaksRoundTrip | scripts/import-awards-csv.js:29-36 | a comma inside a field shifts the later fields, so such a row does not survive the round trip |
| ImportAwardsCsv.MonthCounts | scripts/import-awards-csv.js:53-62 | one count per distinct month label, in first-seen order; each counts its label's awards; the counts add up to the number of awards |
| Grouping.KeysOf | scripts/import-awards-csv.js:60 | the dictionary's keys: each distinct key once, in first-seen order |
| Grouping.GroupBy | scripts/import-awards-csv.js:53-58 | each key maps to its members in input order, and the keys are the distinct keys |
| Grouping.InOwnGroup | scripts/import-awards-csv.js:55-57 | every element sits in the group of its own key |
| Grouping.SizesSum | scripts/import-awards-csv.js:53-58 | the groups partition the input: their sizes add up to its length |
| Grouping.GroupCounts | scripts/import-awards-csv.js:53-62 | one `(key, size)` pair per group, and the sizes add up to the number of elements |
| StatsCards.WeeksPartition | components/StatsCards.jsx:13-28 | the matches since two weeks ago are those of the week before last plus those of the last week |
| StatsCards.CountSince | components/StatsCards.jsx:16-19 | at most all matches; one match counts iff it is at or after the bound; with `CountSinceConcat` the count is the number of matches at or after the bound |
| StatsCards.CountSinceConcat | components/StatsCards.jsx:16-19 | counting distributes over concatenation |
| StatsCards.CountSinceMonotone | components/StatsCards.jsx:16-19 | a later bound counts no more matches |
| StatsCards.CountBetween | components/StatsCards.jsx:22-28 | the matches of the week before are at most all matches; an empty window counts none |
| StatsCards.Trend | components/StatsCards.jsx:31-36 | 100 or 0 when the previous week is empty; otherwise at least -100, 0 for equal weeks, and of the sign of the change |
| StatsCards.TotalMatches | components/StatsCards.jsx:9-38 | the total is the number of matches; the last week counts matches since now - 7 days; it and the week before together count the matches of the last two weeks; the trend compares the two weeks |
| StatsCards.LeaderOf | components/StatsCards.jsx:45-52 | a leader is a listed player with matches |
| StatsCards.LeaderMeaning | components/StatsCards.jsx:45-54 | no leader iff no player with matches has a positive rate; otherwise the leader's rate is positive and the greatest, and strictly greater than that of every player with matches before it |
| StatsCards.WinRateLeader | components/StatsCards.jsx:42-58 | the card shows the leader with the rounded percentage of matches won |
| StatsCards.NewestFirst | components/StatsCards.jsx:66-68 | a permutation of the matches, newest first |
| StatsCards.StreakMeaning | components/StatsCards.jsx:77-91 | the streak counts the player's newest matches up to the first one not won |
| StatsCards.CurrentStreak | components/StatsCards.jsx:73-91 | the scanning loop computes that streak |
| StatsCards.StreakKeys | components/StatsCards.jsx:73-96 | the dictionary keys are the players with a positive streak, each once |
| StatsCards.PickLongestMeaning | components/StatsCards.jsx:99-101 | the `reduce` picks a key of greatest streak; every key after it has a strictly shorter one, so among equal streaks the last key wins |
| StatsCards.PickLongest | components/StatsCards.jsx:99-101 | `reduce` gives no key iff there are no keys, and otherwise one of them |
| StatsCards.StreakTable | components/StatsCards.jsx:70-96 | the dictionary maps exactly those players to their streaks |
| StatsCards.WinningStreak | components/StatsCards.jsx:62-108 | `null` without matches or a streak; otherwise the chosen player and their positive streak |
| StatsCards.BiggestMeaning | components/StatsCards.jsx:115-119 | the chosen match has the greatest total swing, strictly greater than every earlier match |
| StatsCards.BiggestIndex | components/StatsCards.jsx:115-119 | the loop's chosen position is within the list |
| StatsCards.BiggestEloChange | components/StatsCards.jsx:112-131 | `null` iff there are no matches; otherwise that match, its two players and its total swing |
| PlayerDetail.PlayerAwards | components/PlayerDetail.jsx:47-49 | exactly the awards of the player; `PlayerAwardsConcat` keeps their order and multiplicity |
| PlayerDetail.PlayerAwardsConcat | components/PlayerDetail.jsx:47-49 | the filter distributes over concatenation and keeps a single award iff it is the player's |
| PlayerDetail.PlayerMatches | components/PlayerDetail.jsx:52-56 | the matches the player plays in, each as often as in the input (a permutation of the filtered list), newest first |
| StatsCards.InvolvingConcat | components/PlayerDetail.jsx:53 | the filter distributes over concatenation and keeps a single match iff the player is on either side |
| PlayerDetail.PlayerMatchesStable | components/PlayerDetail.jsx:54 | matches played at the same instant keep the order of the filtered list |
| PlayerDetail.AwardsByMonth | components/PlayerDetail.jsx:59-69 | the awards grouped by `"month_name year"`, keys in first-seen order, each group in input order |
| PlayerDetail.GroupsPartition | components/PlayerDetail.jsx:59-69 | every award is in exactly the group of its own key, and the group sizes add up to the number of awards |
| PlayerDetail.MonthIndexOf | components/PlayerDetail.jsx:182 | an English month name maps to its position |
| PlayerDetail.SortedGroups | components/PlayerDetail.jsx:176-183 | the groups, reordered by the comparator's rank |
| PlayerDetail.AwardKeyRank | components/PlayerDetail.jsx:179-182 | a group key splits back into its month name and year and ranks by year, then month |
| PlayerDetail.GroupOrder | components/PlayerDetail.jsx:176-183 | an earlier group has a later year, or the same year and a month no later |
| PlayerDetail.MirrorViews | components/PlayerDetail.jsx:234-239 | the two players of a match see each other as opponent, swapped scores and their own changes; "won" holds iff `winner_id` is the viewer |
| PlayerDetail.WinRate | components/PlayerDetail.jsx:150-152 | 0 without matches; a percentage in 0..100 whenever 0 <= won <= played |
| PlayerDetail.WinRateExtremes | components/PlayerDetail.jsx:150-152 | all matches won shows 100, none won shows 0 |
| DataContext.CacheValid | lib/DataContext.js:19-22 | valid iff a fetch time is set, is not 0, and less than 300000 ms have passed |
| DataContext.CacheExpiry | lib/DataContext.js:19-22 | a valid cache stays valid until five minutes after the fetch and is invalid from then on |
| DataContext.FreshAfterFetch | lib/DataContext.js:97 | a fetch makes the cache valid at that moment |
| DataContext.SkipNeedsEverything | lib/DataContext.js:77-81 | a load skips only when unforced, the cache is valid and both lists are non-empty; a forced load never skips |
| DataContext.ListOrEmpty | lib/DataContext.js:25-36 | the list, or no elements after a failure |
| DataContext.FetchedMatches | lib/DataContext.js:39-58 | no matches after a failure; otherwise a permutation of the answer, newest first |
| DataContext.DataStore.constructor | lib/DataContext.js:8-13 | the store starts with empty lists, loading, never loaded and without a fetch time |
| DataContext.DataStore.LoadAllData | lib/DataContext.js:75-104 | fetches iff the skip test fails; then all lists are replaced, the fetch time is now and the store is loaded; loading always ends; loaded never reverts |
| DataContext.DataStore.RefreshData | lib/DataContext.js:107-109 | a refresh always fetches and replaces all three lists |
| BackfillAwards.Settle | scripts/backfill-awards.js:88-114 | player 1 wins if named, otherwise player 2; the winner's wins and streak rise; the loser's losses rise and streak resets; a giant kill needs the loser rated strictly higher |
| BackfillAwards.ApplyMatch | scripts/backfill-awards.js:66-114 | the loop body for a known match is the specification step |
| BackfillAwards.AddPoints | scripts/backfill-awards.js:72-73 | each player's total rises by their own score, nobody else changes, and no key is added |
| BackfillAwards.PushMatch | scripts/backfill-awards.js:76-77 | each player's match list gains the match, once per side they play |
| BackfillAwards.PushAgainst | scripts/backfill-awards.js:80-81 | each player's points-against list gains the opponent's score |
| BackfillAwards.AddOpponents | scripts/backfill-awards.js:84-85 | each player's opponent set gains the other player |
| BackfillAwards.Fold | scripts/backfill-awards.js:44-115 | every player's record is the specification fold over the sorted matches; matches with an unknown player are skipped |
| BackfillAwards.StepDescribes | scripts/backfill-awards.js:65-115 | one more match keeps the dictionary equal to the specification fold |
| BackfillAwards.RunCounts | scripts/backfill-awards.js:88-114 | wins plus losses count the outcomes, and 0 <= current <= longest streak |
| BackfillAwards.TrackedMeaning | scripts/backfill-awards.js:72-114 | wins + losses = recorded matches = points-against entries = appearances; the total is the sum of own scores; current <= longest streak |
| BackfillAwards.SettleRules | scripts/backfill-awards.js:88-114 | between two players the credited winner's streak rises and the longest is raised to it; the other's streak is 0; the kill counts iff the loser is rated strictly higher |
| BackfillAwards.MaxOf | scripts/backfill-awards.js:122-127 | `Math.max(...s)` is an element of `s` and bounds every element |
| BackfillAwards.Mean | scripts/backfill-awards.js:121 | the mean times the count is the sum |
| BackfillAwards.SidesMax | scripts/backfill-awards.js:122-124 | the best match score is at least the player's score in each recorded match and equals one of them |
| BackfillAwards.SwingsMax | scripts/backfill-awards.js:125-127 | the biggest swing is at least the absolute change of each recorded match and equals one of them |
| BackfillAwards.SummaryMeaning | scripts/backfill-awards.js:120-129 | best match and biggest swing are maxima over the player's own side of their recorded matches; the average is the mean of points against |
| BackfillAwards.WithMatches | scripts/backfill-awards.js:118 | exactly the records with at least one recorded match; by `WithMatchesConcat` in the order of `Object.values` |
| BackfillAwards.WithMatchesConcat | scripts/backfill-awards.js:118 | the filter distributes over concatenation and keeps a single record iff it has a recorded match |
| BackfillAwards.SummarizeAll | scripts/backfill-awards.js:120-129 | each active record gets its summary |
| BackfillAwards.SummarizePlayers | scripts/backfill-awards.js:44-129 | the fold, then the summaries of the players who played |
| BackfillAwards.Top | scripts/backfill-awards.js:150-158 | `[0]` of the sorted copy: `undefined` iff empty; otherwise a greatest element, the first such |
| BackfillAwards.Tallies | scripts/backfill-awards.js:145 | `Object.values` of the counter in key order |
| BackfillAwards.CalculateWinners | scripts/backfill-awards.js:31-163 | `null` iff the month has no matches; otherwise the fold over them oldest first, the summaries, the rivalry counts over all the month's matches, and each winner the head of its list |
| BackfillAwards.RowsForSound | scripts/backfill-awards.js:203-214 | each row names a category with a winner and that winner's player, with month + 1 |
| BackfillAwards.RowsForComplete | scripts/backfill-awards.js:203-214 | every category with a winner has a row |
| BackfillAwards.IndividualRows | scripts/backfill-awards.js:203-214 | one row per category with a winner, month stored 1-based |
| BackfillAwards.IndividualCategories | scripts/backfill-awards.js:191-201 | every individual category name is one of the stored award categories |
| BackfillAwards.RivalryRows | scripts/backfill-awards.js:217-242 | at most two `rivalryAward` rows, one for each top-rivalry player that `players.find` locates |
| BackfillAwards.MonthAwards | scripts/backfill-awards.js:181-245 | no rows for a month without matches; otherwise the category and rivalry rows of the month's winners as `calculateWinners` chooses them (`MonthAwardsOf`); at most eleven rows, each of the target month, 1-based, with a known category and a player |
| BackfillAwards.MonthRows | scripts/backfill-awards.js:188-245 | category rows and rivalry rows with the target month, 1-based, each meet the month-row facts |
| BackfillAwards.WinnerRows | scripts/backfill-awards.js:188-242 | exactly the category rows then the rivalry rows of the given winners (`WinnerRowsOf`), at most eleven, each of the target month |
| BackfillAwards.Backfill | scripts/backfill-awards.js:175-256 | the rows are, target month by target month in order, the winners' rows of that month (`Collected`); at most eleven rows per target month; every row belongs to a target month that has matches, 1-based, with a known category and a player; saved iff there are rows |
| BackfillAwards.CollectedStep | scripts/backfill-awards.js:175-256 | appending one target month's rows to the rows of the earlier targets gives the rows of the longer target list |

## Left out

- Floating point:
  - averages and win rates are exact reals, and `Math.round` is rounded exactly;
  - JavaScript's float product `won / played * 100` can round differently at a .5 boundary (for example 57/200).
- The rating formula `1 / (1 + 10^((rB - rA) / 400))` and `Math.round(32 * (actual - expected))` are floating point. The change is a function parameter `delta` of the two ratings and the actual score. Only the 1 / 0.5 / 0 actual score and the negated change of player 2 are modelled.
- Dates:
  - a match's local year and month are given with its instant, not computed;
  - time zones and daylight-saving changes are not modelled;
  - `toLocaleString` is the fixed table of English month names.
- `Object.keys` and `Object.values` list the keys in insertion order in the model. JavaScript lists integer-like keys first in numeric order. Ids are UUID strings in this application.
- Rating.ZeroSum: holds only when each player id occurs once in the list; the source does not check this.
- Network, database and file I/O stay outside the model. Each outcome is a `Result` the caller supplies. Left out this way:
  - `fetch` to the API routes and the Supabase insert and select in pages/api/players.js;
  - its 500 error path;
  - the POST of the award rows;
  - `fs` reads and writes;
  - `process.exit`;
  - `console` logging;
  - `localStorage` beyond the marker value passed to `MonthlyWinners.CheckAndSaveAwards`.
- `Promise.all` runs the three requests of `loadAllData` concurrently. The model takes their three outcomes at once. The rating read-compute-write race between clients is not modelled.
- The store's `addPlayer` and `addMatch`, called by the leaderboard and the dialogs, are represented only by their outcome.
- React rendering, hooks, timers, dialog animations, toasts and confetti are not modelled. `handleClose`'s 200 ms delay is modelled as an immediate reset.
- `Array.prototype.sort` sorts `data` in place in lib/DataContext.js and components/Scoreboard.jsx. It is modelled as a sorted copy, since nothing else holds that array.
- The clock is read once per operation (`now`).
- Scores are integers. A match without any timestamp is not represented. A rating change that is absent altogether (`undefined`, which makes `Math.abs` give `NaN`) is not represented; a `null` change is 0.
- Text.ToLower: only the ASCII capitals A to Z are lowered. JavaScript's `toLowerCase` also lowers other scripts' capitals, so two names that differ only in non-ASCII case count as distinct names here.
- Text.NumberOf: reads an optional sign and decimal digits, with white space trimmed and the empty string as 0. `Number` also accepts fractions, exponents, hexadecimal and `Infinity`; these count as unreadable here, giving a key that matches no month. The selection keys are generated from matches as `year-month`, so they never take that path.
- PlayerDetail.MonthIndexOf: a month name that is not English counts as January, where `new Date` would give an invalid date.
- PlayerDetail.GroupRank: a year `parseInt` cannot read counts as 0.
- The MonthlyWinners view's own `getAvailableMonths` (components/MonthlyWinners.jsx:50-64) is the export's list without the `key` and `name` fields. It is covered by `ExportAwards.AvailableMonths`.
- ExportAwards' own `calculateWinnersForMatches` (components/ExportAwards.jsx:14-102) has the same body as the monthly view's. Both are `MonthlyWinners.CalculateWinnersForMatches`.
- pages/api/matches.js, pages/api/monthly-awards.js and the page shells are not part of this model. Neither are the display-only components (AllMatches, Table, Button, Chip, Layout, Toast, Confetti).
