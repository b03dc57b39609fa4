# Fightcade head-to-head tracker: stores, replay tally and ranking rule

This project models the logic core of a small Fightcade head-to-head tracker in Dafny, and proves what
that core promises. The tracker looks up every replay between two players, tallies who won, and keeps
three stores:

- the list of registered user ids;
- the match history, keyed by an unordered, case-insensitive pair of ids;
- the ranking rows `{user_id, total_wins, total_matches}`, from which a ranked list is derived.

The model has four modules, one per file:

- `Text` (`text.dfy`) holds the Python string operations the core relies on. `str.lower()` is
  restricted to ASCII letters. `str.strip()` uses Python's whitespace set. The substring test
  `q in s` is `Contains`, and the code-point order `a < b` that `sorted` uses on strings is `LexLess`.
- `Crawler` (`crawler.dfy`) turns one replay into a match record or rejects it (`ParseReplay`). It
  also holds the order-preserving filter loop (`FilterMatches`, specified by the generic `FilterMap`)
  and the two win counters (`TallyHeadToHead`). The HTTP request that yields the replays is not
  modelled: the replays are an input sequence.
- `DataManager` (`data_manager.dfy`) holds the backing JSON files. A file is a `FileState`: missing,
  unreadable, of the wrong JSON shape, or holding a value. Loading normalises the first three to `[]`
  or `{}`. Saving may fail, and the program does not decide whether it does. The class `DataStore`
  has one field per file, and each update is one load/change/save cycle over it. The module also holds
  the pair key `MatchKey` and the accumulating ranking update (`AccumulateUser`, specified by
  `Accumulated`).
- `Ranking` (`ranking.dfy`) holds the ranking rule. The score is the total wins. The sort is stable,
  highest first (`SortRanking`). Lines are numbered from 1 (`GetSortedRanking`), and the rank lookup
  returns -1 when the user is absent (`GetUserRank`). Recording a head-to-head lookup overwrites both
  users' rows instead of adding to them (`UpdateUserInRanking`, `UpdateRankingFromMatch`). The
  optional score weighting is `ApplyWeight`. The label of the rule ("총 승리 횟수", "total wins") is
  the constant `Ranking.RankingLabel`.

Python floats (score, win rate, weighted score) are exact `real`s. Python integers are unbounded, like
Dafny's `int`, so no wrap-around needs modelling. A KeyError the source would raise on a malformed row
is a precondition; see "Left out".

## Model

| member | source | states |
|---|---|---|
| Text.Lower | ranking.py:120 | one character lowered: A-Z map to a-z, every other character is unchanged |
| Text.LowerStr | data_manager.py:130 | `s.lower()` has the length of `s` and lowers it position by position |
| Text.LowerStrIdempotent | data_manager.py:130 | lowering twice is lowering once |
| Text.Strip | crawler.py:154-155 | `s.strip()` is a slice of `s` with only whitespace cut on either side, and it neither starts nor ends with whitespace |
| Text.ContainsAt | data_manager.py:84 | `sub in s` holds exactly when `sub` occurs at some position of `s` |
| Text.ContainedSomewhere | data_manager.py:84 | a contained `sub` occurs at some position of `s` |
| Text.OccurrenceContained | data_manager.py:84 | an occurrence at any position makes `sub in s` true |
| Text.EmptyContained | data_manager.py:82-85 | the empty query is contained in every id |
| Text.LexLessIrreflexive | data_manager.py:130 | no string sorts before itself |
| Text.LexLessAsymmetric | data_manager.py:130 | two strings never sort before each other |
| Text.LexLessTotal | data_manager.py:130 | of two different strings one sorts before the other |
| Crawler.ParseReplay | crawler.py:142-176 | fewer than two players gives None; a record exists exactly when both scores parse and both requested users, lower-cased, are among the two stripped names; the record holds the stripped names, the scores and the game (default "unknown"); the winner is player 1 only on a strictly greater score, so a tie goes to player 2 |
| Crawler.ParseReplayWinner | crawler.py:159-165 | for two distinct users the winner of a kept record is one of them |
| Crawler.FilterMap | crawler.py:244-249 | the filter never keeps more records than there are replays |
| Crawler.FilterMapAppend | crawler.py:245-249 | filtering distributes over concatenation, so nothing is reordered, dropped or duplicated |
| Crawler.FilterMapPrefix | crawler.py:246-249 | one more replay adds exactly its own parse, if any |
| Crawler.FilterMapEmptyIff | crawler.py:253 | nothing is kept exactly when every element is rejected |
| Crawler.FilterMapFrom | crawler.py:246-249 | every kept value is the result for some element |
| Crawler.KeptEmptyIff | crawler.py:253-256 | no match is kept exactly when no replay parses |
| Crawler.KeptFromReplays | crawler.py:246-249 | every kept record is the parse of some replay |
| Crawler.FilterMatches | crawler.py:244-249 | the loop's result is exactly the parsed replays, in their original order |
| Crawler.CountWins | crawler.py:259-260 | a user's win count never exceeds the number of records |
| Crawler.KeptWonByOneOf | crawler.py:159-165 | for two distinct users every kept record was won by one of them |
| Crawler.WinsPartition | crawler.py:259-268 | for two distinct users the two win counts add up to the number of records |
| Crawler.TallyHeadToHead | crawler.py:244-270 | success is set; the matches are the kept records; total is their number; an empty list gives the error message and zero wins, and happens exactly when no replay parses; the wins are the case-insensitive counts, and add up to the total for two distinct users |
| DataManager.LoadList | data_manager.py:48-53 | a missing, unreadable or wrongly shaped list file reads as `[]`, otherwise as its list |
| DataManager.LoadDict | data_manager.py:97-120 | a missing, unreadable or wrongly shaped dictionary file reads as `{}`, otherwise as its dictionary |
| DataManager.SaveJson | data_manager.py:34-42 | a save that reports success leaves the data in the file; a failed one leaves the old file or an unreadable one |
| DataManager.SavedListReloads | data_manager.py:34-53 | after a successful save the list reads back as written; after a failed one it reads as before or as `[]` |
| DataManager.ScannableReached | data_manager.py:184-185 | under the no-KeyError condition, every row the first-match scan reaches has an id |
| DataManager.ScannableExtended | ranking.py:142-148 | keeping ids and appending rows with ids keeps a scan free of KeyError, so the second user's scan is safe after the first update |
| DataManager.FirstMatch | data_manager.py:204-208 | the index of the first row whose id matches case-insensitively; None exactly when no row matches |
| DataManager.IndexOf | data_manager.py:75 | the position of the first occurrence |
| DataManager.RemoveFirst | data_manager.py:75 | `list.remove` drops one occurrence, the first, and keeps the rest in order |
| DataManager.AddThenRemove | data_manager.py:61-76 | adding a fresh id and removing it restores the list |
| DataManager.MatchKey | data_manager.py:128-131 | the key is the two lower-cased ids joined by "_vs_", in one order or the other |
| DataManager.MatchKeySymmetric | data_manager.py:128-131 | the key does not depend on the order of the two users |
| DataManager.MatchKeyIgnoresCase | data_manager.py:128-131 | the key does not depend on the case of either user |
| DataManager.MatchKeyCollision | data_manager.py:128-131 | the key is not one-to-one: ids containing "_vs_" let two different pairs share one key |
| DataManager.AccumulatedExisting | data_manager.py:183-188 | for a user with a row, the first matching row's counters grow by the given amounts, it stays the user's first row, and no other row changes |
| DataManager.AccumulatedNew | data_manager.py:190-197 | for a user without a row, exactly one row for the user is appended |
| DataManager.AccumulateTwice | data_manager.py:178-199 | two accumulating updates equal one update with the summed counters |
| DataManager.AccumulateUser | data_manager.py:181-197 | the scan-and-add loop computes the accumulated rows |
| DataManager.DataStore.constructor | data_manager.py:23-26 | with no files yet, every loader yields the empty store |
| DataManager.DataStore.Users | data_manager.py:48-53 | the user list is the stored list, or `[]` when the file cannot be read as a list |
| DataManager.DataStore.History | data_manager.py:97-120 | the history is the stored dictionary, or `{}` when the file cannot be read as a dictionary |
| DataManager.DataStore.RankingRows | data_manager.py:157-170 | the ranking rows are the stored list, or `[]` when the file cannot be read as a list |
| DataManager.DataStore.SaveUserList | data_manager.py:56-58 | the user file holds the list when the save succeeds |
| DataManager.DataStore.SaveMatchHistory | data_manager.py:123-125 | the history file holds the dictionary when the save succeeds |
| DataManager.DataStore.SaveRanking | data_manager.py:173-175 | the ranking file holds the rows when the save succeeds |
| DataManager.DataStore.AddUser | data_manager.py:61-67 | an id already listed (exact, case-sensitive) gives False and leaves the file alone; otherwise the list with the id appended is saved |
| DataManager.DataStore.RemoveUser | data_manager.py:70-76 | an unlisted id gives False and leaves the file alone; otherwise the list without its first occurrence is saved |
| DataManager.DataStore.SearchUser | data_manager.py:79-86 | the result is the first listed id containing the query case-insensitively; None exactly when no id does |
| DataManager.DataStore.UserExists | data_manager.py:89-91 | exact membership in the loaded list |
| DataManager.DataStore.GetMatchResult | data_manager.py:147-151 | the record stored under the pair key, looked up in either order, or None when there is none |
| DataManager.DataStore.SaveMatchResult | data_manager.py:134-144 | the history with the pair key set to the new record is saved; on success, a lookup in either order returns it and no other key changes |
| DataManager.DataStore.UpdateUserRanking | data_manager.py:178-199 | the accumulated rows are saved |
| DataManager.DataStore.GetUserRankingStats | data_manager.py:202-208 | the first row matching case-insensitively, or None exactly when no row matches |
| Ranking.CalculateScore | ranking.py:15-32 | the score is the row's total wins, 0 when the field is absent |
| Ranking.FormatRankingDisplay | ranking.py:43-67 | rank as given; id defaults to "Unknown" and counters to 0; the win rate is 0 without matches and otherwise wins/matches*100; the score is the row's score |
| Ranking.WinRateBounds | ranking.py:54-57 | with no more wins than matches, the win rate lies in 0..100 and is 100 exactly when every match was won |
| Ranking.InsertPermutes | ranking.py:84-88 | inserting adds exactly the one row |
| Ranking.InsertKeepsDescending | ranking.py:84-88 | inserting into a list sorted highest first keeps it sorted |
| Ranking.SortRanking | ranking.py:74-88 | the sorted ranking has one row per stored row, with scores never increasing |
| Ranking.SortRankingPermutes | ranking.py:84-88 | the sorted ranking is a permutation of the stored rows |
| Ranking.InsertWithScore | ranking.py:84-88 | an inserted row lands ahead of the rows with its own score |
| Ranking.SortIsStable | ranking.py:84-88 | rows with equal scores keep their stored order |
| Ranking.DescendingStableUnique | ranking.py:84-88 | two lists sorted by score that agree on the order within every score are equal |
| Ranking.SortRankingCharacterised | ranking.py:74-88 | the sorted ranking is the only list sorted by score that keeps every score's rows in stored order |
| Ranking.FormatAll | ranking.py:102-103 | the i-th sorted row is formatted at rank i + 1, one line per row |
| Ranking.RankedDisplays | ranking.py:98-105 | one displayed line per stored row, ranked 1 to n |
| Ranking.RankedDisplayAt | ranking.py:102-103 | line i shows the i-th sorted row at rank i + 1 |
| Ranking.RankedDisplaysOrdered | ranking.py:98-105 | scores never increase down the displayed ranking |
| Ranking.RankedDisplaysComplete | ranking.py:98-105 | every line shows a stored row, and every stored row is shown |
| Ranking.GetSortedRanking | ranking.py:91-105 | the append loop builds exactly the displayed ranking of the stored rows |
| Ranking.GetUserRank | ranking.py:108-122 | -1 exactly when no line shows the user; otherwise a rank in 1..n whose line shows the user, with no earlier line showing the user |
| Ranking.OverwrittenExisting | ranking.py:162-168 | for a user with a row, only the first matching row changes, it holds exactly the new counters (not a sum), and the length is unchanged |
| Ranking.OverwrittenNew | ranking.py:170-175 | for a user without a row, exactly one row for the user is appended at the end |
| Ranking.OverwriteTwice | ranking.py:153-175 | only the latest overwrite of a user is kept |
| Ranking.OverwrittenFrame | ranking.py:153-175 | the user's first row holds the new counters, existing rows keep their ids, and rows of other users do not change |
| Ranking.UpdateUserInRanking | ranking.py:153-175 | the scan-and-overwrite loop computes the overwritten rows |
| Ranking.OverwriteKeepsOther | ranking.py:145-148 | overwriting one user leaves a different user's counters in place |
| Ranking.BothUsersRecorded | ranking.py:142-148 | for two distinct users, each row holds that user's own wins, and both hold the shared total of matches |
| Ranking.ThirdUsersUntouched | ranking.py:142-148 | recording a lookup changes no row of a third user |
| Ranking.UpdateRankingFromMatch | ranking.py:129-150 | the rows with both users overwritten are saved |
| Ranking.ApplyWeight | ranking.py:203-221 | no configuration leaves the score unchanged; otherwise score * multiplier + bonus, with defaults 1 and 0 |
| Ranking.ApplyWeightOrder | ranking.py:203-221 | with a non-negative multiplier weighting keeps the order of two scores; an empty configuration changes nothing |

## Left out

- Network and scraping: the HTTP client, the replay and user-info requests, the connection test and the
  user-existence check (crawler.py:23-140, 277-316) are not part of this model. The replays are an input.
- The response-shape dispatch and the API error path of the head-to-head lookup (crawler.py:189-242)
  are not modelled. `Crawler.TallyHeadToHead` starts from the replay list and also leaves out the debug
  log and the progress callback.
- File I/O: `_load_json`, `_save_json` and `init_data_directory` are abstracted. A file is a
  `FileState` and a save succeeds or fails nondeterministically.
- DataManager.LoadList: a list file that is not valid UTF-8 raises an error the source does not catch.
  The model reads every unreadable list file as `[]`.
- DataManager.LoadDict: the same error on the history file is not modelled. The model reads it as `{}`.
- DataManager.DataStore.RankingRows: the same error on the ranking file is not modelled. The model
  reads it as `[]`.
- JSON element types are not modelled. A stored id is always a string, and a counter is always an
  integer or missing. A `null` name or id, which would raise in `strip()` or `lower()`, is not modelled.
- DataManager.DataStore.UpdateUserRanking: a row the scan reaches without `user_id`, or a matched row
  without both counters, raises KeyError in the source. The model requires that this does not happen
  (`Accumulable`).
- DataManager.AccumulateUser: the same KeyError precondition (`Accumulable`).
- DataManager.DataStore.GetUserRankingStats: a reached row without `user_id` raises KeyError in the
  source. The model requires `Scannable`.
- Ranking.UpdateUserInRanking: the same KeyError precondition (`Scannable`).
- Ranking.UpdateRankingFromMatch: requires both users' scans to be `Scannable` for the same reason.
- In-place list mutation: `_update_user_in_ranking` and the loop in `update_user_ranking` mutate the
  loaded list. The model computes the new list as a value, so aliasing of the list is not captured.
- `calculate_elo_change` (ranking.py:182-200) is not modelled: it needs the floating-point power
  `10 ** (x / 400)`.
- The `"{:.1f}%"` formatting of the win rate (ranking.py:65) is left out. `Display.winRate` is the
  exact percentage.
- Floats are exact reals, so rounding in the score, the win rate and the weighting is not modelled.
- `str.lower()` is modelled for ASCII letters only. Unicode case mapping is not.
- Crawler.ParseReplay: `int()` on a score is abstracted to "parses to this integer" or "raises".
  Which strings and floats it accepts is not modelled.
- Crawler.WinsPartition and Crawler.TallyHeadToHead: when the two users are equal case-insensitively,
  the source also keeps replays against third players and the counts need not add up. The input check
  that prevents this lives in the UI (quadrant_1_winrate.py), which is not part of this model.
- The Streamlit UI, session state, the bad-manner list API and config.py are not part of this model.
