/**
 * The ranking rule: a user's score is their total number of wins; the ranking
 * is the stored rows sorted by score, highest first, with ties kept in stored
 * order, and numbered from 1. Recording a head-to-head lookup overwrites (does
 * not add to) both users' rows.
 */
module Ranking {
  import opened Wrappers
  import opened Text
  import opened DataManager

  /** The description of the ranking rule shown above the ranking ("total wins"). */
  const RankingLabel: string := "총 승리 횟수"

  // ---------------------------------------------------------------------------
  // Score and display
  // ---------------------------------------------------------------------------

  /** A user's score: the row's total wins, 0 when the row has none. */
  function CalculateScore(e: Entry): (score: real)
    ensures e.totalWins.Some? ==> score == e.totalWins.value as real
    ensures e.totalWins.None? ==> score == 0.0
  {
    match e.totalWins
    case Some(w) => w as real
    case None => 0.0
  }

  /** One line of the displayed ranking; `winRate` is the percentage before it is printed
      with one decimal. */
  datatype Display = Display(rank: int, userId: string, totalWins: int, totalMatches: int, winRate: real, score: real)

  function GetOr(o: Option<int>, default: int): int
  {
    match o
    case Some(v) => v
    case None => default
  }

  /** A row as displayed at a given rank. */
  function FormatRankingDisplay(e: Entry, rank: int): (d: Display)
    ensures d.rank == rank
    ensures d.userId == (if e.userId.Some? then e.userId.value else "Unknown")
    ensures d.totalWins == GetOr(e.totalWins, 0) && d.totalMatches == GetOr(e.totalMatches, 0)
    ensures d.totalMatches <= 0 ==> d.winRate == 0.0
    ensures d.totalMatches > 0 ==> d.winRate * (d.totalMatches as real) == 100.0 * (d.totalWins as real)
    ensures d.score == CalculateScore(e)
  {
    var totalMatches := GetOr(e.totalMatches, 0);
    var totalWins := GetOr(e.totalWins, 0);
    var winRate := if totalMatches > 0 then (totalWins as real) / (totalMatches as real) * 100.0 else 0.0;
    Display(rank, match e.userId case Some(u) => u case None => "Unknown",
            totalWins, totalMatches, winRate, CalculateScore(e))
  }

  /** For counters a lookup can produce (no more wins than matches), the win rate is a
      percentage, and it is 100 exactly when every match was won. */
  lemma WinRateBounds(e: Entry, rank: int)
    requires 0 <= GetOr(e.totalWins, 0) <= GetOr(e.totalMatches, 0)
    ensures 0.0 <= FormatRankingDisplay(e, rank).winRate <= 100.0
    ensures FormatRankingDisplay(e, rank).winRate == 100.0 <==>
              GetOr(e.totalMatches, 0) > 0 && GetOr(e.totalWins, 0) == GetOr(e.totalMatches, 0)
  {
    var d := FormatRankingDisplay(e, rank);
    if d.totalMatches > 0 {
      var m := d.totalMatches as real;
      var w := d.totalWins as real;
      assert d.winRate * m == 100.0 * w;
      assert d.winRate * m <= 100.0 * m;
      assert d.winRate == 100.0 ==> w == m;
    }
  }

  // ---------------------------------------------------------------------------
  // Sorting
  // ---------------------------------------------------------------------------

  /** Scores never increase down the list. */
  predicate Descending(rows: seq<Entry>)
  {
    forall i, j :: 0 <= i < j < |rows| ==> CalculateScore(rows[i]) >= CalculateScore(rows[j])
  }

  /** The rows with a given score, in list order. */
  function WithScore(rows: seq<Entry>, score: real): seq<Entry>
  {
    if rows == [] then []
    else (if CalculateScore(rows[0]) == score then [rows[0]] else []) + WithScore(rows[1..], score)
  }

  /** Places `e` before every row of `sorted` whose score is not higher, so that it stays
      ahead of the rows with its own score. */
  function Insert(e: Entry, sorted: seq<Entry>): seq<Entry>
  {
    if sorted == [] then [e]
    else if CalculateScore(e) >= CalculateScore(sorted[0]) then [e] + sorted
    else [sorted[0]] + Insert(e, sorted[1..])
  }

  lemma {:induction false} InsertPermutes(e: Entry, sorted: seq<Entry>)
    ensures multiset(Insert(e, sorted)) == multiset(sorted) + multiset{e}
    ensures |Insert(e, sorted)| == |sorted| + 1
  {
    if sorted != [] && CalculateScore(e) < CalculateScore(sorted[0]) {
      InsertPermutes(e, sorted[1..]);
      assert sorted == [sorted[0]] + sorted[1..];
    }
  }

  lemma ConsDescending(head: Entry, rest: seq<Entry>)
    requires Descending(rest)
    requires forall x :: x in rest ==> CalculateScore(x) <= CalculateScore(head)
    ensures Descending([head] + rest)
  {
    var r := [head] + rest;
    forall i, j | 0 <= i < j < |r|
      ensures CalculateScore(r[i]) >= CalculateScore(r[j])
    {
      assert r[j] == rest[j - 1] && r[j] in rest;
      if i > 0 {
        assert r[i] == rest[i - 1];
      }
    }
  }

  lemma InsertBelowHead(e: Entry, sorted: seq<Entry>)
    requires sorted != [] && Descending(sorted) && CalculateScore(e) < CalculateScore(sorted[0])
    ensures forall x :: x in Insert(e, sorted[1..]) ==> CalculateScore(x) <= CalculateScore(sorted[0])
  {
    var tail := sorted[1..];
    InsertPermutes(e, tail);
    forall x | x in Insert(e, tail)
      ensures CalculateScore(x) <= CalculateScore(sorted[0])
    {
      assert x in multiset(Insert(e, tail));
      if x != e {
        assert x in multiset(tail);
        var k :| 0 <= k < |tail| && tail[k] == x;
        assert sorted[k + 1] == x;
      }
    }
  }

  lemma {:induction false} InsertKeepsDescending(e: Entry, sorted: seq<Entry>)
    requires Descending(sorted)
    ensures Descending(Insert(e, sorted))
  {
    if sorted == [] {
    } else if CalculateScore(e) >= CalculateScore(sorted[0]) {
      ConsDescending(e, sorted);
    } else {
      assert Descending(sorted[1..]);
      InsertKeepsDescending(e, sorted[1..]);
      InsertBelowHead(e, sorted);
      ConsDescending(sorted[0], Insert(e, sorted[1..]));
    }
  }

  /** `sorted(rows, key=calculate_score, reverse=True)`: a stable sort, highest score first. */
  function SortRanking(rows: seq<Entry>): (r: seq<Entry>)
    ensures |r| == |rows|
    ensures Descending(r)
  {
    if rows == [] then []
    else
      var rest := SortRanking(rows[1..]);
      InsertPermutes(rows[0], rest);
      InsertKeepsDescending(rows[0], rest);
      Insert(rows[0], rest)
  }

  /** The sorted ranking holds exactly the stored rows, each as often as it is stored. */
  lemma {:induction false} SortRankingPermutes(rows: seq<Entry>)
    ensures multiset(SortRanking(rows)) == multiset(rows)
  {
    if rows != [] {
      SortRankingPermutes(rows[1..]);
      InsertPermutes(rows[0], SortRanking(rows[1..]));
      assert rows == [rows[0]] + rows[1..];
    }
  }

  lemma {:induction false} InsertWithScore(e: Entry, sorted: seq<Entry>, score: real)
    ensures WithScore(Insert(e, sorted), score) ==
            (if CalculateScore(e) == score then [e] else []) + WithScore(sorted, score)
  {
    if sorted != [] && CalculateScore(e) < CalculateScore(sorted[0]) {
      InsertWithScore(e, sorted[1..], score);
      assert Insert(e, sorted)[1..] == Insert(e, sorted[1..]);
    }
  }

  /** Stability: the rows of any one score appear in the sorted ranking in stored order. */
  lemma {:induction false} SortIsStable(rows: seq<Entry>, score: real)
    ensures WithScore(SortRanking(rows), score) == WithScore(rows, score)
  {
    if rows != [] {
      SortIsStable(rows[1..], score);
      InsertWithScore(rows[0], SortRanking(rows[1..]), score);
    }
  }

  lemma {:induction false} WithScoreMember(rows: seq<Entry>, score: real)
    requires WithScore(rows, score) != []
    ensures exists i :: 0 <= i < |rows| && CalculateScore(rows[i]) == score
  {
    if CalculateScore(rows[0]) != score {
      WithScoreMember(rows[1..], score);
      var i :| 0 <= i < |rows[1..]| && CalculateScore(rows[1..][i]) == score;
      assert CalculateScore(rows[i + 1]) == score;
    }
  }

  lemma WithScoreOfHead(rows: seq<Entry>)
    requires rows != []
    ensures WithScore(rows, CalculateScore(rows[0])) == [rows[0]] + WithScore(rows[1..], CalculateScore(rows[0]))
  {
  }

  /** In two descending lists with the same rows per score, the top scores agree. */
  lemma TopScoresAgree(r1: seq<Entry>, r2: seq<Entry>)
    requires r1 != [] && r2 != [] && Descending(r1) && Descending(r2)
    requires forall score :: WithScore(r1, score) == WithScore(r2, score)
    ensures CalculateScore(r1[0]) == CalculateScore(r2[0])
  {
    var m1, m2 := CalculateScore(r1[0]), CalculateScore(r2[0]);
    WithScoreOfHead(r1);
    WithScoreOfHead(r2);
    assert WithScore(r2, m1) == WithScore(r1, m1) != [];
    assert WithScore(r1, m2) == WithScore(r2, m2) != [];
    WithScoreMember(r2, m1);
    WithScoreMember(r1, m2);
  }

  lemma TailsAgree(r1: seq<Entry>, r2: seq<Entry>)
    requires r1 != [] && r2 != [] && r1[0] == r2[0]
    requires forall score :: WithScore(r1, score) == WithScore(r2, score)
    ensures forall score :: WithScore(r1[1..], score) == WithScore(r2[1..], score)
  {
    forall score
      ensures WithScore(r1[1..], score) == WithScore(r2[1..], score)
    {
      var head := if CalculateScore(r1[0]) == score then [r1[0]] else [];
      assert WithScore(r1, score) == head + WithScore(r1[1..], score);
      assert WithScore(r2, score) == head + WithScore(r2[1..], score);
      assert (head + WithScore(r1[1..], score))[|head|..] == WithScore(r1[1..], score);
      assert (head + WithScore(r2[1..], score))[|head|..] == WithScore(r2[1..], score);
    }
  }

  /** Two descending lists that agree on the rows of every score, in order, are equal. */
  lemma {:induction false} DescendingStableUnique(r1: seq<Entry>, r2: seq<Entry>)
    requires Descending(r1) && Descending(r2)
    requires forall score :: WithScore(r1, score) == WithScore(r2, score)
    ensures r1 == r2
  {
    if r1 == [] && r2 == [] {
    } else if r1 == [] || r2 == [] {
      var r := if r1 == [] then r2 else r1;
      WithScoreOfHead(r);
      assert false;
    } else {
      TopScoresAgree(r1, r2);
      var m := CalculateScore(r1[0]);
      WithScoreOfHead(r1);
      WithScoreOfHead(r2);
      assert r1[0] == WithScore(r1, m)[0] == WithScore(r2, m)[0] == r2[0];
      TailsAgree(r1, r2);
      assert Descending(r1[1..]) && Descending(r2[1..]);
      DescendingStableUnique(r1[1..], r2[1..]);
      assert r1 == [r1[0]] + r1[1..] && r2 == [r2[0]] + r2[1..];
    }
  }

  /** The sorted ranking is the only list that is descending by score and keeps every score's
      rows in stored order; in particular no other tie order is possible. */
  lemma SortRankingCharacterised(rows: seq<Entry>, candidate: seq<Entry>)
    requires Descending(candidate)
    requires forall score :: WithScore(candidate, score) == WithScore(rows, score)
    ensures candidate == SortRanking(rows)
  {
    forall score
      ensures WithScore(candidate, score) == WithScore(SortRanking(rows), score)
    {
      SortIsStable(rows, score);
    }
    DescendingStableUnique(candidate, SortRanking(rows));
  }

  // ---------------------------------------------------------------------------
  // Ranked list and rank lookup
  // ---------------------------------------------------------------------------

  /** Rows already in display order, formatted at ranks 1, 2, ... */
  function FormatAll(sorted: seq<Entry>): (d: seq<Display>)
    ensures |d| == |sorted|
    ensures forall i {:trigger FormatRankingDisplay(sorted[i], i + 1)} :: 0 <= i < |sorted| ==> d[i] == FormatRankingDisplay(sorted[i], i + 1)
  {
    seq(|sorted|, i requires 0 <= i < |sorted| => FormatRankingDisplay(sorted[i], i + 1))
  }

  /** The displayed ranking: the sorted rows formatted at ranks 1, 2, ... */
  function RankedDisplays(rows: seq<Entry>): (d: seq<Display>)
    ensures |d| == |rows|
    ensures forall i :: 0 <= i < |d| ==> d[i].rank == i + 1
  {
    FormatAll(SortRanking(rows))
  }

  /** Line `i` of the displayed ranking is the `i`-th sorted row at rank `i + 1`. */
  lemma RankedDisplayAt(rows: seq<Entry>, i: int)
    requires 0 <= i < |rows|
    ensures RankedDisplays(rows)[i] == FormatRankingDisplay(SortRanking(rows)[i], i + 1)
  {
  }

  /** Scores never increase down the displayed ranking. */
  lemma RankedDisplaysOrdered(rows: seq<Entry>)
    ensures var d := RankedDisplays(rows);
      forall i, j :: 0 <= i < j < |d| ==> d[i].score >= d[j].score
  {
    var d := RankedDisplays(rows);
    var sorted := SortRanking(rows);
    forall i, j | 0 <= i < j < |d|
      ensures d[i].score >= d[j].score
    {
      RankedDisplayAt(rows, i);
      RankedDisplayAt(rows, j);
    }
  }

  lemma DisplayedRowStored(rows: seq<Entry>, i: int)
    requires 0 <= i < |rows|
    ensures exists k :: 0 <= k < |rows| && RankedDisplays(rows)[i] == FormatRankingDisplay(rows[k], i + 1)
  {
    var sorted := SortRanking(rows);
    RankedDisplayAt(rows, i);
    SortRankingPermutes(rows);
    assert sorted[i] in multiset(rows);
    var k :| 0 <= k < |rows| && rows[k] == sorted[i];
    assert RankedDisplays(rows)[i] == FormatRankingDisplay(rows[k], i + 1);
  }

  lemma StoredRowDisplayed(rows: seq<Entry>, k: int)
    requires 0 <= k < |rows|
    ensures exists i :: 0 <= i < |rows| && RankedDisplays(rows)[i] == FormatRankingDisplay(rows[k], i + 1)
  {
    var sorted := SortRanking(rows);
    SortRankingPermutes(rows);
    assert rows[k] in multiset(sorted);
    var i :| 0 <= i < |sorted| && sorted[i] == rows[k];
    RankedDisplayAt(rows, i);
    assert RankedDisplays(rows)[i] == FormatRankingDisplay(rows[k], i + 1);
  }

  /** Every displayed line shows a stored row at its rank, and every stored row is shown. */
  lemma RankedDisplaysComplete(rows: seq<Entry>)
    ensures var d := RankedDisplays(rows);
      && (forall i :: 0 <= i < |d| ==> exists k :: 0 <= k < |rows| && d[i] == FormatRankingDisplay(rows[k], i + 1))
      && (forall k :: 0 <= k < |rows| ==> exists i :: 0 <= i < |d| && d[i] == FormatRankingDisplay(rows[k], i + 1))
  {
    forall i | 0 <= i < |rows| {
      DisplayedRowStored(rows, i);
    }
    forall k | 0 <= k < |rows| {
      StoredRowDisplayed(rows, k);
    }
  }

  /** The ranking as displayed: every stored row once, in sorted order, numbered from 1. */
  method GetSortedRanking(store: DataStore) returns (result: seq<Display>)
    ensures result == RankedDisplays(store.RankingRows())
  {
    var sortedData := SortRanking(store.RankingRows());
    result := [];
    var idx := 0;
    while idx < |sortedData|
      invariant 0 <= idx <= |sortedData|
      invariant result == RankedDisplays(store.RankingRows())[..idx]
    {
      result := result + [FormatRankingDisplay(sortedData[idx], idx + 1)];
      idx := idx + 1;
    }
  }

  /** The rank of the first displayed line showing the user (case-insensitively), or -1. */
  method GetUserRank(store: DataStore, userId: string) returns (rank: int)
    ensures rank == -1 <==>
              forall i :: 0 <= i < |store.RankingRows()| ==> !SameId(RankedDisplays(store.RankingRows())[i].userId, userId)
    ensures rank != -1 ==>
              && 1 <= rank <= |store.RankingRows()|
              && SameId(RankedDisplays(store.RankingRows())[rank - 1].userId, userId)
              && forall j :: 0 <= j < rank - 1 ==> !SameId(RankedDisplays(store.RankingRows())[j].userId, userId)
  {
    var sortedRanking := GetSortedRanking(store);
    var i := 0;
    while i < |sortedRanking|
      invariant 0 <= i <= |sortedRanking|
      invariant forall j :: 0 <= j < i ==> !SameId(sortedRanking[j].userId, userId)
    {
      var entry := sortedRanking[i];
      if LowerStr(entry.userId) == LowerStr(userId) {
        assert entry.rank == i + 1;
        return entry.rank;
      }
      i := i + 1;
    }
    return -1;
  }

  // ---------------------------------------------------------------------------
  // Overwriting update
  // ---------------------------------------------------------------------------

  /** The rows after setting the user's first row to the given counters, or after appending a
      row for the user when there is none. */
  function Overwritten(rows: seq<Entry>, userId: string, wins: int, matches: int): seq<Entry>
  {
    match FirstMatch(rows, userId)
    case Some(k) => rows[k := rows[k].(totalWins := Some(wins), totalMatches := Some(matches))]
    case None => rows + [NewEntry(userId, wins, matches)]
  }

  /** For a user who has a row: only that row changes, and it now holds exactly the given
      counters (the old ones are discarded). */
  lemma OverwrittenExisting(rows: seq<Entry>, userId: string, wins: int, matches: int)
    requires FirstMatch(rows, userId).Some?
    ensures var r, k := Overwritten(rows, userId, wins, matches), FirstMatch(rows, userId).value;
      && |r| == |rows|
      && FirstMatch(r, userId) == Some(k)
      && r[k].userId == rows[k].userId
      && r[k].totalWins == Some(wins) && r[k].totalMatches == Some(matches)
      && forall i :: 0 <= i < |rows| && i != k ==> r[i] == rows[i]
  {
    var r := Overwritten(rows, userId, wins, matches);
    FirstMatchSameIds(rows, r, userId);
  }

  /** For a user without a row: exactly one row, the user's, is appended at the end. */
  lemma OverwrittenNew(rows: seq<Entry>, userId: string, wins: int, matches: int)
    requires FirstMatch(rows, userId).None?
    ensures var r := Overwritten(rows, userId, wins, matches);
      && r == rows + [NewEntry(userId, wins, matches)]
      && FirstMatch(r, userId) == Some(|rows|)
  {
    var r := Overwritten(rows, userId, wins, matches);
    assert IsUser(r[|rows|], userId);
    assert forall j :: 0 <= j < |rows| ==> r[j] == rows[j];
  }

  /** Only the latest overwrite of a user is kept. */
  lemma OverwriteTwice(rows: seq<Entry>, userId: string, w1: int, m1: int, w2: int, m2: int)
    ensures Overwritten(Overwritten(rows, userId, w1, m1), userId, w2, m2) == Overwritten(rows, userId, w2, m2)
  {
    if FirstMatch(rows, userId).Some? {
      OverwrittenExisting(rows, userId, w1, m1);
    } else {
      OverwrittenNew(rows, userId, w1, m1);
    }
  }

  /** The loop of `_update_user_in_ranking`, on the loaded rows. */
  method UpdateUserInRanking(rows: seq<Entry>, userId: string, wins: int, matches: int) returns (rankingData: seq<Entry>)
    requires Scannable(rows, userId)
    ensures rankingData == Overwritten(rows, userId, wins, matches)
  {
    rankingData := rows;
    var userFound := false;
    var i := 0;
    while i < |rankingData|
      invariant 0 <= i <= |rankingData|
      invariant !userFound ==> rankingData == rows && forall j :: 0 <= j < i ==> !IsUser(rows[j], userId)
      invariant userFound ==> rankingData == Overwritten(rows, userId, wins, matches)
    {
      var entry := rankingData[i];
      ScannableReached(rows, userId, i);
      if LowerStr(entry.userId.value) == LowerStr(userId) {
        rankingData := rankingData[i := entry.(totalWins := Some(wins), totalMatches := Some(matches))];
        userFound := true;
        break;
      }
      i := i + 1;
    }
    if !userFound {
      rankingData := rankingData + [NewEntry(userId, wins, matches)];
    }
  }

  /** The rows after recording one head-to-head lookup: each user's row is overwritten with
      their own wins and with the number of matches of the lookup. */
  function RecordedMatch(rows: seq<Entry>, userA: string, userB: string, userAWins: int, userBWins: int): seq<Entry>
  {
    Overwritten(Overwritten(rows, userA, userAWins, userAWins + userBWins), userB, userBWins, userAWins + userBWins)
  }

  /** The user's first row holds exactly these counters. */
  predicate HoldsCounters(rows: seq<Entry>, userId: string, wins: int, matches: int)
  {
    && FirstMatch(rows, userId).Some?
    && rows[FirstMatch(rows, userId).value].totalWins == Some(wins)
    && rows[FirstMatch(rows, userId).value].totalMatches == Some(matches)
  }

  /** Whichever case applies, the user ends with a first row holding the given counters, the
      existing rows keep their ids, and a row of any other user is as before. */
  lemma OverwrittenFrame(rows: seq<Entry>, userId: string, wins: int, matches: int)
    ensures |rows| <= |Overwritten(rows, userId, wins, matches)|
    ensures HoldsCounters(Overwritten(rows, userId, wins, matches), userId, wins, matches)
    ensures forall i :: 0 <= i < |rows| ==> Overwritten(rows, userId, wins, matches)[i].userId == rows[i].userId
    ensures forall i :: 0 <= i < |rows| && !IsUser(rows[i], userId) ==> Overwritten(rows, userId, wins, matches)[i] == rows[i]
    ensures Keyed(Overwritten(rows, userId, wins, matches)[|rows|..])
  {
    var r := Overwritten(rows, userId, wins, matches);
    if FirstMatch(rows, userId).Some? {
      OverwrittenExisting(rows, userId, wins, matches);
    } else {
      OverwrittenNew(rows, userId, wins, matches);
      assert r[|rows|..] == [NewEntry(userId, wins, matches)];
    }
  }

  lemma OverwrittenHolds(rows: seq<Entry>, userId: string, wins: int, matches: int)
    ensures HoldsCounters(Overwritten(rows, userId, wins, matches), userId, wins, matches)
  {
    OverwrittenFrame(rows, userId, wins, matches);
  }

  /** Overwriting one user leaves another user's first row, and so its counters, as they were. */
  lemma OverwriteKeepsOther(rows: seq<Entry>, userId: string, other: string, wins: int, matches: int,
                            otherWins: int, otherMatches: int)
    requires LowerStr(userId) != LowerStr(other)
    requires HoldsCounters(rows, other, otherWins, otherMatches)
    ensures HoldsCounters(Overwritten(rows, userId, wins, matches), other, otherWins, otherMatches)
  {
    var r := Overwritten(rows, userId, wins, matches);
    var k := FirstMatch(rows, other).value;
    OverwrittenFrame(rows, userId, wins, matches);
    assert !IsUser(rows[k], userId);
    assert r[k] == rows[k];
    forall j | 0 <= j < k
      ensures !IsUser(r[j], other)
    {
      assert r[j].userId == rows[j].userId;
    }
    FirstMatchAt(r, other, k);
  }

  /** For two different users, afterwards each one's row holds their own wins and the shared
      match count. */
  lemma BothUsersRecorded(rows: seq<Entry>, userA: string, userB: string, userAWins: int, userBWins: int)
    requires LowerStr(userA) != LowerStr(userB)
    ensures HoldsCounters(RecordedMatch(rows, userA, userB, userAWins, userBWins), userA, userAWins, userAWins + userBWins)
    ensures HoldsCounters(RecordedMatch(rows, userA, userB, userAWins, userBWins), userB, userBWins, userAWins + userBWins)
  {
    var t := userAWins + userBWins;
    var mid := Overwritten(rows, userA, userAWins, t);
    OverwrittenHolds(rows, userA, userAWins, t);
    OverwriteKeepsOther(mid, userB, userA, userBWins, t, userAWins, t);
    OverwrittenHolds(mid, userB, userBWins, t);
  }

  /** Recording a lookup changes no row of a third user. */
  lemma ThirdUsersUntouched(rows: seq<Entry>, userA: string, userB: string, userAWins: int, userBWins: int)
    ensures forall i :: 0 <= i < |rows| && !IsUser(rows[i], userA) && !IsUser(rows[i], userB) ==>
              RecordedMatch(rows, userA, userB, userAWins, userBWins)[i] == rows[i]
  {
    var t := userAWins + userBWins;
    var mid := Overwritten(rows, userA, userAWins, t);
    var r := Overwritten(mid, userB, userBWins, t);
    OverwrittenFrame(rows, userA, userAWins, t);
    OverwrittenFrame(mid, userB, userBWins, t);
    forall i | 0 <= i < |rows| && !IsUser(rows[i], userA) && !IsUser(rows[i], userB)
      ensures r[i] == rows[i]
    {
      assert mid[i] == rows[i];
    }
  }

  /** Recording a lookup: load the rows, overwrite both users' rows, save. */
  method UpdateRankingFromMatch(store: DataStore, userA: string, userB: string, userAWins: int, userBWins: int)
      returns (ok: bool)
    requires Scannable(store.RankingRows(), userA) && Scannable(store.RankingRows(), userB)
    modifies store`rankingFile
    ensures SaveOutcome(old(store.rankingFile), store.rankingFile,
                        RecordedMatch(old(store.RankingRows()), userA, userB, userAWins, userBWins), ok)
  {
    var rankingData := store.RankingRows();
    var totalMatches := userAWins + userBWins;
    rankingData := UpdateUserInRanking(rankingData, userA, userAWins, totalMatches);
    OverwrittenFrame(store.RankingRows(), userA, userAWins, totalMatches);
    ScannableExtended(store.RankingRows(), rankingData, userB);
    rankingData := UpdateUserInRanking(rankingData, userB, userBWins, totalMatches);
    ok := store.SaveRanking(rankingData);
  }

  // ---------------------------------------------------------------------------
  // Weighting
  // ---------------------------------------------------------------------------

  /** A weight configuration `{"win_multiplier": ..., "bonus": ...}`; either key may be missing. */
  datatype WeightConfig = WeightConfig(winMultiplier: Option<real>, bonus: Option<real>)

  /** The base score unchanged without a configuration, else scaled by the multiplier
      (default 1) and shifted by the bonus (default 0). */
  function ApplyWeight(baseScore: real, config: Option<WeightConfig>): (r: real)
    ensures config.None? ==> r == baseScore
    ensures config.Some? ==>
              r == baseScore * (if config.value.winMultiplier.Some? then config.value.winMultiplier.value else 1.0)
                   + (if config.value.bonus.Some? then config.value.bonus.value else 0.0)
  {
    match config
    case None => baseScore
    case Some(c) =>
      var multiplier := match c.winMultiplier case Some(m) => m case None => 1.0;
      var bonus := match c.bonus case Some(b) => b case None => 0.0;
      baseScore * multiplier + bonus
  }

  /** An empty configuration changes nothing, and a non-negative multiplier keeps the order of
      scores, so weighting with one never reverses two users. */
  lemma ApplyWeightOrder(b1: real, b2: real, config: Option<WeightConfig>)
    requires b1 <= b2
    requires config.Some? && config.value.winMultiplier.Some? ==> config.value.winMultiplier.value >= 0.0
    ensures ApplyWeight(b1, config) <= ApplyWeight(b2, config)
    ensures ApplyWeight(b1, Some(WeightConfig(None, None))) == b1
  {
    if config.Some? && config.value.winMultiplier.Some? {
      var m := config.value.winMultiplier.value;
      assert b1 * m <= b2 * m by {
        assert (b2 - b1) * m >= 0.0;
      }
    }
  }
}
