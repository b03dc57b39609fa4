/**
 * The three small stores behind the tracker: the list of registered user ids,
 * the match history keyed by an unordered, case-insensitive pair of users, and
 * the ranking rows. Each lives in its own JSON file; a read of a missing,
 * unreadable or wrongly shaped file yields the empty list or dictionary, and
 * every update is one load / change / save cycle whose save may fail.
 */
module DataManager {
  import opened Wrappers
  import opened Text
  import opened Crawler

  // ---------------------------------------------------------------------------
  // Backing files
  // ---------------------------------------------------------------------------

  /** What a JSON file can hold when it is read: nothing, bytes that do not parse,
      a JSON value of the wrong kind (a dictionary where a list is expected, `null`, ...),
      or a value of the expected kind. */
  datatype FileState<T> = NoFile | Corrupt | WrongShape | Holds(value: T)

  /** The list loaders: the stored list, or `[]` when there is none to read. */
  function LoadList<T>(f: FileState<seq<T>>): (r: seq<T>)
    ensures f.Holds? ==> r == f.value
    ensures !f.Holds? ==> r == []
  {
    match f
    case Holds(v) => v
    case _ => []
  }

  /** The dictionary loader: the stored dictionary, or `{}` when there is none to read. */
  function LoadDict<K, V>(f: FileState<map<K, V>>): (r: map<K, V>)
    ensures f.Holds? ==> r == f.value
    ensures !f.Holds? ==> r == map[]
  {
    match f
    case Holds(v) => v
    case _ => map[]
  }

  /** What a save leaves behind: the data written and `true`, or `false` and either the old
      file (the open failed) or an unreadable one (the write failed after truncating it). */
  predicate SaveOutcome<T(==)>(before: FileState<T>, after: FileState<T>, written: T, ok: bool)
  {
    if ok then after == Holds(written) else after == before || after == Corrupt
  }

  /** Writing a JSON file; whether the disk accepts the write is not up to the program. */
  method SaveJson<T(==)>(before: FileState<T>, data: T) returns (ok: bool, after: FileState<T>)
    ensures SaveOutcome(before, after, data, ok)
  {
    ok := *;
    if ok {
      after := Holds(data);
    } else {
      var truncated: bool := *;
      after := if truncated then Corrupt else before;
    }
  }

  lemma SavedListReloads<T>(before: FileState<seq<T>>, after: FileState<seq<T>>, written: seq<T>, ok: bool)
    requires SaveOutcome(before, after, written, ok)
    ensures ok ==> LoadList(after) == written
    ensures !ok ==> LoadList(after) == LoadList(before) || LoadList(after) == []
  {
  }

  // ---------------------------------------------------------------------------
  // Records
  // ---------------------------------------------------------------------------

  /** A ranking row `{"user_id", "total_wins", "total_matches"}`; any field may be missing
      from a file that was edited by hand. */
  datatype Entry = Entry(userId: Option<string>, totalWins: Option<int>, totalMatches: Option<int>)

  /** A match-history value: the two ids as given, the match records and their summary. */
  datatype PairRecord = PairRecord(userA: string, userB: string, matches: seq<Match>, summary: Summary)

  function NewEntry(userId: string, wins: int, matches: int): Entry
  {
    Entry(Some(userId), Some(wins), Some(matches))
  }

  /** The row carries an id that names the user, ignoring case. */
  predicate IsUser(e: Entry, userId: string)
  {
    e.userId.Some? && SameId(e.userId.value, userId)
  }

  /** Every row carries a user id. */
  predicate Keyed(rows: seq<Entry>)
  {
    forall i :: 0 <= i < |rows| ==> rows[i].userId.Some?
  }

  /** A scan for the user reads `entry["user_id"]` row by row until it finds the user, and
      raises KeyError on a row without one: this holds when every row it reaches, up to the
      user's first row or to the end, has an id. */
  predicate Scannable(rows: seq<Entry>, userId: string)
  {
    rows == [] || (rows[0].userId.Some? && (IsUser(rows[0], userId) || Scannable(rows[1..], userId)))
  }

  lemma {:induction false} KeyedScannable(rows: seq<Entry>, userId: string)
    requires Keyed(rows)
    ensures Scannable(rows, userId)
  {
    if rows != [] {
      KeyedScannable(rows[1..], userId);
    }
  }

  /** Rows that keep the ids of a scannable list and add only rows with ids stay scannable. */
  lemma {:induction false} ScannableExtended(rows: seq<Entry>, other: seq<Entry>, userId: string)
    requires Scannable(rows, userId)
    requires |rows| <= |other|
    requires forall i :: 0 <= i < |rows| ==> other[i].userId == rows[i].userId
    requires Keyed(other[|rows|..])
    ensures Scannable(other, userId)
  {
    if rows == [] {
      KeyedScannable(other, userId);
    } else if !IsUser(rows[0], userId) {
      assert other[1..][|rows[1..]|..] == other[|rows|..];
      ScannableExtended(rows[1..], other[1..], userId);
    }
  }

  /** The rows a scan reaches have ids. */
  lemma {:induction false} ScannableReached(rows: seq<Entry>, userId: string, i: int)
    requires Scannable(rows, userId)
    requires 0 <= i < |rows|
    requires forall j :: 0 <= j < i ==> !IsUser(rows[j], userId)
    ensures rows[i].userId.Some?
  {
    if i > 0 {
      ScannableReached(rows[1..], userId, i - 1);
    }
  }

  /** The index of the first row that is the user (case-insensitively), if any. */
  function FirstMatch(rows: seq<Entry>, userId: string): (r: Option<nat>)
    ensures r.Some? ==> r.value < |rows| && IsUser(rows[r.value], userId)
    ensures r.Some? ==> forall j :: 0 <= j < r.value ==> !IsUser(rows[j], userId)
    ensures r.None? <==> forall j :: 0 <= j < |rows| ==> !IsUser(rows[j], userId)
  {
    if rows == [] then None
    else if IsUser(rows[0], userId) then Some(0)
    else
      match FirstMatch(rows[1..], userId)
      case Some(k) => Some(k + 1)
      case None => None
  }

  /** A matching row with no matching row before it is the first match. */
  lemma FirstMatchAt(rows: seq<Entry>, userId: string, k: nat)
    requires k < |rows| && IsUser(rows[k], userId)
    requires forall j :: 0 <= j < k ==> !IsUser(rows[j], userId)
    ensures FirstMatch(rows, userId) == Some(k)
  {
  }

  // ---------------------------------------------------------------------------
  // User list
  // ---------------------------------------------------------------------------

  /** The position of the first occurrence of `x`. */
  function IndexOf(s: seq<string>, x: string): (k: nat)
    requires x in s
    ensures k < |s| && s[k] == x
    ensures forall j :: 0 <= j < k ==> s[j] != x
  {
    if s[0] == x then 0 else 1 + IndexOf(s[1..], x)
  }

  /** Python `list.remove(x)`: drops the first occurrence of `x` and keeps the rest in order. */
  function RemoveFirst(s: seq<string>, x: string): (r: seq<string>)
    requires x in s
    ensures |r| == |s| - 1
    ensures multiset(r) == multiset(s) - multiset{x}
    ensures r == s[..IndexOf(s, x)] + s[IndexOf(s, x) + 1..]
  {
    var k := IndexOf(s, x);
    assert s == s[..k] + [s[k]] + s[k + 1..];
    s[..k] + s[k + 1..]
  }

  /** Adding a new id and then removing it gives back the list it was added to. */
  lemma AddThenRemove(s: seq<string>, x: string)
    requires x !in s
    ensures RemoveFirst(s + [x], x) == s
  {
    assert IndexOf(s + [x], x) == |s|;
    assert (s + [x])[..|s|] == s;
  }

  /** `query.lower() in user.lower()` */
  predicate MatchesQuery(user: string, query: string)
  {
    Contains(LowerStr(user), LowerStr(query))
  }

  // ---------------------------------------------------------------------------
  // Match history key
  // ---------------------------------------------------------------------------

  /** `f"{lo}_vs_{hi}"` where `[lo, hi]` is `sorted([a.lower(), b.lower()])`. */
  function MatchKey(userA: string, userB: string): (key: string)
    ensures key == LowerStr(userA) + "_vs_" + LowerStr(userB) || key == LowerStr(userB) + "_vs_" + LowerStr(userA)
  {
    var a, b := LowerStr(userA), LowerStr(userB);
    if LexLess(b, a) then
      b + "_vs_" + a
    else
      a + "_vs_" + b
  }

  /** The key does not depend on the order of the two users. */
  lemma MatchKeySymmetric(userA: string, userB: string)
    ensures MatchKey(userA, userB) == MatchKey(userB, userA)
  {
    var a, b := LowerStr(userA), LowerStr(userB);
    if a != b {
      LexLessTotal(a, b);
      LexLessAsymmetric(a, b);
    }
  }

  /** The key does not depend on the case of either user. */
  lemma MatchKeyIgnoresCase(userA: string, userB: string)
    ensures MatchKey(userA, userB) == MatchKey(LowerStr(userA), LowerStr(userB))
  {
    LowerStrIdempotent(userA);
    LowerStrIdempotent(userB);
  }

  /** The key is not one-to-one: an id containing "_vs_" lets two different pairs share a key. */
  lemma MatchKeyCollision()
    ensures MatchKey("a_vs_b", "c") == MatchKey("a", "b_vs_c")
  {
    assert LowerStr("a_vs_b") == "a_vs_b" && LowerStr("c") == "c";
    assert LowerStr("a") == "a" && LowerStr("b_vs_c") == "b_vs_c";
    assert !LexLess("c", "a_vs_b") && !LexLess("b_vs_c", "a");
  }

  // ---------------------------------------------------------------------------
  // Accumulating ranking update
  // ---------------------------------------------------------------------------

  /** `update_user_ranking` can run without a KeyError: the scan reaches only rows with ids,
      and the row it adds to has both counters. */
  predicate Accumulable(rows: seq<Entry>, userId: string)
  {
    && Scannable(rows, userId)
    && (FirstMatch(rows, userId).Some? ==>
          rows[FirstMatch(rows, userId).value].totalWins.Some?
          && rows[FirstMatch(rows, userId).value].totalMatches.Some?)
  }

  /** The rows after adding `wins` and `matches` to the user's first row, or after appending a
      new row for the user when there is none. */
  function Accumulated(rows: seq<Entry>, userId: string, wins: int, matches: int): seq<Entry>
    requires Accumulable(rows, userId)
  {
    match FirstMatch(rows, userId)
    case Some(k) =>
      rows[k := rows[k].(totalWins := Some(rows[k].totalWins.value + wins),
                         totalMatches := Some(rows[k].totalMatches.value + matches))]
    case None => rows + [NewEntry(userId, wins, matches)]
  }

  /** Rows with the same ids, position by position, have the same first match. */
  lemma {:induction false} FirstMatchSameIds(rows: seq<Entry>, other: seq<Entry>, userId: string)
    requires |rows| == |other|
    requires forall i :: 0 <= i < |rows| ==> rows[i].userId == other[i].userId
    ensures FirstMatch(rows, userId) == FirstMatch(other, userId)
  {
    if rows != [] {
      FirstMatchSameIds(rows[1..], other[1..], userId);
    }
  }

  /** For a user who has a row: that row's counters grow by the new ones, it stays the user's
      first row, and no other row changes. */
  lemma AccumulatedExisting(rows: seq<Entry>, userId: string, wins: int, matches: int, k: nat)
    requires Accumulable(rows, userId) && FirstMatch(rows, userId) == Some(k)
    ensures |Accumulated(rows, userId, wins, matches)| == |rows|
    ensures Scannable(Accumulated(rows, userId, wins, matches), userId)
    ensures FirstMatch(Accumulated(rows, userId, wins, matches), userId) == Some(k)
    ensures Accumulated(rows, userId, wins, matches)[k] ==
            rows[k].(totalWins := Some(rows[k].totalWins.value + wins),
                     totalMatches := Some(rows[k].totalMatches.value + matches))
    ensures forall i :: 0 <= i < |rows| && i != k ==> Accumulated(rows, userId, wins, matches)[i] == rows[i]
  {
    var e := rows[k].(totalWins := Some(rows[k].totalWins.value + wins),
                      totalMatches := Some(rows[k].totalMatches.value + matches));
    var r := Accumulated(rows, userId, wins, matches);
    assert r == rows[k := e];
    assert forall i :: 0 <= i < |rows| ==> r[i].userId == rows[i].userId;
    FirstMatchSameIds(rows, r, userId);
    ScannableExtended(rows, r, userId);
  }

  /** For a user without a row: exactly one row, the user's, is appended at the end. */
  lemma AccumulatedNew(rows: seq<Entry>, userId: string, wins: int, matches: int)
    requires Accumulable(rows, userId) && FirstMatch(rows, userId).None?
    ensures var r := Accumulated(rows, userId, wins, matches);
      && r == rows + [NewEntry(userId, wins, matches)]
      && Scannable(r, userId)
      && FirstMatch(r, userId) == Some(|rows|)
  {
    var r := Accumulated(rows, userId, wins, matches);
    assert IsUser(r[|rows|], userId);
    assert forall j :: 0 <= j < |rows| ==> r[j] == rows[j];
    ScannableExtended(rows, r, userId);
  }

  /** Two accumulating updates of one user amount to one update with the summed counters. */
  lemma AccumulateTwice(rows: seq<Entry>, userId: string, w1: int, m1: int, w2: int, m2: int)
    requires Accumulable(rows, userId)
    ensures Accumulable(Accumulated(rows, userId, w1, m1), userId)
    ensures Accumulated(Accumulated(rows, userId, w1, m1), userId, w2, m2) == Accumulated(rows, userId, w1 + w2, m1 + m2)
  {
    var mid := Accumulated(rows, userId, w1, m1);
    if FirstMatch(rows, userId).Some? {
      var k := FirstMatch(rows, userId).value;
      AccumulatedExisting(rows, userId, w1, m1, k);
    } else {
      AccumulatedNew(rows, userId, w1, m1);
    }
  }

  /** The accumulating loop of `update_user_ranking`, on the loaded rows. */
  method AccumulateUser(rows: seq<Entry>, userId: string, wins: int, matches: int) returns (ranking: seq<Entry>)
    requires Accumulable(rows, userId)
    ensures ranking == Accumulated(rows, userId, wins, matches)
  {
    ranking := rows;
    var userFound := false;
    var i := 0;
    while i < |ranking|
      invariant 0 <= i <= |ranking|
      invariant !userFound ==> ranking == rows && forall j :: 0 <= j < i ==> !IsUser(rows[j], userId)
      invariant userFound ==> ranking == Accumulated(rows, userId, wins, matches)
    {
      var entry := ranking[i];
      ScannableReached(rows, userId, i);
      if LowerStr(entry.userId.value) == LowerStr(userId) {
        entry := entry.(totalWins := Some(entry.totalWins.value + wins),
                        totalMatches := Some(entry.totalMatches.value + matches));
        ranking := ranking[i := entry];
        userFound := true;
        break;
      }
      i := i + 1;
    }
    if !userFound {
      ranking := ranking + [NewEntry(userId, wins, matches)];
    }
  }

  // ---------------------------------------------------------------------------
  // The stores
  // ---------------------------------------------------------------------------

  /** The three JSON files of the data directory. */
  class DataStore {
    var userFile: FileState<seq<string>>
    var historyFile: FileState<map<string, PairRecord>>
    var rankingFile: FileState<seq<Entry>>

    /** A fresh data directory: none of the files exists yet. */
    constructor ()
      ensures userFile == NoFile && historyFile == NoFile && rankingFile == NoFile
      ensures Users() == [] && History() == map[] && RankingRows() == []
    {
      userFile, historyFile, rankingFile := NoFile, NoFile, NoFile;
    }

    /** `load_user_list()`: the stored ids, or `[]` when the file cannot be read as a list. */
    function Users(): (ids: seq<string>)
      reads this
      ensures userFile.Holds? ==> ids == userFile.value
      ensures !userFile.Holds? ==> ids == []
    {
      LoadList(userFile)
    }

    /** `load_match_history()`: the stored records, or `{}` when the file cannot be read as a dictionary. */
    function History(): (records: map<string, PairRecord>)
      reads this
      ensures historyFile.Holds? ==> records == historyFile.value
      ensures !historyFile.Holds? ==> records == map[]
    {
      LoadDict(historyFile)
    }

    /** `load_ranking()`: the stored rows, or `[]` when the file cannot be read as a list. */
    function RankingRows(): (rows: seq<Entry>)
      reads this
      ensures rankingFile.Holds? ==> rows == rankingFile.value
      ensures !rankingFile.Holds? ==> rows == []
    {
      LoadList(rankingFile)
    }

    method SaveUserList(userList: seq<string>) returns (ok: bool)
      modifies this`userFile
      ensures SaveOutcome(old(userFile), userFile, userList, ok)
    {
      ok, userFile := SaveJson(userFile, userList);
    }

    method SaveMatchHistory(history: map<string, PairRecord>) returns (ok: bool)
      modifies this`historyFile
      ensures SaveOutcome(old(historyFile), historyFile, history, ok)
    {
      ok, historyFile := SaveJson(historyFile, history);
    }

    method SaveRanking(ranking: seq<Entry>) returns (ok: bool)
      modifies this`rankingFile
      ensures SaveOutcome(old(rankingFile), rankingFile, ranking, ok)
    {
      ok, rankingFile := SaveJson(rankingFile, ranking);
    }

    /** Registers an id unless exactly that id (same case) is already listed. */
    method AddUser(userId: string) returns (ok: bool)
      modifies this`userFile
      ensures old(userId in Users()) ==> !ok && userFile == old(userFile)
      ensures old(userId !in Users()) ==> SaveOutcome(old(userFile), userFile, old(Users()) + [userId], ok)
      ensures ok ==> Users() == old(Users()) + [userId] && UserExists(userId)
    {
      var userList := Users();
      if userId in userList {
        return false;
      }
      userList := userList + [userId];
      ok := SaveUserList(userList);
    }

    /** Unregisters the first occurrence of exactly that id. */
    method RemoveUser(userId: string) returns (ok: bool)
      modifies this`userFile
      ensures old(userId !in Users()) ==> !ok && userFile == old(userFile)
      ensures old(userId in Users()) ==> SaveOutcome(old(userFile), userFile, RemoveFirst(old(Users()), userId), ok)
      ensures ok ==> |Users()| == |old(Users())| - 1
    {
      var userList := Users();
      if userId !in userList {
        return false;
      }
      userList := RemoveFirst(userList, userId);
      ok := SaveUserList(userList);
    }

    /** The first listed id whose lower-cased form contains the lower-cased query. */
    method SearchUser(query: string) returns (found: Option<string>)
      ensures found.Some? ==> found.value in Users() && MatchesQuery(found.value, query)
      ensures found.Some? ==> exists k :: 0 <= k < |Users()| && Users()[k] == found.value
                                         && forall j :: 0 <= j < k ==> !MatchesQuery(Users()[j], query)
      ensures found.None? <==> forall u :: u in Users() ==> !MatchesQuery(u, query)
    {
      var userList := Users();
      var i := 0;
      while i < |userList|
        invariant 0 <= i <= |userList|
        invariant forall j :: 0 <= j < i ==> !MatchesQuery(userList[j], query)
      {
        if Contains(LowerStr(userList[i]), LowerStr(query)) {
          return Some(userList[i]);
        }
        i := i + 1;
      }
      return None;
    }

    /** Exact, case-sensitive membership in the user list. */
    function UserExists(userId: string): (b: bool)
      reads this
      ensures b <==> exists k :: 0 <= k < |Users()| && Users()[k] == userId
    {
      userId in Users()
    }

    /** The stored record for a pair of users, looked up under their pair key; the order and
        the case of the two ids do not matter. */
    function GetMatchResult(userA: string, userB: string): (r: Option<PairRecord>)
      reads this
      ensures r.Some? <==> MatchKey(userB, userA) in History()
      ensures r.Some? ==> r.value == History()[MatchKey(userB, userA)]
    {
      MatchKeySymmetric(userA, userB);
      var key := MatchKey(userA, userB);
      if key in History() then Some(History()[key]) else None
    }

    /** Stores a pair's record under the pair key, replacing what was there. */
    method SaveMatchResult(userA: string, userB: string, matches: seq<Match>, summary: Summary) returns (ok: bool)
      modifies this`historyFile
      ensures SaveOutcome(old(historyFile), historyFile,
                          old(History())[MatchKey(userA, userB) := PairRecord(userA, userB, matches, summary)], ok)
      ensures ok ==> GetMatchResult(userA, userB) == Some(PairRecord(userA, userB, matches, summary))
      ensures ok ==> GetMatchResult(userB, userA) == Some(PairRecord(userA, userB, matches, summary))
      ensures ok ==> forall k :: k != MatchKey(userA, userB) ==>
                       (k in History() <==> k in old(History())) && (k in History() ==> History()[k] == old(History())[k])
    {
      var history := History();
      var key := MatchKey(userA, userB);
      history := history[key := PairRecord(userA, userB, matches, summary)];
      ok := SaveMatchHistory(history);
      MatchKeySymmetric(userA, userB);
    }

    /** Adds a lookup's wins and matches to the user's ranking row (a new row for a new user). */
    method UpdateUserRanking(userId: string, wins: int, matches: int) returns (ok: bool)
      requires Accumulable(RankingRows(), userId)
      modifies this`rankingFile
      ensures SaveOutcome(old(rankingFile), rankingFile, Accumulated(old(RankingRows()), userId, wins, matches), ok)
    {
      var ranking := AccumulateUser(RankingRows(), userId, wins, matches);
      ok := SaveRanking(ranking);
    }

    /** The user's first ranking row, matched case-insensitively. */
    method GetUserRankingStats(userId: string) returns (stats: Option<Entry>)
      requires Scannable(RankingRows(), userId)
      ensures stats.Some? <==> FirstMatch(RankingRows(), userId).Some?
      ensures stats.Some? ==> stats.value == RankingRows()[FirstMatch(RankingRows(), userId).value] && IsUser(stats.value, userId)
    {
      var ranking := RankingRows();
      var i := 0;
      while i < |ranking|
        invariant 0 <= i <= |ranking|
        invariant forall j :: 0 <= j < i ==> !IsUser(ranking[j], userId)
      {
        ScannableReached(ranking, userId, i);
        if LowerStr(ranking[i].userId.value) == LowerStr(userId) {
          return Some(ranking[i]);
        }
        i := i + 1;
      }
      return None;
    }
  }
}
