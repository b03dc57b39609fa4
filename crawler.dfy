/**
 * The replay side of the head-to-head lookup: turning one replay returned by
 * the replay search into a match record between the two requested users (or
 * rejecting it), keeping the replays that parse, and tallying each user's wins.
 * The HTTP request that yields the replays is not modelled; the replays are
 * the input sequence.
 */
module Crawler {
  import opened Wrappers
  import opened Text

  /** A player's `score` field: absent (read as 0), a value `int()` accepts, or one it rejects. */
  datatype ScoreField = Absent | Number(n: int) | Unparsable

  /** One element of a replay's `players` list; an absent `name` reads as "". */
  datatype Player = Player(name: Option<string>, score: ScoreField)

  /** One replay; an absent `players` field reads as the empty list, `channelName` is the game. */
  datatype Replay = Replay(players: seq<Player>, channelName: Option<string>)

  /** The record built from a replay: both players' names and scores, the winner and the game. */
  datatype Match = Match(id1: string, id2: string, score1: int, score2: int, winner: string, game: string)

  datatype Summary = Summary(totalMatches: int, userAWins: int, userBWins: int, userAId: string, userBId: string)

  /** The result of one head-to-head lookup (its debug log is not modelled). */
  datatype CrawlResult = CrawlResult(success: bool, matches: seq<Match>, summary: Summary, error: Option<string>)

  /** `int(p.get("score", 0))`; `None` stands for the ValueError that `int()` raises. */
  function ScoreOf(p: Player): Option<int>
  {
    match p.score
    case Absent => Some(0)
    case Number(n) => Some(n)
    case Unparsable => None
  }

  /** `p.get("name", "").strip()` */
  function NameOf(p: Player): string
  {
    Strip(match p.name case Some(n) => n case None => "")
  }

  /** Both requested users, lower-cased, are among the two lower-cased player names. */
  predicate Involves(name1: string, name2: string, userA: string, userB: string)
  {
    var names := {LowerStr(name1), LowerStr(name2)};
    LowerStr(userA) in names && LowerStr(userB) in names
  }

  /** The winner rule: player 1 only on a strictly greater score, so a tie goes to player 2. */
  function Winner(name1: string, score1: int, name2: string, score2: int): string
  {
    if score1 > score2 then name1 else name2
  }

  /** One replay to a match record, or `None` when it has fewer than two players, a score
      `int()` rejects (the caught exception), or is not a game between the two users. */
  function ParseReplay(replay: Replay, userA: string, userB: string): (r: Option<Match>)
    ensures |replay.players| < 2 ==> r == None
    ensures r.Some? <==>
              && |replay.players| >= 2
              && ScoreOf(replay.players[0]).Some? && ScoreOf(replay.players[1]).Some?
              && Involves(NameOf(replay.players[0]), NameOf(replay.players[1]), userA, userB)
    ensures r.Some? ==>
              && r.value.id1 == NameOf(replay.players[0]) && r.value.id2 == NameOf(replay.players[1])
              && r.value.score1 == ScoreOf(replay.players[0]).value
              && r.value.score2 == ScoreOf(replay.players[1]).value
              && r.value.game == (if replay.channelName.Some? then replay.channelName.value else "unknown")
    ensures r.Some? ==> (r.value.winner == r.value.id1 || r.value.winner == r.value.id2)
    ensures r.Some? && r.value.score1 > r.value.score2 ==> r.value.winner == r.value.id1
    ensures r.Some? && r.value.score1 <= r.value.score2 ==> r.value.winner == r.value.id2
  {
    if |replay.players| < 2 then None
    else
      var p1 := replay.players[0];
      var p2 := replay.players[1];
      var name1 := NameOf(p1);
      var name2 := NameOf(p2);
      match (ScoreOf(p1), ScoreOf(p2))
      case (Some(score1), Some(score2)) =>
        if !Involves(name1, name2, userA, userB) then None
        else
          Some(Match(name1, name2, score1, score2, Winner(name1, score1, name2, score2),
                     match replay.channelName case Some(g) => g case None => "unknown"))
      case _ => None
  }

  /** For two distinct users, the winner of a kept record is one of them. */
  lemma ParseReplayWinner(replay: Replay, userA: string, userB: string)
    requires LowerStr(userA) != LowerStr(userB)
    requires ParseReplay(replay, userA, userB).Some?
    ensures LowerStr(ParseReplay(replay, userA, userB).value.winner) in {LowerStr(userA), LowerStr(userB)}
  {
    var m := ParseReplay(replay, userA, userB).value;
    assert Involves(m.id1, m.id2, userA, userB);
    assert m.winner == m.id1 || m.winner == m.id2;
  }

  /** The value of an `Option`, as a sequence of at most one element. */
  function AsSeq<U>(o: Option<U>): seq<U>
  {
    match o
    case Some(u) => [u]
    case None => []
  }

  /** The values `f` yields over `s`, in order, skipping the elements it rejects. */
  function FilterMap<T, U>(f: T -> Option<U>, s: seq<T>): (r: seq<U>)
    ensures |r| <= |s|
  {
    if s == [] then [] else FilterMap(f, s[..|s| - 1]) + AsSeq(f(s[|s| - 1]))
  }

  /** Filtering distributes over concatenation: no element is reordered, dropped or duplicated
      except by its own result. */
  lemma {:induction false} FilterMapAppend<T, U>(f: T -> Option<U>, xs: seq<T>, ys: seq<T>)
    ensures FilterMap(f, xs + ys) == FilterMap(f, xs) + FilterMap(f, ys)
  {
    if ys == [] {
      assert xs + ys == xs;
    } else {
      var init := ys[..|ys| - 1];
      assert (xs + ys)[..|xs + ys| - 1] == xs + init;
      FilterMapAppend(f, xs, init);
    }
  }

  /** Extending the prefix by one element adds that element's result, if any. */
  lemma FilterMapPrefix<T, U>(f: T -> Option<U>, s: seq<T>, i: nat)
    requires i < |s|
    ensures FilterMap(f, s[..i + 1]) == FilterMap(f, s[..i]) + AsSeq(f(s[i]))
  {
    assert s[..i + 1][..i] == s[..i];
  }

  /** Nothing is kept exactly when `f` rejects every element. */
  lemma {:induction false} FilterMapEmptyIff<T, U>(f: T -> Option<U>, s: seq<T>)
    ensures FilterMap(f, s) == [] <==> forall i :: 0 <= i < |s| ==> f(s[i]).None?
  {
    if s != [] {
      var init := s[..|s| - 1];
      FilterMapEmptyIff(f, init);
      if FilterMap(f, s) == [] {
        forall i | 0 <= i < |s|
          ensures f(s[i]).None?
        {
          if i < |init| {
            assert s[i] == init[i];
          }
        }
      } else if FilterMap(f, init) != [] {
        var i :| 0 <= i < |init| && f(init[i]).Some?;
        assert s[i] == init[i];
      }
    }
  }

  /** Every kept value is the result of `f` on some element. */
  lemma {:induction false} FilterMapFrom<T, U>(f: T -> Option<U>, s: seq<T>, k: nat)
    requires k < |FilterMap(f, s)|
    ensures exists i :: 0 <= i < |s| && f(s[i]) == Some(FilterMap(f, s)[k])
  {
    var init := s[..|s| - 1];
    var front := FilterMap(f, init);
    if k < |front| {
      FilterMapFrom(f, init, k);
      var i :| 0 <= i < |init| && f(init[i]) == Some(front[k]);
      assert s[i] == init[i];
    } else {
      assert f(s[|s| - 1]) == Some(FilterMap(f, s)[k]);
    }
  }

  /** The parse of a replay for one pair of users. */
  function Parser(userA: string, userB: string): Replay -> Option<Match>
  {
    (replay: Replay) => ParseReplay(replay, userA, userB)
  }

  /** The replays that parse to a match record, as records, in their original order. */
  function Kept(replays: seq<Replay>, userA: string, userB: string): seq<Match>
  {
    FilterMap(Parser(userA, userB), replays)
  }

  /** Nothing is kept exactly when no replay parses. */
  lemma KeptEmptyIff(replays: seq<Replay>, userA: string, userB: string)
    ensures Kept(replays, userA, userB) == [] <==>
            forall i :: 0 <= i < |replays| ==> ParseReplay(replays[i], userA, userB).None?
  {
    FilterMapEmptyIff(Parser(userA, userB), replays);
  }

  /** Every kept record is the parse of some replay. */
  lemma KeptFromReplays(replays: seq<Replay>, userA: string, userB: string, k: nat)
    requires k < |Kept(replays, userA, userB)|
    ensures exists i :: 0 <= i < |replays| && ParseReplay(replays[i], userA, userB) == Some(Kept(replays, userA, userB)[k])
  {
    FilterMapFrom(Parser(userA, userB), replays, k);
  }

  /** The filter loop of the head-to-head lookup. */
  method FilterMatches(replays: seq<Replay>, userA: string, userB: string) returns (allMatches: seq<Match>)
    ensures allMatches == Kept(replays, userA, userB)
  {
    allMatches := [];
    var i := 0;
    while i < |replays|
      invariant 0 <= i <= |replays|
      invariant allMatches == Kept(replays[..i], userA, userB)
    {
      var m := ParseReplay(replays[i], userA, userB);
      FilterMapPrefix(Parser(userA, userB), replays, i);
      if m.Some? {
        allMatches := allMatches + [m.value];
      }
      i := i + 1;
    }
    assert replays[..i] == replays;
  }

  /** `sum(1 for m in matches if m["winner"].lower() == user.lower())` */
  function CountWins(matches: seq<Match>, user: string): (n: nat)
    ensures n <= |matches|
  {
    if matches == [] then 0
    else (if LowerStr(matches[0].winner) == LowerStr(user) then 1 else 0) + CountWins(matches[1..], user)
  }

  /** The winner of every record kept for two distinct users is one of them. */
  predicate WonByOneOf(matches: seq<Match>, userA: string, userB: string)
  {
    forall m :: m in matches ==> LowerStr(m.winner) in {LowerStr(userA), LowerStr(userB)}
  }

  lemma KeptWonByOneOf(replays: seq<Replay>, userA: string, userB: string)
    requires LowerStr(userA) != LowerStr(userB)
    ensures WonByOneOf(Kept(replays, userA, userB), userA, userB)
  {
    var kept := Kept(replays, userA, userB);
    forall m | m in kept
      ensures LowerStr(m.winner) in {LowerStr(userA), LowerStr(userB)}
    {
      var k :| 0 <= k < |kept| && kept[k] == m;
      KeptFromReplays(replays, userA, userB, k);
      var i :| 0 <= i < |replays| && ParseReplay(replays[i], userA, userB) == Some(m);
      ParseReplayWinner(replays[i], userA, userB);
    }
  }

  /** When each record was won by exactly one of two distinct users, their win counts add up
      to the number of records. */
  lemma {:induction false} WinsPartition(matches: seq<Match>, userA: string, userB: string)
    requires LowerStr(userA) != LowerStr(userB)
    requires WonByOneOf(matches, userA, userB)
    ensures CountWins(matches, userA) + CountWins(matches, userB) == |matches|
  {
    if matches != [] {
      assert matches[0] in matches;
      assert forall m :: m in matches[1..] ==> m in matches;
      WinsPartition(matches[1..], userA, userB);
    }
  }

  /** The message stored when no replay between the two users was found. */
  function NoMatchesMessage(userA: string, userB: string): string
  {
    "'" + userA + "'와 '" + userB + "' 간의 대전 기록이 없습니다."
  }

  /** The filter and tally part of the head-to-head lookup, once the replays are in hand. */
  method TallyHeadToHead(replays: seq<Replay>, userA: string, userB: string) returns (result: CrawlResult)
    ensures result.success
    ensures result.matches == Kept(replays, userA, userB)
    ensures result.summary.userAId == userA && result.summary.userBId == userB
    ensures result.summary.totalMatches == |result.matches|
    ensures result.matches == [] <==> result.error.Some?
    ensures result.matches == [] ==>
              && result.error == Some(NoMatchesMessage(userA, userB))
              && result.summary.userAWins == 0 && result.summary.userBWins == 0
              && forall i :: 0 <= i < |replays| ==> ParseReplay(replays[i], userA, userB).None?
    ensures result.summary.userAWins == CountWins(result.matches, userA)
    ensures result.summary.userBWins == CountWins(result.matches, userB)
    ensures LowerStr(userA) != LowerStr(userB) ==>
              result.summary.userAWins + result.summary.userBWins == result.summary.totalMatches
  {
    result := CrawlResult(false, [], Summary(0, 0, 0, userA, userB), None);
    var allMatches := FilterMatches(replays, userA, userB);
    if allMatches == [] {
      KeptEmptyIff(replays, userA, userB);
      result := result.(error := Some(NoMatchesMessage(userA, userB)), success := true);
      return;
    }
    var userAWins := CountWins(allMatches, userA);
    var userBWins := CountWins(allMatches, userB);
    if LowerStr(userA) != LowerStr(userB) {
      KeptWonByOneOf(replays, userA, userB);
      WinsPartition(allMatches, userA, userB);
    }
    result := result.(success := true, matches := allMatches,
                      summary := Summary(|allMatches|, userAWins, userBWins, userA, userB));
  }
}
