/**
 * The corpus-level figures `main` computes once the games are collected:
 * the matching games, their count and the match rate.
 */
module Analysis {
  import opened Base
  import opened Records
  import opened Criteria

  /** `[game for game in games if meets_criteria(game)]` */
  function MatchingGames(games: seq<GameRecord>): (r: seq<GameRecord>)
    ensures |r| <= |games|
    ensures forall g :: g in r ==> g in games && MeetsCriteria(Some(g))
    ensures forall g :: g in games && MeetsCriteria(Some(g)) ==> g in r
    decreases |games|
  {
    if games == [] then []
    else
      var rest := MatchingGames(games[1..]);
      if MeetsCriteria(Some(games[0])) then [games[0]] + rest else rest
  }

  /** `s` is `t` with some elements dropped and the rest kept in order. */
  predicate IsSubsequence<T(==)>(s: seq<T>, t: seq<T>)
    decreases |t|
  {
    if s == [] then true
    else if t == [] then false
    else (s[0] == t[0] && IsSubsequence(s[1..], t[1..])) || IsSubsequence(s, t[1..])
  }

  /** The matching games keep the order in which the games were collected. */
  lemma {:induction false} MatchingGamesIsSubsequence(games: seq<GameRecord>)
    ensures IsSubsequence(MatchingGames(games), games)
    decreases |games|
  {
    if games != [] {
      MatchingGamesIsSubsequence(games[1..]);
      var r := MatchingGames(games);
      if MeetsCriteria(Some(games[0])) {
        assert r[1..] == MatchingGames(games[1..]);
      }
    }
  }

  /** Filtering a concatenation filters each part and keeps them in order. */
  lemma {:induction false} MatchingGamesAppend(a: seq<GameRecord>, b: seq<GameRecord>)
    ensures MatchingGames(a + b) == MatchingGames(a) + MatchingGames(b)
    decreases |a|
  {
    if a == [] {
      assert a + b == b;
    } else {
      assert (a + b)[1..] == a[1..] + b;
      MatchingGamesAppend(a[1..], b);
    }
  }

  /** Each matching game is kept as many times as it was collected; every other game is dropped. */
  lemma {:induction false} MatchingGamesMultiplicity(games: seq<GameRecord>, g: GameRecord)
    ensures multiset(MatchingGames(games))[g] ==
            if MeetsCriteria(Some(g)) then multiset(games)[g] else 0
    decreases |games|
  {
    if games != [] {
      var first, rest := games[0], games[1..];
      MatchingGamesMultiplicity(rest, g);
      assert games == [first] + rest;
      assert multiset(games) == multiset([first]) + multiset(rest);
      if MeetsCriteria(Some(first)) {
        assert MatchingGames(games) == [first] + MatchingGames(rest);
        assert multiset(MatchingGames(games)) == multiset([first]) + multiset(MatchingGames(rest));
      } else {
        assert MatchingGames(games) == MatchingGames(rest);
      }
    }
  }

  /** Filtering the matching games again changes nothing. */
  lemma {:induction false} MatchingGamesIdempotent(games: seq<GameRecord>)
    ensures MatchingGames(MatchingGames(games)) == MatchingGames(games)
    decreases |games|
  {
    if games != [] {
      MatchingGamesIdempotent(games[1..]);
    }
  }

  /** When every game matches, the matching games are all the games. */
  lemma {:induction false} MatchingGamesAllMatch(games: seq<GameRecord>)
    requires forall k :: 0 <= k < |games| ==> MeetsCriteria(Some(games[k]))
    ensures MatchingGames(games) == games
    decreases |games|
  {
    if games != [] {
      var first, rest := games[0], games[1..];
      assert MeetsCriteria(Some(first));
      assert forall k :: 0 <= k < |rest| ==> MeetsCriteria(Some(rest[k])) by {
        forall k | 0 <= k < |rest| ensures rest[k] == games[k + 1] { }
      }
      MatchingGamesAllMatch(rest);
      assert MatchingGames(games) == [first] + MatchingGames(rest);
      assert games == [first] + rest;
    }
  }

  /** The figures shown in the three metric cards. */
  datatype Summary = Summary(totalGames: nat, matchingGames: seq<GameRecord>, matchCount: nat, percentage: real)

  /**
   * `total_games`, `matching_games`, `match_count` and `percentage`. The rate
   * is taken against every collected game, and is 0 when there are none.
   */
  function Analyze(games: seq<GameRecord>): (s: Summary)
    ensures s.totalGames == |games| && s.matchingGames == MatchingGames(games)
    ensures s.matchCount == |s.matchingGames| <= s.totalGames
    ensures 0.0 <= s.percentage <= 100.0
    ensures IsRate(s.percentage, s.matchCount, s.totalGames)
    ensures s.totalGames == 0 ==> s.percentage == 0.0
  {
    var matching := MatchingGames(games);
    Summary(|games|, matching, |matching|, Percentage(|matching|, |games|))
  }

  /** `p` percent of `total` is `count`. */
  predicate IsRate(p: real, count: nat, total: nat) {
    p * (total as real) == (count as real) * 100.0
  }

  /** `(count / total * 100) if total > 0 else 0`, computed exactly. */
  function Percentage(count: nat, total: nat): (p: real)
    requires count <= total
    ensures 0.0 <= p <= 100.0
    ensures IsRate(p, count, total)
    ensures total == 0 ==> p == 0.0
  {
    if total == 0 then 0.0
    else
      var q := (count as real) / (total as real);
      assert q * (total as real) == count as real;
      assert (q - 1.0) * (total as real) == (count as real) - (total as real) <= 0.0;
      q * 100.0
  }
}
