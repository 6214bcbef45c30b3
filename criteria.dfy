/**
 * Criteria X, the only classification the program performs: at least 7 runs
 * in the first five innings and fewer than 9 runs in the final score.
 */
module Criteria {
  import opened Base
  import opened Records

  /** Least number of runs the first five innings must hold. */
  const FirstFiveMinimum: int := 7
  /** The final total must stay strictly below this. */
  const TotalBelow: int := 9

  /**
   * Combined runs over `innings[:5]`. A game with fewer than five innings
   * is summed as it is, not rejected.
   */
  function FirstFiveRuns(g: GameRecord): (r: int)
    ensures r == SumRuns(g.innings[..Min(5, |g.innings|)])
    ensures |g.innings| <= 5 ==> r == SumRuns(g.innings)
  {
    assert Take(g.innings, 5) == g.innings[..Min(5, |g.innings|)];
    SumRuns(Take(g.innings, 5))
  }

  /**
   * The first-five count is the whole linescore's runs less those from the
   * sixth inning on; for a game of at most five innings it is all of them,
   * and when no inning is negative it lies between 0 and the linescore total.
   */
  lemma FirstFiveRunsSplit(g: GameRecord)
    ensures FirstFiveRuns(g) == SumRuns(g.innings) - SumRuns(g.innings[Min(5, |g.innings|)..])
    ensures |g.innings| <= 5 ==> FirstFiveRuns(g) == SumRuns(g.innings)
    ensures NonNegativeRuns(g.innings) ==> 0 <= FirstFiveRuns(g) <= SumRuns(g.innings)
  {
    var first := Take(g.innings, 5);
    var later := g.innings[|first|..];
    assert g.innings == first + later;
    SumRunsAppend(first, later);
    if NonNegativeRuns(g.innings) {
      assert NonNegativeRuns(first) by {
        forall k | 0 <= k < |first| ensures first[k] == g.innings[k] { }
      }
      assert NonNegativeRuns(later) by {
        forall k | 0 <= k < |later| ensures later[k] == g.innings[|first| + k] { }
      }
    }
  }

  /** Runs from the declared final score, not re-summed from the linescore. */
  function TotalRuns(g: GameRecord): int {
    g.awayScore + g.homeScore
  }

  /** The total does not depend on the linescore: any innings give the same total. */
  lemma TotalIgnoresLinescore(g: GameRecord, innings: seq<Inning>)
    ensures TotalRuns(g.(innings := innings)) == TotalRuns(g)
  {
  }

  /**
   * `meets_criteria`: false for an absent record and for a record without
   * innings, whatever its scores; otherwise the two thresholds decide.
   */
  function MeetsCriteria(g: Option<GameRecord>): (b: bool)
    ensures g.None? ==> !b
    ensures g.Some? && g.value.innings == [] ==> !b
  {
    match g
    case None => false
    case Some(rec) =>
      rec.innings != [] && FirstFiveRuns(rec) >= FirstFiveMinimum && TotalRuns(rec) < TotalBelow
  }

  /**
   * For a record with innings the verdict is exactly the two thresholds,
   * and they are sharp: exactly 7 early runs is enough, 6 is not, and a
   * total of exactly 9 already fails.
   */
  lemma CriteriaBoundaries(g: GameRecord)
    requires g.innings != []
    ensures MeetsCriteria(Some(g)) <==> FirstFiveRuns(g) >= 7 && TotalRuns(g) < 9
    ensures FirstFiveRuns(g) == 7 && TotalRuns(g) == 8 ==> MeetsCriteria(Some(g))
    ensures FirstFiveRuns(g) == 6 ==> !MeetsCriteria(Some(g))
    ensures TotalRuns(g) == 9 ==> !MeetsCriteria(Some(g))
  {
  }

  /**
   * Innings after the fifth (extra innings included) never change the
   * first-five count, so they change the verdict only through the final score.
   */
  lemma LaterInningsIgnored(g: GameRecord, later: seq<Inning>)
    requires |g.innings| >= 5
    ensures FirstFiveRuns(g.(innings := g.innings + later)) == FirstFiveRuns(g)
    ensures MeetsCriteria(Some(g.(innings := g.innings + later))) == MeetsCriteria(Some(g))
  {
    var h := g.(innings := g.innings + later);
    assert Take(h.innings, 5) == Take(g.innings, 5);
  }

  /**
   * What a match means for a consistent linescore: when the declared score
   * equals the innings' runs and no inning is negative, a matching game has
   * at least 7 and at most 8 runs, and at most one of them after the fifth
   * inning.
   */
  lemma MatchLeavesAtMostOneLateRun(g: GameRecord)
    requires NonNegativeRuns(g.innings)
    requires TotalRuns(g) == SumRuns(g.innings)
    requires MeetsCriteria(Some(g))
    ensures 7 <= TotalRuns(g) <= 8
    ensures SumRuns(g.innings[Min(5, |g.innings|)..]) <= 1
  {
    FirstFiveRunsSplit(g);
  }

  /**
   * The classifier trusts the declared score: a record whose linescore adds
   * up to more than its final score still matches when the score is low.
   */
  lemma ScoreIsNotReconciled()
    ensures var g := GameRecord("2024-07-04", NoId, "A", "B", 4, 4,
                                [Inning(1, 5, 5)]);
            SumRuns(g.innings) == 10 && TotalRuns(g) == 8 && MeetsCriteria(Some(g))
  {
  }

  /** For a game of five innings or more, the first-five count is the runs of innings 1 to 5. */
  lemma FirstFiveRunsOfLongGame(g: GameRecord)
    requires |g.innings| >= 5
    ensures FirstFiveRuns(g) ==
            InningRuns(g.innings[0]) + InningRuns(g.innings[1]) + InningRuns(g.innings[2]) +
            InningRuns(g.innings[3]) + InningRuns(g.innings[4])
  {
    var first := Take(g.innings, 5);
    assert first[4..][1..] == [];
    assert first[3..][1..] == first[4..];
    assert first[2..][1..] == first[3..];
    assert first[1..][1..] == first[2..];
    assert SumRuns(first[4..]) == InningRuns(g.innings[4]);
    assert SumRuns(first[3..]) == InningRuns(g.innings[3]) + SumRuns(first[4..]);
    assert SumRuns(first[2..]) == InningRuns(g.innings[2]) + SumRuns(first[3..]);
    assert SumRuns(first[1..]) == InningRuns(g.innings[1]) + SumRuns(first[2..]);
  }

  /** A nine-inning game with combined runs 2,1,1,2,1,0,0,0,0 per inning and a final score of 5-3. */
  function SevenEarlyEightTotal(): GameRecord {
    GameRecord("2024-08-01", NoId, "A", "B", 5, 3,
               [Inning(1, 1, 1), Inning(2, 1, 0), Inning(3, 0, 1), Inning(4, 2, 0), Inning(5, 0, 1),
                Inning(6, 0, 0), Inning(7, 0, 0), Inning(8, 0, 0), Inning(9, 0, 0)])
  }

  /** That game has exactly 7 early runs and 8 in all, and matches. */
  lemma SevenEarlyEightTotalMatches()
    ensures FirstFiveRuns(SevenEarlyEightTotal()) == 7
    ensures TotalRuns(SevenEarlyEightTotal()) == 8
    ensures MeetsCriteria(Some(SevenEarlyEightTotal()))
  {
    assert FirstFiveRuns(SevenEarlyEightTotal()) == 7 by {
      FirstFiveRunsOfLongGame(SevenEarlyEightTotal());
    }
  }
}
