/**
 * `get_sample_data`: the fixed fallback corpus, two nine-inning games
 * repeated 25 times, which the analysis uses exactly as it would use
 * collected games.
 */
module Sample {
  import opened Base
  import opened Records
  import opened Criteria
  import opened Analysis

  /** Boston Red Sox at New York Yankees, 2024-05-15, final 5-3. */
  function RedSoxAtYankees(): GameRecord {
    GameRecord("2024-05-15", NoId, "Boston Red Sox", "New York Yankees", 5, 3,
               [Inning(1, 2, 1), Inning(2, 1, 2), Inning(3, 2, 0), Inning(4, 0, 0), Inning(5, 0, 0),
                Inning(6, 0, 0), Inning(7, 0, 0), Inning(8, 0, 0), Inning(9, 0, 0)])
  }

  /** Chicago Cubs at St. Louis Cardinals, 2024-06-22, final 4-4. */
  function CubsAtCardinals(): GameRecord {
    GameRecord("2024-06-22", NoId, "Chicago Cubs", "St. Louis Cardinals", 4, 4,
               [Inning(1, 2, 1), Inning(2, 1, 2), Inning(3, 1, 1), Inning(4, 0, 0), Inning(5, 0, 0),
                Inning(6, 0, 0), Inning(7, 0, 0), Inning(8, 0, 0), Inning(9, 0, 0)])
  }

  /** Python's `s * times`: `times` copies of `s`, one after the other. */
  function Repeat<T>(s: seq<T>, times: nat): (r: seq<T>)
    ensures |r| == |s| * times
  {
    if times == 0 then [] else s + Repeat(s, times - 1)
  }

  /** Position `q * |s| + j` of the repetition holds element `j` of `s`, for every copy `q`. */
  lemma {:induction false} RepeatAt<T>(s: seq<T>, times: nat, q: nat, j: nat)
    requires q < times && j < |s|
    ensures q * |s| + j < |Repeat(s, times)| && Repeat(s, times)[q * |s| + j] == s[j]
  {
    assert |s| * times == |s| + |s| * (times - 1);
    if q > 0 {
      RepeatAt(s, times - 1, q - 1, j);
      assert q * |s| + j == |s| + ((q - 1) * |s| + j);
    }
  }

  /** The two listed games, in the order they are listed. */
  function SampleGames(): seq<GameRecord> {
    [RedSoxAtYankees(), CubsAtCardinals()]
  }

  /** How many times the listed games are repeated. */
  const SampleCopies: nat := 25

  /** `get_sample_data()` */
  function SampleData(): (r: seq<GameRecord>)
    ensures |r| == 50
  {
    Repeat(SampleGames(), SampleCopies)
  }

  /** The sample alternates the two games, starting with Boston at New York. */
  lemma SampleDataAlternates(i: nat)
    requires i < |SampleData()|
    ensures SampleData()[i] == if i % 2 == 0 then RedSoxAtYankees() else CubsAtCardinals()
  {
    RepeatAt(SampleGames(), SampleCopies, i / 2, i % 2);
  }

  /** Both listed games have nine innings numbered 1..9. */
  lemma SampleGamesWellFormed()
    ensures forall k :: 0 <= k < |SampleGames()| ==> WellFormed(SampleGames()[k])
  {
  }

  /** 8 runs in the first five innings and 8 in the final score. */
  lemma RedSoxAtYankeesShape()
    ensures var g := RedSoxAtYankees();
            |g.innings| == 9 && FirstFiveRuns(g) == 8 && TotalRuns(g) == 8
  {
    assert FirstFiveRuns(RedSoxAtYankees()) == 8 by {
      FirstFiveRunsOfLongGame(RedSoxAtYankees());
    }
  }

  /** 8 runs in the first five innings and 8 in the final score. */
  lemma CubsAtCardinalsShape()
    ensures var g := CubsAtCardinals();
            |g.innings| == 9 && FirstFiveRuns(g) == 8 && TotalRuns(g) == 8
  {
    assert FirstFiveRuns(CubsAtCardinals()) == 8 by {
      FirstFiveRunsOfLongGame(CubsAtCardinals());
    }
  }

  /** Every one of the 50 sample records is well formed, has 8 and 8 runs, and meets Criteria X. */
  lemma SampleRecordsMatch(i: nat)
    requires i < |SampleData()|
    ensures var g := SampleData()[i];
            WellFormed(g) && |g.innings| == 9 && FirstFiveRuns(g) == 8 && TotalRuns(g) == 8 &&
            MeetsCriteria(Some(g))
  {
    SampleDataAlternates(i);
    var g := SampleData()[i];
    assert WellFormed(g) && |g.innings| == 9 by {
      SampleGamesWellFormed();
      assert g == SampleGames()[i % 2];
    }
    assert FirstFiveRuns(g) == 8 && TotalRuns(g) == 8 by {
      if i % 2 == 0 {
        RedSoxAtYankeesShape();
      } else {
        CubsAtCardinalsShape();
      }
    }
  }

  /** On the sample corpus all 50 games match: a 100% match rate. */
  lemma SampleAnalysis()
    ensures MatchingGames(SampleData()) == SampleData()
    ensures Analyze(SampleData()).matchCount == 50
    ensures Analyze(SampleData()).percentage == 100.0
  {
    forall k | 0 <= k < |SampleData()|
      ensures MeetsCriteria(Some(SampleData()[k]))
    {
      SampleRecordsMatch(k);
    }
    MatchingGamesAllMatch(SampleData());
    var s := Analyze(SampleData());
    assert IsRate(s.percentage, 50, 50);
  }
}
