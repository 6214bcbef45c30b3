/** The rows of the "Download Matching Games" table, one per matching game. */
module Export {
  import opened Base
  import opened Records
  import opened Criteria

  /** The columns Date, Away Team, Home Team, Away Score, Home Score, First 5 Innings Runs, Total Runs. */
  datatype DownloadRow = DownloadRow(
    date: string,
    awayTeam: string,
    homeTeam: string,
    awayScore: int,
    homeScore: int,
    firstFiveRuns: int,
    totalRuns: int)

  /**
   * `row` describes `g`: the calendar day (the first ten characters of the
   * timestamp, or all of a shorter one), the teams and scores as recorded,
   * the classifier's first-five count and the two scores added up.
   */
  predicate Describes(row: DownloadRow, g: GameRecord) {
    |row.date| == Min(10, |g.date|) && row.date <= g.date &&
    row.awayTeam == g.awayTeam && row.homeTeam == g.homeTeam &&
    row.awayScore == g.awayScore && row.homeScore == g.homeScore &&
    row.firstFiveRuns == FirstFiveRuns(g) &&
    row.totalRuns == row.awayScore + row.homeScore
  }

  /**
   * The loop that fills `download_data`: one row per game, in order. When
   * every game given matches Criteria X, so does every row's pair of counts.
   */
  method BuildDownloadRows(matching: seq<GameRecord>) returns (rows: seq<DownloadRow>)
    ensures |rows| == |matching|
    ensures forall i :: 0 <= i < |rows| ==> Describes(rows[i], matching[i])
    ensures (forall i :: 0 <= i < |matching| ==> MeetsCriteria(Some(matching[i]))) ==>
      forall i :: 0 <= i < |rows| ==>
        rows[i].firstFiveRuns >= FirstFiveMinimum && rows[i].totalRuns < TotalBelow
  {
    rows := [];
    for i := 0 to |matching|
      invariant |rows| == i
      invariant forall k :: 0 <= k < i ==> Describes(rows[k], matching[k])
    {
      var game := matching[i];
      var runsFirstFive := FirstFiveRuns(game);
      rows := rows + [DownloadRow(Take(game.date, 10), game.awayTeam, game.homeTeam,
                                  game.awayScore, game.homeScore, runsFirstFive,
                                  game.awayScore + game.homeScore)];
    }
  }
}
