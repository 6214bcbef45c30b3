/**
 * The normalised game record that the normaliser produces and everything
 * downstream reads: the dictionary built in `extract_game_data` and spelled
 * out again in `get_sample_data`.
 */
module Records {

  /** One line of the linescore: the keys `inning`, `away_runs`, `home_runs`. */
  datatype Inning = Inning(number: int, awayRuns: int, homeRuns: int)

  /**
   * The `game_id` key: the feed's `gamePk`, the empty string the normaliser
   * stores when `gamePk` is absent, or no key at all (the fixed sample
   * records carry none).
   */
  datatype GameId = NoId | BlankId | Pk(pk: int)

  datatype GameRecord = GameRecord(
    date: string,
    gameId: GameId,
    awayTeam: string,
    homeTeam: string,
    awayScore: int,
    homeScore: int,
    innings: seq<Inning>)

  /** Runs both teams scored in one inning. */
  function InningRuns(inning: Inning): int {
    inning.awayRuns + inning.homeRuns
  }

  /**
   * `sum(i['away_runs'] + i['home_runs'] for i in innings)`. A linescore
   * without negative runs has a non-negative sum.
   */
  function SumRuns(innings: seq<Inning>): (r: int)
    ensures NonNegativeRuns(innings) ==> r >= 0
    decreases |innings|
  {
    if innings == [] then 0
    else
      assert NonNegativeRuns(innings) ==> NonNegativeRuns(innings[1..]) by {
        forall k | 0 <= k < |innings| - 1 ensures innings[1..][k] == innings[k + 1] { }
      }
      InningRuns(innings[0]) + SumRuns(innings[1..])
  }

  /** Summing runs distributes over concatenation of linescores. */
  lemma {:induction false} SumRunsAppend(a: seq<Inning>, b: seq<Inning>)
    ensures SumRuns(a + b) == SumRuns(a) + SumRuns(b)
    decreases |a|
  {
    if a == [] {
      assert a + b == b;
    } else {
      assert (a + b)[1..] == a[1..] + b;
      SumRunsAppend(a[1..], b);
    }
  }

  /** No inning of the linescore carries a negative run count. */
  predicate NonNegativeRuns(innings: seq<Inning>) {
    forall k :: 0 <= k < |innings| ==> innings[k].awayRuns >= 0 && innings[k].homeRuns >= 0
  }

  /**
   * The shape of every record the normaliser returns: at least one inning,
   * and the innings numbered 1, 2, ..., n in order.
   */
  predicate WellFormed(g: GameRecord) {
    |g.innings| > 0 &&
    forall k :: 0 <= k < |g.innings| ==> g.innings[k].number == k + 1
  }
}
