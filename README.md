# Baseball Criteria Analyzer — verified model of the classification core

The analyzer is a Streamlit page that collects final MLB games (from the
MLB Stats API schedule endpoint, or from a fixed sample), keeps the games
that meet **Criteria X** — at least 7 runs in the first five innings and
fewer than 9 runs in the final score — and shows the count, the match rate
and a downloadable table of the matching games.

This project models the logic underneath that page, in
`streamlit_baseball_app.py`:

- `normalizer.dfy` — `extract_game_data`: a schedule-feed game object (only
  the keys it reads; object-valued keys can be absent, null or present) is
  turned into a normalised record or `None`. The method builds the inning
  list with a loop, as the source does, and states when it yields `None`,
  that the innings come out in order numbered 1..n, that absent or null runs
  read as 0 and that absent scores, names and date take their defaults.
- `records.dfy` — the normalised record, the run sum of Python's
  `sum(...)`, and the well-formedness every normalised record has.
- `criteria.dfy` — `meets_criteria`: the first-five count over
  `innings[:5]` (fewer innings are summed, not rejected), the total from the
  declared score, and the two sharp thresholds.
- `analysis.dfy` — the list comprehension that keeps the matching games,
  their count and the match rate against the number of collected games.
- `export.dfy` — the loop that builds the rows of the download table.
- `sample.dfy` — `get_sample_data`: two nine-inning games repeated 25 times,
  every one of which meets Criteria X.
- `base.dfy` — `Option`, the absent/null/present `Field` of a JSON object,
  and Python's `s[:n]`.

The program has a single criterion, Criteria X, with the literal thresholds
7 and 9 (`streamlit_baseball_app.py:145`), and the model has the same one.
Every game counted in `total_games` has innings: `get_season_games` appends
only the records `extract_game_data` returned, every sample record has nine
innings, and `ExtractGameData` ensures that each record it returns is
`WellFormed` (at least one inning, numbered from 1).

## Model

| member | source | states |
|---|---|---|
| `Base.Take` | streamlit_baseball_app.py:142 | Python's `s[:n]` has `min(n, len(s))` elements and is a prefix of `s` |
| `Records.SumRunsAppend` | streamlit_baseball_app.py:141-142 | the combined-runs sum of a linescore splits over any cut of it |
| `Records.SumRuns` | streamlit_baseball_app.py:141-142 | the generator `sum` of combined runs; a linescore without negative runs has a non-negative sum |
| `Criteria.FirstFiveRuns` | streamlit_baseball_app.py:141-142 | the first-five count is the run sum of the first `min(5, n)` innings; a game of at most five innings is summed whole, not rejected |
| `Criteria.TotalIgnoresLinescore` | streamlit_baseball_app.py:143 | the total is read from the declared score only: replacing a record's innings by any others leaves it unchanged |
| `Criteria.FirstFiveRunsSplit` | streamlit_baseball_app.py:141-142 | first-five runs are the linescore's runs less those from the sixth inning on; a game of at most five innings is summed whole; with non-negative runs the count lies between 0 and the linescore total |
| `Criteria.FirstFiveRunsOfLongGame` | streamlit_baseball_app.py:141-142 | for five innings or more, first-five runs are exactly the combined runs of innings 1 to 5 |
| `Criteria.MeetsCriteria` | streamlit_baseball_app.py:136-139 | an absent record and a record with no innings never match, whatever the scores |
| `Criteria.CriteriaBoundaries` | streamlit_baseball_app.py:141-145 | with innings, a game matches iff first-five runs >= 7 and declared total < 9; 7 early runs with 8 in all match, 6 early runs never do, a total of 9 never does |
| `Criteria.LaterInningsIgnored` | streamlit_baseball_app.py:141-145 | innings after the fifth change neither the first-five count nor the verdict |
| `Criteria.MatchLeavesAtMostOneLateRun` | streamlit_baseball_app.py:141-145 | when the score agrees with a non-negative linescore, a match has 7 or 8 runs in all and at most one after the fifth inning |
| `Criteria.ScoreIsNotReconciled` | streamlit_baseball_app.py:143-145 | the total comes from the declared score: a record whose linescore sums to 10 but whose score is 4-4 matches |
| `Criteria.SevenEarlyEightTotalMatches` | streamlit_baseball_app.py:141-145 | combined runs 2,1,1,2,1,0,0,0,0 with a 5-3 final give 7 early and 8 total runs, and match |
| `Analysis.MatchingGames` | streamlit_baseball_app.py:238 | the kept games are games of the input that match, every matching game is kept, and there are no more of them than games |
| `Analysis.MatchingGamesIsSubsequence` | streamlit_baseball_app.py:238 | the kept games are a subsequence of the collected games: their order is preserved |
| `Analysis.MatchingGamesAppend` | streamlit_baseball_app.py:238 | filtering two runs of games one after the other gives the two filtered runs one after the other |
| `Analysis.MatchingGamesMultiplicity` | streamlit_baseball_app.py:238 | each matching game is kept as many times as it occurs; a non-matching game never appears |
| `Analysis.MatchingGamesIdempotent` | streamlit_baseball_app.py:238 | filtering the matching games again changes nothing |
| `Analysis.MatchingGamesAllMatch` | streamlit_baseball_app.py:238 | when every game matches, all games are kept |
| `Analysis.Analyze` | streamlit_baseball_app.py:237-240 | total is the number of games, the match count is the length of the filtered list and at most the total, the rate is between 0 and 100, rate times total equals count times 100, and the rate is 0 when there are no games |
| `Analysis.Percentage` | streamlit_baseball_app.py:240 | the guarded `count / total * 100` lies in [0, 100], equals count·100/total, and is 0 for a zero total |
| `Export.BuildDownloadRows` | streamlit_baseball_app.py:358-370 | one row per game, in order; each row's date is the first (up to) ten characters of the game's date, teams and scores are copied, the first-five column is the classifier's count and Total Runs is Away Score + Home Score; when every game matches, every row has first-five >= 7 and total < 9 |
| `Normalizer.LinescoreInnings` | streamlit_baseball_app.py:107-108 | reading the innings raises exactly when the linescore is null; a present innings list is returned as it is, an absent linescore reads as the empty list, and a non-empty result is always the payload's own list |
| `Normalizer.SideOf` | streamlit_baseball_app.py:116-119 | reading a side raises exactly when `teams` is null; a present `teams` gives its away or home entry as recorded, an absent one an absent side |
| `Normalizer.TeamName` | streamlit_baseball_app.py:116-117 | the name lookup raises exactly when `teams`, the side or its `team` object is null; a recorded name is returned as it is, an absent side gives "", and a non-empty result is always the recorded name |
| `Normalizer.TeamScore` | streamlit_baseball_app.py:118-119 | the score lookup raises exactly when `teams` or the side is null; a recorded score is returned as it is, an absent side gives 0, and a non-zero result is always the recorded score |
| `Normalizer.HalfRuns` | streamlit_baseball_app.py:126-127 | the runs lookup raises exactly when the half-inning object is null; recorded runs are returned as they are, an absent half-inning gives 0, and a non-zero result is always the recorded runs, so absent and null runs read as 0 |
| `Normalizer.GameIdOf` | streamlit_baseball_app.py:115 | the id is the feed's `gamePk` when present and the blank default otherwise |
| `Normalizer.ExtractGameData` | streamlit_baseball_app.py:104-134 | yields a record exactly when the innings list is non-empty and no lookup lands on a null object (so a missing or empty innings list gives `None`); the record has one inning per raw entry, in order, numbered 1..n, with the raw runs or 0 when absent or null; scores default to 0, names and date to ""; an extracted record is judged by the two thresholds alone |
| `Sample.Repeat` | streamlit_baseball_app.py:186 | `list * k` has `k` times the length of `list` |
| `Sample.RepeatAt` | streamlit_baseball_app.py:186 | position `q·len + j` of `list * k` holds element `j` of the list, for every copy `q` |
| `Sample.SampleData` | streamlit_baseball_app.py:147-186 | the sample holds 50 records |
| `Sample.SampleDataAlternates` | streamlit_baseball_app.py:149-186 | even positions hold the Red Sox at Yankees game, odd positions the Cubs at Cardinals game |
| `Sample.SampleGamesWellFormed` | streamlit_baseball_app.py:156-183 | both listed games have innings numbered 1..9 |
| `Sample.RedSoxAtYankeesShape` | streamlit_baseball_app.py:150-167 | nine innings, 8 runs in the first five, 8 in the final score |
| `Sample.CubsAtCardinalsShape` | streamlit_baseball_app.py:168-185 | nine innings, 8 runs in the first five, 8 in the final score |
| `Sample.SampleRecordsMatch` | streamlit_baseball_app.py:145-186 | every sample record is well formed, has 9 innings, 8 early and 8 total runs, and meets Criteria X |
| `Sample.SampleAnalysis` | streamlit_baseball_app.py:237-240 | on the sample, all 50 games are kept and the match rate is exactly 100 |

## Left out

- `get_season_games` (HTTP requests to the MLB Stats API, the date-stepping loop, `time.sleep`, progress widgets, caching): network and clock I/O; the model starts from the list of records it would return.
- All Streamlit rendering in `main`: page configuration, CSS, sidebar controls, metric cards, the "Sample Matching Games" expanders (which recompute the same first-five and total counts for display), dataframes and the download button.
- The Plotly pie and bar charts and the pandas `DataFrame`/`to_csv` serialisation: foreign library calls; the download table is modelled as a sequence of rows, not CSV text.
- The `if not games` early return and the `if matching_games` guards around the charts and the download section: they only decide what is rendered.
- Analysis.Analyze: the match rate is an exact real number, not Python's floating-point quotient, and its `:.1f` display formatting is not modelled.
- Analysis.Percentage: computes that exact real rate; floating-point rounding of `count / total * 100` is not modelled.
- Normalizer.ExtractGameData: a score, team name or date key that is present with the value `null`, a value of the wrong type (a string where a number is expected, a list element that is not an object) and other exceptions such values would raise are not modelled; number- and string-valued keys are only absent or present.
