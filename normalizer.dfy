/**
 * `extract_game_data`: from one game object of the schedule feed (hydrated
 * with its linescore) to a normalised record, or to `None`.
 *
 * The feed object is modelled only through the keys the normaliser reads.
 * Keys whose value is an object are a `Field`: absent (`.get(key, {})` then
 * reads from `{}`), null (the next `.get` is called on `None` and raises,
 * which the `except` turns into `None`), or present. Keys whose value is a
 * number or a string are an `Option`: absent or present.
 */
module Normalizer {
  import opened Base
  import opened Records
  import opened Criteria

  datatype RawTeam = RawTeam(name: Option<string>)
  datatype RawSide = RawSide(team: Field<RawTeam>, score: Option<int>)
  datatype RawTeams = RawTeams(away: Field<RawSide>, home: Field<RawSide>)
  datatype RawHalf = RawHalf(runs: Field<int>)
  datatype RawInning = RawInning(away: Field<RawHalf>, home: Field<RawHalf>)
  datatype RawLinescore = RawLinescore(innings: Field<seq<RawInning>>)
  datatype RawGame = RawGame(
    gameDate: Option<string>,
    gamePk: Option<int>,
    teams: Field<RawTeams>,
    linescore: Field<RawLinescore>)

  /**
   * `game.get('linescore', {}).get('innings', [])`, or `None` when that
   * raises. A null innings value is given as the empty list: the two are
   * equally falsy for the `if not innings` test that follows.
   */
  function LinescoreInnings(game: RawGame): (r: Option<seq<RawInning>>)
    ensures r.None? <==> game.linescore.Null?
    ensures r.Some? && r.value != [] ==>
      game.linescore.Present? && game.linescore.value.innings == Present(r.value)
    ensures game.linescore.Present? && game.linescore.value.innings.Present? ==>
      r == Some(game.linescore.value.innings.value)
    ensures game.linescore.Missing? ==> r == Some([])
  {
    match game.linescore
    case Missing => Some([])
    case Null => None
    case Present(ls) =>
      match ls.innings
      case Present(innings) => Some(innings)
      case _ => Some([])
  }

  /** `game.get('teams', {}).get('away' or 'home', {})`, or `None` when that raises. */
  function SideOf(game: RawGame, away: bool): (r: Option<Field<RawSide>>)
    ensures r.None? <==> game.teams.Null?
    ensures game.teams.Missing? ==> r == Some(Missing)
    ensures game.teams.Present? ==>
      r == Some(if away then game.teams.value.away else game.teams.value.home)
  {
    match game.teams
    case Missing => Some(Missing)
    case Null => None
    case Present(teams) => Some(if away then teams.away else teams.home)
  }

  /**
   * `...get('team', {}).get('name', '')` on one side, or `None` when that
   * raises; any name other than "" is the one the payload records.
   */
  function TeamName(game: RawGame, away: bool): (r: Option<string>)
    ensures r.None? <==>
      game.teams.Null? || SideOf(game, away) == Some(Null) ||
      (SideOf(game, away).Some? && SideOf(game, away).value.Present? &&
       SideOf(game, away).value.value.team.Null?)
    ensures r.Some? && r.value != "" ==>
      SideOf(game, away).Some? && SideOf(game, away).value.Present? &&
      SideOf(game, away).value.value.team.Present? &&
      SideOf(game, away).value.value.team.value.name == Some(r.value)
    ensures (SideOf(game, away).Some? && SideOf(game, away).value.Present? &&
             SideOf(game, away).value.value.team.Present? &&
             SideOf(game, away).value.value.team.value.name.Some?) ==>
      r == SideOf(game, away).value.value.team.value.name
    ensures SideOf(game, away) == Some(Missing) ==> r == Some("")
  {
    match SideOf(game, away)
    case None => None
    case Some(Null) => None
    case Some(Missing) => Some("")
    case Some(Present(side)) =>
      match side.team
      case Missing => Some("")
      case Null => None
      case Present(team) => Some(team.name.GetOr(""))
  }

  /**
   * `...get('score', 0)` on one side, or `None` when that raises; any score
   * other than 0 is the one the payload records.
   */
  function TeamScore(game: RawGame, away: bool): (r: Option<int>)
    ensures r.None? <==> game.teams.Null? || SideOf(game, away) == Some(Null)
    ensures r.Some? && r.value != 0 ==>
      SideOf(game, away).Some? && SideOf(game, away).value.Present? &&
      SideOf(game, away).value.value.score == Some(r.value)
    ensures (SideOf(game, away).Some? && SideOf(game, away).value.Present? &&
             SideOf(game, away).value.value.score.Some?) ==>
      r == SideOf(game, away).value.value.score
    ensures SideOf(game, away) == Some(Missing) ==> r == Some(0)
  {
    match SideOf(game, away)
    case None => None
    case Some(Null) => None
    case Some(Missing) => Some(0)
    case Some(Present(side)) => Some(side.score.GetOr(0))
  }

  /**
   * `inning.get('away' or 'home', {}).get('runs', 0) or 0`: absent and null
   * runs both read as 0, so any other value is the recorded one. `None`
   * exactly when the half-inning object is null.
   */
  function HalfRuns(half: Field<RawHalf>): (r: Option<int>)
    ensures r.None? <==> half.Null?
    ensures r.Some? && r.value != 0 ==> half.Present? && half.value.runs == Present(r.value)
    ensures half.Present? && half.value.runs.Present? ==> r == Some(half.value.runs.value)
    ensures half.Missing? ==> r == Some(0)
  {
    match half
    case Missing => Some(0)
    case Null => None
    case Present(h) =>
      match h.runs
      case Present(n) => Some(n)
      case _ => Some(0)
  }

  /** `game.get('gamePk', '')`: the feed's id, or the blank default when it is absent. */
  function GameIdOf(game: RawGame): (r: GameId)
    ensures r != NoId
    ensures r.Pk? <==> game.gamePk.Some?
    ensures r.Pk? ==> game.gamePk == Some(r.pk)
  {
    match game.gamePk
    case Some(pk) => Pk(pk)
    case None => BlankId
  }

  /** Both half-innings of a linescore entry can be read. */
  predicate InningReadable(inning: RawInning) {
    HalfRuns(inning.away).Some? && HalfRuns(inning.home).Some?
  }

  /**
   * The normaliser returns a record exactly for these payloads: a non-empty
   * innings list, and no lookup on the way that lands on a null object.
   */
  predicate Normalizable(game: RawGame) {
    LinescoreInnings(game).Some? && LinescoreInnings(game).value != [] &&
    TeamName(game, true).Some? && TeamName(game, false).Some? &&
    TeamScore(game, true).Some? && TeamScore(game, false).Some? &&
    forall k :: 0 <= k < |LinescoreInnings(game).value| ==> InningReadable(LinescoreInnings(game).value[k])
  }

  /**
   * `extract_game_data`. On success the record has one inning per raw entry,
   * in the same order, numbered from 1, each with the raw runs (0 where they
   * are absent or null); absent scores read as 0 and absent names and date
   * as the empty string. Such a record is never turned away by the
   * classifier's empty-innings guard.
   */
  method ExtractGameData(game: RawGame) returns (r: Option<GameRecord>)
    ensures r.Some? <==> Normalizable(game)
    ensures LinescoreInnings(game).None? || LinescoreInnings(game) == Some([]) ==> r.None?
    ensures r.Some? ==> WellFormed(r.value)
    ensures r.Some? ==>
      var raw := LinescoreInnings(game).value;
      |r.value.innings| == |raw| &&
      forall k :: 0 <= k < |raw| ==>
        Some(r.value.innings[k].awayRuns) == HalfRuns(raw[k].away) &&
        Some(r.value.innings[k].homeRuns) == HalfRuns(raw[k].home)
    ensures r.Some? ==>
      r.value.date == game.gameDate.GetOr("") && r.value.gameId == GameIdOf(game) &&
      Some(r.value.awayTeam) == TeamName(game, true) && Some(r.value.homeTeam) == TeamName(game, false) &&
      Some(r.value.awayScore) == TeamScore(game, true) && Some(r.value.homeScore) == TeamScore(game, false)
    ensures r.Some? ==>
      (MeetsCriteria(r) <==> FirstFiveRuns(r.value) >= FirstFiveMinimum && TotalRuns(r.value) < TotalBelow)
  {
    var found := LinescoreInnings(game);
    if found.None? || found.value == [] {
      return None;
    }
    var innings := found.value;
    var awayTeam, homeTeam := TeamName(game, true), TeamName(game, false);
    var awayScore, homeScore := TeamScore(game, true), TeamScore(game, false);
    if awayTeam.None? || homeTeam.None? || awayScore.None? || homeScore.None? {
      return None;
    }
    var lines: seq<Inning> := [];
    for i := 0 to |innings|
      invariant |lines| == i
      invariant forall k :: 0 <= k < i ==>
        InningReadable(innings[k]) &&
        lines[k] == Inning(k + 1, HalfRuns(innings[k].away).value, HalfRuns(innings[k].home).value)
    {
      var awayRuns, homeRuns := HalfRuns(innings[i].away), HalfRuns(innings[i].home);
      if awayRuns.None? || homeRuns.None? {
        assert !InningReadable(innings[i]);
        return None;
      }
      lines := lines + [Inning(i + 1, awayRuns.value, homeRuns.value)];
    }
    r := Some(GameRecord(game.gameDate.GetOr(""), GameIdOf(game), awayTeam.value, homeTeam.value,
                         awayScore.value, homeScore.value, lines));
  }
}
