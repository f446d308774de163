/** The record shapes of the application that the core reads or builds. */
module Types {
  import opened Wrappers

  /** A team as the application presents it; `full_name` is optional. */
  datatype Team = Team(
    id: int,
    name: string,
    city: string,
    abbreviation: string,
    conference: string,
    division: string,
    fullName: Option<string>)

  /**
   * The game embedded in a stat line. `date` is the game date as a comparable
   * key (the instant `new Date(date).getTime()` denotes); a score of `None`
   * is a missing (`null`) score.
   */
  datatype StatGame = StatGame(
    id: int,
    date: int,
    season: int,
    status: string,
    homeTeamScore: Option<int>,
    visitorTeamScore: Option<int>)

  /** One player-game stat line; `None` is a `null` counting stat. */
  datatype Stats = Stats(
    id: int,
    pts: Option<int>,
    reb: Option<int>,
    ast: Option<int>,
    game: StatGame)
}
