/**
 * What the sports-data SDK hands back for the team list, and the
 * field-by-field conversion of its team records into the application's
 * `Team`, shared by the teams route and the cached teams fetcher.
 */
module TeamMapping {
  import opened Wrappers
  import opened Types

  /** A team record as the SDK returns it. */
  datatype SdkTeam = SdkTeam(
    id: int,
    conference: string,
    division: string,
    city: string,
    name: string,
    fullName: string,
    abbreviation: string)

  /** A value caught by `catch`: an `Error` (with its message) or anything else. */
  datatype Thrown = ErrorValue(message: string) | OtherValue

  /** The outcome of `api.nba.getTeams({})`: the team list, or a thrown value. */
  datatype SdkResult = Fetched(teams: seq<SdkTeam>) | Threw(thrown: Thrown)

  const DefaultFetchMessage := "Failed to fetch teams from BallDontLie API"

  /** The message used for a caught value: an `Error`'s own, otherwise the default. */
  function MessageOf(thrown: Thrown): (r: string)
    ensures thrown.ErrorValue? ==> r == thrown.message
    ensures thrown.OtherValue? ==> r == DefaultFetchMessage
  {
    match thrown
    case ErrorValue(message) => message
    case OtherValue => DefaultFetchMessage
  }

  /** `team` carries exactly the listed fields of `sdk`, unchanged. */
  predicate CopiesFields(sdk: SdkTeam, team: Team)
  {
    && team.id == sdk.id
    && team.conference == sdk.conference
    && team.division == sdk.division
    && team.city == sdk.city
    && team.name == sdk.name
    && team.fullName == Some(sdk.fullName)
    && team.abbreviation == sdk.abbreviation
  }

  function ToTeam(sdk: SdkTeam): Team
  {
    Team(sdk.id, sdk.name, sdk.city, sdk.abbreviation, sdk.conference, sdk.division, Some(sdk.fullName))
  }

  /** `response.data.map(team => ({ id, conference, ... }))`. */
  function MapTeams(teams: seq<SdkTeam>): (r: seq<Team>)
    ensures |r| == |teams|
    ensures forall i :: 0 <= i < |teams| ==> CopiesFields(teams[i], r[i])
  {
    if teams == [] then [] else [ToTeam(teams[0])] + MapTeams(teams[1..])
  }

  /** Mapping distributes over concatenation, so it keeps the order of the records. */
  lemma {:induction false} MapTeamsAppend(a: seq<SdkTeam>, b: seq<SdkTeam>)
    ensures MapTeams(a + b) == MapTeams(a) + MapTeams(b)
  {
    if a != [] {
      assert (a + b)[1..] == a[1..] + b;
      MapTeamsAppend(a[1..], b);
    }
  }
}
