/**
 * The producer behind `getCachedTeamsData`: the same fetch and mapping as
 * the teams route, shaped as `{ data, error }`, plus the cache settings it
 * is registered with.
 */
module TeamsCache {
  import opened Wrappers
  import opened Types
  import opened TeamMapping
  import TeamsRoute

  /** The cache key parts, the revalidation period in seconds and the tags. */
  const CacheKeyParts: seq<string> := ["nba-teams"]
  const RevalidateSeconds: nat := 3600
  const CacheTags: seq<string> := ["teams"]

  datatype TeamsData = TeamsData(data: seq<Team>, error: Option<string>)

  function FetchTeamsData(sdk: SdkResult): (r: TeamsData)
    ensures r.error.None? <==> sdk.Fetched?
    ensures sdk.Fetched? ==> r.data == MapTeams(sdk.teams)
    ensures sdk.Threw? ==> r.data == [] && r.error == Some(MessageOf(sdk.thrown))
    ensures sdk == Threw(OtherValue) ==> r.error == Some(DefaultFetchMessage)
  {
    match sdk
    case Fetched(teams) => TeamsData(MapTeams(teams), None)
    case Threw(thrown) => TeamsData([], Some(MessageOf(thrown)))
  }

  /**
   * The route and the cached fetcher agree: same teams, failure in the same
   * cases, and for a failure that is not a rate limit the same message.
   */
  lemma RouteAgreesWithFetcher(sdk: SdkResult, now: string)
    ensures TeamsRoute.Get(sdk, now).data == FetchTeamsData(sdk).data
    ensures TeamsRoute.Get(sdk, now).error.None? <==> FetchTeamsData(sdk).error.None?
    ensures sdk.Threw? && TeamsRoute.Get(sdk, now).status == 500 ==>
      Some(TeamsRoute.Get(sdk, now).error.value.message) == FetchTeamsData(sdk).error
  {
  }
}
