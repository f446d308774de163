/**
 * `GET /api/teams`: fetch the team list through the SDK, answer 200 with
 * the mapped teams and a `meta` block, or classify the failure as a
 * rate-limit error (429) or a fetch error (500).
 */
module TeamsRoute {
  import opened Wrappers
  import opened Types
  import opened Text
  import opened TeamMapping

  const RateLimitMessage := "API rate limit exceeded. Please wait a few moments and refresh the page."
  const RateLimitCode := "RATE_LIMIT_ERROR"
  const FetchErrorCode := "FETCH_ERROR"

  datatype ApiError = ApiError(message: string, code: string, status: int)

  /** `timestamp` is the clock reading the handler was given. */
  datatype Meta = Meta(total: int, timestamp: string)

  /** The HTTP status and the JSON envelope `{ data, meta?, error? }`. */
  datatype Response = Response(status: int, data: seq<Team>, meta: Option<Meta>, error: Option<ApiError>)

  /** The lower-cased message mentions "rate limit" or "429". */
  function IsRateLimitError(message: string): (r: bool)
    ensures r <==> exists i :: OccursAt(Lower(message), "rate limit", i) || OccursAt(Lower(message), "429", i)
  {
    Includes(Lower(message), "rate limit") || Includes(Lower(message), "429")
  }

  /** The envelope for a caught value. */
  function ErrorResponse(thrown: Thrown): (r: Response)
    ensures r.data == [] && r.meta.None? && r.error.Some?
    ensures r.error.value.status == r.status
    ensures IsRateLimitError(MessageOf(thrown)) ==>
      r.status == 429 && r.error.value == ApiError(RateLimitMessage, RateLimitCode, 429)
    ensures !IsRateLimitError(MessageOf(thrown)) ==>
      r.status == 500 && r.error.value == ApiError(MessageOf(thrown), FetchErrorCode, 500)
  {
    var errorMessage := MessageOf(thrown);
    var isRateLimit := IsRateLimitError(errorMessage);
    Response(
      if isRateLimit then 429 else 500,
      [],
      None,
      Some(ApiError(
        if isRateLimit then RateLimitMessage else errorMessage,
        if isRateLimit then RateLimitCode else FetchErrorCode,
        if isRateLimit then 429 else 500)))
  }

  /** The handler, given the SDK outcome and the current time. */
  function Get(sdk: SdkResult, now: string): (r: Response)
    ensures r.error.None? <==> sdk.Fetched?
    ensures sdk.Fetched? ==>
      && r.status == 200
      && r.data == MapTeams(sdk.teams)
      && r.meta == Some(Meta(|r.data|, now))
    ensures sdk.Threw? ==> r == ErrorResponse(sdk.thrown)
  {
    match sdk
    case Fetched(teams) =>
      var mapped := MapTeams(teams);
      Response(200, mapped, Some(Meta(|mapped|, now)), None)
    case Threw(thrown) => ErrorResponse(thrown)
  }

  /** A failed fetch answers 429 exactly when its message reads as a rate limit, 500 otherwise. */
  lemma ErrorStatusClassification(thrown: Thrown, now: string)
    ensures var r := Get(Threw(thrown), now);
      && (r.status == 429 <==> IsRateLimitError(MessageOf(thrown)))
      && (r.status == 500 <==> !IsRateLimitError(MessageOf(thrown)))
      && (r.error.value.code == RateLimitCode <==> r.status == 429)
  {
  }

  /** A message without the digit 4 does not mention 429, in any case. */
  lemma No429Without4(message: string)
    requires '4' !in message
    ensures !Includes(Lower(message), "429")
  {
    var lowered := Lower(message);
    forall i | 0 <= i && i + 3 <= |lowered|
      ensures !OccursAt(lowered, "429", i)
    {
      assert lowered[i..i + 3][0] == lowered[i] == LowerChar(message[i]);
      assert message[i] in message;
    }
  }

  /** A message in which no 'r' is followed by an 'a' (in any case) does not mention "rate limit". */
  lemma NoRateLimitWithoutRa(message: string)
    requires forall j | 0 <= j < |message| - 1 ::
      !(LowerChar(message[j]) == 'r' && LowerChar(message[j + 1]) == 'a')
    ensures !Includes(Lower(message), "rate limit")
  {
    var lowered := Lower(message);
    forall i | 0 <= i && i + 10 <= |lowered|
      ensures !OccursAt(lowered, "rate limit", i)
    {
      assert lowered[i..i + 10][0] == lowered[i] && lowered[i..i + 10][1] == lowered[i + 1];
    }
  }

  /** In the default message no 'r' is followed by an 'a'. */
  lemma DefaultMessageHasNoRa(j: int)
    requires 0 <= j < |DefaultFetchMessage| - 1
    ensures !(LowerChar(DefaultFetchMessage[j]) == 'r' && LowerChar(DefaultFetchMessage[j + 1]) == 'a')
  {
  }

  /** A thrown value that is not an `Error` becomes a 500 with the default message. */
  lemma NonErrorThrowIsFetchError(now: string)
    ensures Get(Threw(OtherValue), now) ==
      Response(500, [], None, Some(ApiError(DefaultFetchMessage, FetchErrorCode, 500)))
  {
    assert '4' !in DefaultFetchMessage;
    No429Without4(DefaultFetchMessage);
    forall j | 0 <= j < |DefaultFetchMessage| - 1
      ensures !(LowerChar(DefaultFetchMessage[j]) == 'r' && LowerChar(DefaultFetchMessage[j + 1]) == 'a')
    {
      DefaultMessageHasNoRa(j);
    }
    NoRateLimitWithoutRa(DefaultFetchMessage);
  }

  /** The check ignores letter case. */
  lemma RateLimitIgnoresCase(message: string)
    ensures IsRateLimitError(Lower(message)) == IsRateLimitError(message)
  {
    LowerIsIdempotent(message);
  }

  /** Messages that mention the limit in any case, or the 429 status, are rate-limit errors. */
  lemma RateLimitExamples()
    ensures IsRateLimitError("Rate Limit exceeded")
    ensures IsRateLimitError("Request failed with status code 429")
  {
    assert OccursAt(Lower("Rate Limit exceeded"), "rate limit", 0);
    assert OccursAt(Lower("Request failed with status code 429"), "429", 32);
  }
}
