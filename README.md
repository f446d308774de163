# game2ez core logic in Dafny

game2ez is a Next.js application that shows NBA teams, players and games
from the BallDontLie sports-data API. Most of it is presentation. This
project models the parts that make decisions:

- **Favorites slice** (`Favorites`): a list of favourite team ids. Its
  reducers are `toggleFavorite`, `addFavorite`, `removeFavorite` and
  `initializeFavorites`, and its selector is `selectIsFavorite`. The model
  is a class `FavoritesStore`. The `favorites` storage slot is a ghost
  field `persisted`. Whether `window` exists is the constant `inBrowser`.
  Each method is tied to a specification function on the id list
  (`Toggled`, `Added`, `Removed`, `Initialized`), and the lemmas prove the
  list properties on those functions.
- **Theme slice** (`Theme`): the two-state `light`/`dark` machine. It has
  `toggleTheme`, `setTheme` and `initializeTheme`, with the `theme`
  storage slot as a ghost field.
- **Teams route** (`TeamsRoute`, with `TeamMapping`): `GET /api/teams`.
  It maps SDK team records to `Team` and answers 200 with `meta.total`.
  A failure becomes a 429 `RATE_LIMIT_ERROR` or a 500 `FETCH_ERROR`.
- **Cached teams fetcher** (`TeamsCache`): the producer inside
  `getCachedTeamsData`, which returns `{data, error}`. Its cache settings
  are the constants `CacheKeyParts = ["nba-teams"]`,
  `RevalidateSeconds = 3600` and `CacheTags = ["teams"]`.
- **Recent games card** (`RecentGames`): a stable newest-first sort of the
  stat lines, then `slice(0, limit)`. Also `getGameResult` and the
  `hasStats` test. `getGameResult` treats a game whose status is `Final`
  as a home game. The model keeps that rule exactly as the code has it.
- **Stats summary cards** (`PlayerStatsSummary`): `calculateAverageAndTrend`
  is a method. It runs the same if/else chain on local `trend` and
  `trendValue` and is proved against the predicate `Summarizes`.
  Arithmetic is exact (`real`). A zero previous average gives JavaScript's
  Infinity or NaN, which the model represents with the small
  `JsNumber` datatype instead of excluding that case.

Shared modules: `Wrappers` (`Option`), `Types` (the `Team` and `Stats`
records), `Text` (ASCII lower-casing, `includes` and decimal rendering).

Inputs the code gets from outside are parameters:

- the SDK outcome is `TeamMapping.SdkResult`: a team list, or a thrown
  value that is either an `Error` with a message or something else;
- the clock reading for `meta.timestamp` is the `now` argument;
- what `localStorage.getItem` plus `JSON.parse` produced is an argument:
  `Favorites.StoredFavorites` for favorites, `Option<string>` for the theme.

Three points about the code that the model keeps as they are:

- the route classifies a failure by its message only ("rate limit" or
  "429", any case); there is no not-found or missing-credential class;
- `addFavorite` writes storage only when it changed the list;
- expiry after the revalidation period and tag invalidation belong to the
  framework's `unstable_cache`, not to code of this repository.

## Model

| member | source | states |
|---|---|---|
| `Favorites.IndexOf` | lib/store/features/favorites/favoritesSlice.ts:35 | -1 exactly when the id is absent; otherwise a position holding the id, with no earlier occurrence |
| `Favorites.Toggled` | lib/store/features/favorites/favoritesSlice.ts:35-40 | an absent id is appended at the end; a present id loses exactly one occurrence, the first, and the multiset loses one copy |
| `Favorites.ToggleFlipsMembership` | lib/store/features/favorites/favoritesSlice.ts:35-40 | on a list without duplicates, the id is present after the toggle iff it was absent before |
| `Favorites.ToggleLeavesOthers` | lib/store/features/favorites/favoritesSlice.ts:35-40 | toggling never changes whether any other id is present |
| `Favorites.ToggleKeepsNoDuplicates` | lib/store/features/favorites/favoritesSlice.ts:35-40 | toggling keeps a list free of duplicates |
| `Favorites.ToggleTwiceKeepsFavorites` | lib/store/features/favorites/favoritesSlice.ts:35-40 | toggling the same id twice gives back the same collection of ids; for an absent id, the very same list |
| `Favorites.Added` | lib/store/features/favorites/favoritesSlice.ts:45-53 | the id is present afterwards, the old list is a prefix of the new one, and the list grows by one exactly when the id was absent |
| `Favorites.AddIsIdempotent` | lib/store/features/favorites/favoritesSlice.ts:47 | adding the same id twice is the same as adding it once |
| `Favorites.AddKeepsNoDuplicates` | lib/store/features/favorites/favoritesSlice.ts:47-48 | adding keeps a list free of duplicates |
| `Favorites.Removed` | lib/store/features/favorites/favoritesSlice.ts:56 | no occurrence of the id is left, and every other id keeps its number of occurrences |
| `Favorites.RemovedAppend` | lib/store/features/favorites/favoritesSlice.ts:56 | removal distributes over concatenation, so the remaining ids keep their order |
| `Favorites.RemovedAbsent` | lib/store/features/favorites/favoritesSlice.ts:56 | removing an absent id leaves the list unchanged |
| `Favorites.RemoveKeepsNoDuplicates` | lib/store/features/favorites/favoritesSlice.ts:56 | removing keeps a list free of duplicates |
| `Favorites.Initialized` | lib/store/features/favorites/favoritesSlice.ts:61-75 | the stored list replaces the state only when it parsed to an array; missing, unparsable and non-array values keep the state |
| `Favorites.FavoritesStore.constructor` | lib/store/features/favorites/favoritesSlice.ts:25-27 | the initial list is empty |
| `Favorites.FavoritesStore.IsFavorite` | lib/store/features/favorites/favoritesSlice.ts:88-89 | true exactly when `indexOf` finds the id in the current list |
| `Favorites.FavoritesStore.ToggleFavorite` | lib/store/features/favorites/favoritesSlice.ts:33-44 | the new list is `Toggled` of the old one; in a browser the slot then holds the new list, otherwise it is untouched |
| `Favorites.FavoritesStore.AddFavorite` | lib/store/features/favorites/favoritesSlice.ts:45-53 | the new list is `Added` of the old one; the slot is written only in a browser and only when the id was absent |
| `Favorites.FavoritesStore.RemoveFavorite` | lib/store/features/favorites/favoritesSlice.ts:54-60 | the new list is `Removed` of the old one; in a browser the slot then holds the new list |
| `Favorites.FavoritesStore.InitializeFavorites` | lib/store/features/favorites/favoritesSlice.ts:61-75 | in a browser the list becomes `Initialized` of the old one and the stored value; outside a browser nothing changes; the slot is never written |
| `Theme.ParseMode` | lib/store/features/theme/themeSlice.ts:37-40 | a stored value is adopted iff it is exactly "light" or "dark", and then it is the name of the adopted mode |
| `Theme.ModeName` | lib/store/features/theme/themeSlice.ts:24 | the stored string is "light" or "dark", and it is "dark" exactly for the dark mode |
| `Theme.Opposite` | lib/store/features/theme/themeSlice.ts:21 | toggling always changes the mode |
| `Theme.ToggleTwiceRestores` | lib/store/features/theme/themeSlice.ts:21 | toggling twice restores the mode |
| `Theme.PersistedModeRoundTrip` | lib/store/features/theme/themeSlice.ts:24-40 | the string written for a mode reads back as that mode |
| `Theme.ThemeStore.constructor` | lib/store/features/theme/themeSlice.ts:12-14 | the initial mode is dark |
| `Theme.ThemeStore.ToggleTheme` | lib/store/features/theme/themeSlice.ts:20-26 | the mode becomes the opposite one; in a browser the slot holds the new mode's name |
| `Theme.ThemeStore.SetTheme` | lib/store/features/theme/themeSlice.ts:27-33 | the mode becomes the given one; in a browser the slot holds its name |
| `Theme.ThemeStore.InitializeTheme` | lib/store/features/theme/themeSlice.ts:34-42 | in a browser, a stored "light" or "dark" becomes the mode; anything else, or no browser, leaves the mode; the slot is never written |
| `Theme.ToggleTwice` | lib/store/features/theme/themeSlice.ts:20-26 | two toggles leave the mode as it was; in a browser the slot then holds its name |
| `Theme.SetThemeTwice` | lib/store/features/theme/themeSlice.ts:27-33 | setting a mode twice has the same effect as setting it once |
| `Theme.ReloadAfterToggle` | lib/store/features/theme/themeSlice.ts:20-42 | after a toggle in a browser, a fresh store initialised from the slot takes the toggled mode |
| `TeamMapping.MapTeams` | app/api/teams/route.ts:20-28 | the mapping keeps the number of records and copies id, conference, division, city, name, full_name and abbreviation of each record at the same position |
| `TeamMapping.MapTeamsAppend` | lib/api/teams.ts:14-22 | the mapping distributes over concatenation, so it keeps the order of the records |
| `TeamMapping.MessageOf` | app/api/teams/route.ts:44-47 | an `Error`'s own message, or the default message for any other thrown value |
| `Text.Includes` | app/api/teams/route.ts:49-51 | true exactly when the second string occurs at some position of the first |
| `TeamsRoute.IsRateLimitError` | app/api/teams/route.ts:49-51 | true exactly when "rate limit" or "429" occurs at some position of the lower-cased message |
| `TeamsRoute.ErrorResponse` | app/api/teams/route.ts:40-66 | empty data and no meta; the error's status equals the HTTP status; a rate-limit message gives 429 with `RATE_LIMIT_ERROR` and the fixed message, any other message gives 500 with `FETCH_ERROR` and the message itself |
| `TeamsRoute.Get` | app/api/teams/route.ts:14-67 | there is an error exactly when the SDK threw; success is 200 with the mapped teams and `meta.total` equal to the number of teams returned |
| `TeamsRoute.ErrorStatusClassification` | app/api/teams/route.ts:49-64 | a failed fetch answers 429 iff its message reads as a rate limit and 500 iff not, and the code is `RATE_LIMIT_ERROR` iff the status is 429 |
| `TeamsRoute.NonErrorThrowIsFetchError` | app/api/teams/route.ts:44-47 | a thrown value that is not an `Error` yields 500 `FETCH_ERROR` with the default message |
| `TeamsRoute.RateLimitIgnoresCase` | app/api/teams/route.ts:49-51 | the rate-limit test gives the same answer on a lower-cased message |
| `TeamsRoute.RateLimitExamples` | app/api/teams/route.ts:49-51 | "Rate Limit exceeded" and a message ending in status code 429 are rate-limit errors |
| `TeamsCache.FetchTeamsData` | lib/api/teams.ts:10-38 | success is `{data: mapped teams, error: null}`; failure is `{data: [], error: message}`, with the default message for a thrown value that is not an `Error` |
| `TeamsCache.RouteAgreesWithFetcher` | lib/api/teams.ts:14-36 | the route and the cached fetcher return the same teams, fail in the same cases and, for a non-rate-limit failure, report the same message |
| `RecentGames.InsertByDate` | components/RecentGames.tsx:20-25 | inserting a line adds exactly that line to the multiset |
| `RecentGames.InsertKeepsNewestFirst` | components/RecentGames.tsx:20-25 | inserting into a newest-first list keeps it newest-first |
| `RecentGames.SortNewestFirst` | components/RecentGames.tsx:20-25 | the result is ordered by date, newest first, and is a permutation of the input |
| `RecentGames.SortIsStable` | components/RecentGames.tsx:20-25 | lines with the same date keep their input order |
| `RecentGames.SliceToEnd` | components/RecentGames.tsx:26 | `slice(0, end)` is a prefix of length `min(end, n)`, or `n + end` (at least 0) for a negative end |
| `RecentGames.ShownStats` | components/RecentGames.tsx:11-26 | the shown lines are a prefix of the newest-first order; with no `limit` there are `min(3, number of lines)` of them |
| `RecentGames.ShownCount` | components/RecentGames.tsx:11-26 | with a non-negative limit (3 when missing), `min(limit, number of lines)` rows are shown |
| `RecentGames.ShownAreTheNewest` | components/RecentGames.tsx:20-26 | the shown lines are newest first, come from the input, and no line left out is newer than a shown one |
| `RecentGames.GetGameResult` | components/RecentGames.tsx:38-54 | N/A with no `won` and no score iff a score is missing or 0; otherwise `won` is "Final and home leads, or not Final and visitor leads", the result is W iff won and L otherwise, and the score is home, dash, visitor |
| `RecentGames.ZeroScoreHasNoResult` | components/RecentGames.tsx:39-41 | a score of 0 counts as falsy and gives N/A |
| `RecentGames.TieIsLoss` | components/RecentGames.tsx:47-50 | tied scores give L |
| `RecentGames.BadgeIgnoresPlayerSide` | components/RecentGames.tsx:46-47 | a Final game won by the visitors and a non-final game led by the home side both show L |
| `RecentGames.ScoreTextRoundTrip` | components/RecentGames.tsx:52 | the score text reads back as the home score, then the visitor score |
| `RecentGames.ScoreText` | components/RecentGames.tsx:52 | for non-negative scores: the home digits, one dash, then the visitor digits, and nothing else |
| `RecentGames.HasStats` | components/RecentGames.tsx:68 | false exactly when pts, reb and ast are all null |
| `RecentGames.Render` | components/RecentGames.tsx:11-68 | missing or empty stats show the empty state; otherwise one row per shown line, in order, with its game result, and `hasStats` iff pts, reb or ast is non-null |
| `PlayerStatsSummary.ValidValues` | components/PlayerStatsSummary.tsx:23 | no more values than games; all games count when every value is known; none when none is; a single game gives its value if known and nothing otherwise (with `ValidValuesAppend` this fixes the values and their game order) |
| `PlayerStatsSummary.ValidValuesContents` | components/PlayerStatsSummary.tsx:23 | every known value is kept, and every kept value is the known value of some game |
| `PlayerStatsSummary.ValidValuesAppend` | components/PlayerStatsSummary.tsx:23 | filtering distributes over concatenation, so the kept values stay in game order |
| `PlayerStatsSummary.Label` | components/PlayerStatsSummary.tsx:59 | a three-letter per-game label ending in "PG" |
| `PlayerStatsSummary.LabelsDistinct` | components/PlayerStatsSummary.tsx:59 | the points, rebounds and assists cards carry different labels |
| `PlayerStatsSummary.Divide` | components/PlayerStatsSummary.tsx:47 | a nonzero divisor gives the exact quotient; a zero divisor gives Infinity, -Infinity or NaN by the sign of the dividend |
| `PlayerStatsSummary.CalculateAverageAndTrend` | components/PlayerStatsSummary.tsx:22-64 | the card has the stat's label (PPG, RPG, APG) and the mean of the known values (0 if none); under 6 values the trend is neutral with value 0; otherwise the last 3 are compared with the 3 before them: within 2% is neutral, at least +2% up, at most -2% down, and the reported value is the absolute percentage |
| `PlayerStatsSummary.Summary` | components/PlayerStatsSummary.tsx:17-70 | nothing for missing or empty stats; otherwise three cards, for points, rebounds and assists in that order |
| `PlayerStatsSummary.SummaryIsDetermined` | components/PlayerStatsSummary.tsx:22-64 | the card contract leaves exactly one card for given stats and key |
| `PlayerStatsSummary.TrendValueNotNegative` | components/PlayerStatsSummary.tsx:62 | the reported trend value is never negative: a finite value is at least 0, and it is never -Infinity |
| `PlayerStatsSummary.TrendAgainstPreviousAverage` | components/PlayerStatsSummary.tsx:47-55 | against a positive previous average: up iff the recent average is at least 1.02 times it, down iff at most 0.98 times it, neutral in between |

## Left out

- Rendering: JSX, markup, CSS classes, icons, `formatDate`, `toLocaleDateString`, `toFixed` and the chart components. These are presentation only.
- The BallDontLie SDK call and the API key: the call's outcome is an input.
- `unstable_cache`: entry lookup, expiry after `RevalidateSeconds` and tag invalidation belong to the framework. The model states only the key, period and tags the code passes.
- `console.error` logging: it has no effect on results.
- `localStorage` and `JSON.parse`: the slots are ghost fields and the parse result is an input. An array holding values other than numbers is not modelled: `StoredFavorites.ParsedArray` carries integer ids only.
- `selectFavoriteTeamIds` and `selectTheme`: they only read the state field, which is public in the model.
- Text.Lower: lower-cases ASCII letters only, where `toLowerCase` also maps other Unicode letters. The rate-limit words and "429" are ASCII, but a message that contains them only after non-ASCII case mapping is not modelled.
- RecentGames.SortNewestFirst: dates are integer keys. Unparsable dates, NaN comparator results and a missing `game` object (which the optional chaining tolerates) are not modelled.
- RecentGames.SliceToEnd: a non-integer `limit` is not modelled.
- PlayerStatsSummary.CalculateAverageAndTrend: exact `real` arithmetic instead of IEEE doubles, so rounding is not modelled. Stat values are integers, and a NaN stat value is not modelled. Non-finite numbers arise only from the division by a zero previous average.
- Stat lines carry only the fields the core reads: id, pts, reb, ast and the game's id, date, season, status and scores.
