# Football fixtures with weather and AI analysis — a Dafny model

This project models the core of a football-fixtures web application. It has a
NestJS backend and a React client.

The backend:
- caches a league's fixtures from TheSportsDB in a `matches` table and refreshes them after an hour;
- generates and caches a per-match analysis text from a language model, with a fixed fallback text;
- looks up the weather for a city;
- keeps users, with hashed passwords and signed tokens;
- keeps each user's favourite teams.

The client:
- keeps a match store (the league, its fixtures and the selected match with its details, weather and analysis);
- keeps a session store (user, token, favourites and the browser's `localStorage`);
- derives filtered, sorted and grouped lists on the fixtures page and the dashboard.

Every database table is a sequence of rows plus an id counter. A repository
class holds the rows and is proved equal, call by call, to a function over
those values. Every HTTP call, every model call and hashing, comparing and
signing are function parameters or reply values. Clocks are integer
millisecond timestamps, and date parsing is a parameter `instant`.

Modules:
- `Wrappers`: `Option`, `Result`, the HTTP errors, and JavaScript `||` on optional text.
- `Text`: `includes`, ASCII `toLowerCase`, `split(c)[0]` and decimal text of numbers.
- `Lists`: `filter`, `slice(0, n)`, stable sort by a key, `Set` de-duplication and `flatMap`.
- `Entities`: the `matches` table and its repository.
- `MatchesService`, `AiAnalysisService`, `FavoritesService`, `AuthService`, `WeatherService`: the five backend services.
- `ClientTypes`: the records the client receives.
- `MatchStore`, `AuthStore`: the two client stores, as classes.
- `MatchesPage`, `DashboardPage`: the two pages' list logic.

## Model

| member | source | states |
|---|---|---|
| Entities.IndexOfExternalId | backend/src/modules/matches/matches.service.ts:107-109 | the first row with the external id, or none exactly when no row has it |
| Entities.IndexOfMatchId | backend/src/modules/ai-analysis/ai-analysis.service.ts:27-32 | the first row with the primary key, or none exactly when no row has it |
| Entities.MatchRepository.FindByExternalId | backend/src/modules/matches/matches.service.ts:107-109 | the scan returns the index `IndexOfExternalId` specifies |
| Entities.MatchRepository.FindById | backend/src/modules/matches/matches.service.ts:65-71 | the scan returns the index `IndexOfMatchId` specifies |
| Entities.MatchRepository.Update | backend/src/modules/matches/matches.service.ts:112 | only row k changes: its event columns are replaced and `updatedAt` is refreshed; ids and external ids stay unique |
| Entities.MatchRepository.Insert | backend/src/modules/matches/matches.service.ts:114 | appends one row under a fresh id, with both timestamps set to now |
| Entities.MatchRepository.SetAnalysis | backend/src/modules/ai-analysis/ai-analysis.service.ts:67-70 | only row k changes: analysis text, `analyzedAt` and `updatedAt` |
| MatchesService.SeasonLabelYears | backend/src/modules/matches/matches.service.ts:119-128 | the spanish label splits back into the start year and the next one, August as the first month of a season; other leagues get the plain year |
| MatchesService.CityForTeam | backend/src/modules/matches/matches.service.ts:130-140 | non-empty exactly for the teams in the fixed table, and then one of its four cities |
| MatchesService.ResolveCity | backend/src/modules/matches/matches.service.ts:96 | the event's city when given, else the table's; empty only when both are missing |
| MatchesService.KickoffTextDate | backend/src/modules/matches/matches.service.ts:94 | the parsed date text begins with the event's own date, up to the `T` |
| MatchesService.MapEvents | backend/src/modules/matches/matches.service.ts:81-102 | no events give no matches; otherwise one record per event, in order, carrying its id, teams, league and season |
| MatchesService.CacheQuery | backend/src/modules/matches/matches.service.ts:36-40 | exactly min(50, n) rows of the league and season, where n is how many the table holds, ascending by kickoff |
| MatchesService.CacheQueryEarliest | backend/src/modules/matches/matches.service.ts:36-40 | the cached rows are drawn from the key's rows, and none of the key's rows left out kicks off before the last one kept |
| MatchesService.CacheHead | backend/src/modules/matches/matches.service.ts:36-44 | the cache is empty iff no row has the key; its first row has the earliest kickoff of the key |
| MatchesService.UpsertStep | backend/src/modules/matches/matches.service.ts:106-116 | one loop turn updates the row of the external id in place or appends a new row, and keeps keys unique |
| MatchesService.SaveAllReports | backend/src/modules/matches/matches.service.ts:106-116 | one entity per input record, in order, holding that record |
| MatchesService.SaveAllFrame | backend/src/modules/matches/matches.service.ts:106-116 | ids and external ids stay unique, old rows keep their place and id, and rows of other external ids are untouched |
| MatchesService.SaveAllPresent | backend/src/modules/matches/matches.service.ts:106-116 | after the loop every input's external id has a row |
| MatchesService.SaveAllLatest | backend/src/modules/matches/matches.service.ts:106-116 | each row of an input's external id holds the last such input and was written now |
| MatchesService.SaveAllStored | backend/src/modules/matches/matches.service.ts:111-112 | saving records that are all stored already overwrites rows in place and appends nothing |
| MatchesService.SaveTwice | backend/src/modules/matches/matches.service.ts:105-117 | saving the same list twice leaves the rows of saving it once, apart from `updatedAt` |
| MatchesService.Served | backend/src/modules/matches/matches.service.ts:46 | the cache is handed back row for row |
| MatchesService.SavedCount | backend/src/modules/matches/matches.service.ts:105-117 | the loop gets through all records unless a write throws, and then through exactly those before the failing one |
| MatchesService.RefreshedMatchLacksId | backend/src/modules/matches/matches.service.ts:51-55 | as written, a refresh of an already stored event returns a match object without a row id |
| MatchesService.StoredEntities | backend/src/modules/matches/matches.service.ts:51-55 | the corrected return value (see Findings): per record, the table's row of its external id when there is one, else the record itself |
| MatchesService.StoredEntitiesCarryIds | backend/src/modules/matches/matches.service.ts:51-55 | after a save every returned entity is the stored row of its record, with an id below the counter and the last record's data |
| MatchesService.FindOne | backend/src/modules/matches/matches.service.ts:65-71 | the row with the id exists iff the result is Ok; otherwise NotFound naming the id |
| MatchesService.CacheServedIffFresh | backend/src/modules/matches/matches.service.ts:42-47 | a non-empty cache is returned without a write, whatever upstream and the table would do, exactly when its first row was updated within the hour; as written and as corrected |
| MatchesService.FreshCacheIgnoresUpstream | backend/src/modules/matches/matches.service.ts:42-47 | with a fresh cache the result and the table do not depend on upstream or on the table's writes, as written and as corrected |
| MatchesService.StaleCacheFetches | backend/src/modules/matches/matches.service.ts:42-62 | an empty or stale cache goes upstream: a failed request writes nothing and returns the stale cache, or the error without one; a success saves every record and returns the stored rows, or as written the save loop's objects |
| MatchesService.FailureFallsBack | backend/src/modules/matches/matches.service.ts:56-62 | when the fetch or a write fails, a non-empty stale cache is returned, else the error; the writes before a failing one stay; as written and as corrected alike |
| MatchesService.SaveMatches | backend/src/modules/matches/matches.service.ts:105-117 | the loop leaves the table and the entities `SaveAll` gives for the records it got through, and reports a failing write |
| MatchesService.FindAll | backend/src/modules/matches/matches.service.ts:29-63 | the repository call equals `FindAllSpec`, the corrected `findAll` |
| AiAnalysisService.BuildPrompt | backend/src/modules/ai-analysis/ai-analysis.service.ts:134-184 | the retrospective branch iff the kickoff is past; teams, date and weather passed on; venue "Unknown" when empty |
| AiAnalysisService.NumberOr | backend/src/modules/ai-analysis/ai-analysis.service.ts:187-188 | a logical-or default on a number: a missing value and zero both give the default |
| AiAnalysisService.MockAnalysis | backend/src/modules/ai-analysis/ai-analysis.service.ts:186-196 | the fallback text is never empty |
| AiAnalysisService.MockAnalysisShows | backend/src/modules/ai-analysis/ai-analysis.service.ts:186-196 | the fallback text names both teams and shows the temperature and wind it used |
| AiAnalysisService.GenerateAnalysis | backend/src/modules/ai-analysis/ai-analysis.service.ts:93-132 | never empty; the fallback without a key, after a failed call, or for empty model text; otherwise the model's text |
| AiAnalysisService.NoKeyIgnoresModel | backend/src/modules/ai-analysis/ai-analysis.service.ts:94-97 | without a key the model is never consulted |
| AiAnalysisService.WeatherColumns | backend/src/modules/ai-analysis/ai-analysis.service.ts:58-61 | `?? 0` / `?? ''` defaults for the stored temperature, wind and condition |
| AiAnalysisService.ZeroTemperatureDefaults | backend/src/modules/ai-analysis/ai-analysis.service.ts:58-61 | a zero temperature is stored as zero but shown as 18 in the fallback text |
| AiAnalysisService.Latest | backend/src/modules/ai-analysis/ai-analysis.service.ts:37-40 | the newest analysis of the match, the earliest stored one on a tie; none iff the match has none |
| AiAnalysisService.MapToResponse | backend/src/modules/ai-analysis/ai-analysis.service.ts:198-211 | the stored analysis with the match's team names |
| AiAnalysisService.GetAnalysis | backend/src/modules/ai-analysis/ai-analysis.service.ts:75-91 | NotFound for an unknown match or one without analyses; otherwise Ok with the newest analysis of that match |
| AiAnalysisService.UnknownMatchRejected | backend/src/modules/ai-analysis/ai-analysis.service.ts:29-32 | an unknown match is NotFound and neither table changes |
| AiAnalysisService.RecentAnalysisServed | backend/src/modules/ai-analysis/ai-analysis.service.ts:37-48 | an analysis younger than an hour is returned and nothing is written |
| AiAnalysisService.StaleAnalysisRegenerated | backend/src/modules/ai-analysis/ai-analysis.service.ts:51-72 | otherwise one analysis is appended with the generated text; only the match's analysis columns change; `getAnalysis` then returns it |
| AiAnalysisService.AnalysisRepository.FindLatest | backend/src/modules/ai-analysis/ai-analysis.service.ts:37-40 | the scan returns the index `Latest` specifies |
| AiAnalysisService.AnalysisRepository.Append | backend/src/modules/ai-analysis/ai-analysis.service.ts:64 | appends the row under a fresh id |
| AiAnalysisService.CreateAnalysis | backend/src/modules/ai-analysis/ai-analysis.service.ts:25-73 | the two repositories end as `CreateAnalysisSpec` says, and the match table gains no row |
| FavoritesService.FetchTeamData | backend/src/modules/favorites/favorites.service.ts:101-130 | details exist iff the search answered with a team; they are the first team's, the description in Spanish or else English |
| FavoritesService.TeamColumns | backend/src/modules/favorites/favorites.service.ts:36-42 | the request's columns unless stadium or team id is missing and a lookup found the team |
| FavoritesService.IndexOfFavorite | backend/src/modules/favorites/favorites.service.ts:27-29 | the first row of the user and team, or none when there is none |
| FavoritesService.AddFavoriteEffect | backend/src/modules/favorites/favorites.service.ts:25-61 | an existing favourite is returned unchanged; otherwise exactly one row is appended for the user and team; pairs stay unique |
| FavoritesService.AddFavoriteIdempotent | backend/src/modules/favorites/favorites.service.ts:27-33 | adding the same favourite twice equals adding it once |
| FavoritesService.CompleteRequestSkipsLookup | backend/src/modules/favorites/favorites.service.ts:37 | with stadium and team id given, the lookup reply does not matter |
| FavoritesService.RemoveFavoriteSpec | backend/src/modules/favorites/favorites.service.ts:63-73 | NotFound "Favorito no encontrado" with no change iff there is no such row; otherwise one row fewer |
| FavoritesService.RemoveFavoriteEffect | backend/src/modules/favorites/favorites.service.ts:63-73 | that user's row for the team is gone, every other row stays, nothing is added, and pairs stay unique |
| FavoritesService.AddThenRemove | backend/src/modules/favorites/favorites.service.ts:25-73 | removing a favourite just added restores the rows |
| FavoritesService.UserFavorites | backend/src/modules/favorites/favorites.service.ts:18-23 | only the user's rows, newest first |
| FavoritesService.UserFavoritesComplete | backend/src/modules/favorites/favorites.service.ts:18-23 | every row of the user is listed |
| FavoritesService.TeamNextMatch | backend/src/modules/favorites/favorites.service.ts:75-86 | the first upcoming event, or none on failure, without events or with no events |
| FavoritesService.LastCount | backend/src/modules/favorites/favorites.service.ts:88 | an omitted `count` is five |
| FavoritesService.TeamLastMatches | backend/src/modules/favorites/favorites.service.ts:88-99 | the first min(`count`, n) of the n results, in order; empty on failure or without results |
| FavoritesService.FavoriteRepository.Find | backend/src/modules/favorites/favorites.service.ts:27-29 | the scan returns the index `IndexOfFavorite` specifies |
| FavoritesService.FavoriteRepository.Add | backend/src/modules/favorites/favorites.service.ts:25-61 | the table and the row equal `AddFavoriteSpec` |
| FavoritesService.FavoriteRepository.Remove | backend/src/modules/favorites/favorites.service.ts:63-73 | the table and the error equal `RemoveFavoriteSpec` |
| AuthService.SanitizeDropsOnlyPassword | backend/src/modules/auth/auth.service.ts:80-83 | the public user is the row without its password: putting it back gives the row, and two rows look alike iff they differ only there |
| AuthService.DisplayName | backend/src/modules/auth/auth.service.ts:33 | the given name, or the e-mail up to its first `@` |
| AuthService.DisplayNameOfAddress | backend/src/modules/auth/auth.service.ts:33 | the default name of "local@domain" is "local" |
| AuthService.IndexOfEmail | backend/src/modules/auth/auth.service.ts:21 | the row with the e-mail, or none exactly when no row has it |
| AuthService.RegisterEffect | backend/src/modules/auth/auth.service.ts:17-45 | a taken e-mail is a Conflict and nothing changes; otherwise one user is added with the hash of the password and a token of `{sub: id, email}` issued now; e-mails stay unique |
| AuthService.Claims | backend/src/modules/auth/auth.service.ts:75-78 | the token carries the user's id and e-mail, the second it was issued in, and an expiry 24 hours later |
| AuthService.Login | backend/src/modules/auth/auth.service.ts:47-69 | Unauthorized "Credenciales inválidas" exactly when the e-mail is unknown or the password does not match; otherwise the user's public view and a token for it issued now |
| AuthService.LoginFailuresAlike | backend/src/modules/auth/auth.service.ts:51-60 | an unknown e-mail and a wrong password give the same answer |
| AuthService.RegisterThenLogin | backend/src/modules/auth/auth.service.ts:17-69 | logging in after registering gives the same user and a token for the same id and e-mail issued at login; the same token only within the same second |
| AuthService.UserRepository.FindByEmail | backend/src/modules/auth/auth.service.ts:21 | the scan finds the e-mail iff `IndexOfEmail` does |
| AuthService.UserRepository.Register | backend/src/modules/auth/auth.service.ts:17-45 | the table and the answer equal `RegisterSpec` |
| WeatherService.Location | backend/src/modules/weather/weather.service.ts:19 | "city,country" with a country, else the city |
| WeatherService.LocationCity | backend/src/modules/weather/weather.service.ts:19 | the city reads back from the location |
| WeatherService.MockWeather | backend/src/modules/weather/weather.service.ts:67-80 | the fixed readings for the requested city |
| WeatherService.MapResponse | backend/src/modules/weather/weather.service.ts:52-65 | the reported city; the first condition's description, icon and group, or empty text |
| WeatherService.GetWeather | backend/src/modules/weather/weather.service.ts:17-50 | an error iff there is a key and the call answered 404, and then BadRequest naming the city |
| WeatherService.NoKeyGivesMock | backend/src/modules/weather/weather.service.ts:23-26 | without a key the mock comes back whatever the call would do |
| WeatherService.KeyedOutcomes | backend/src/modules/weather/weather.service.ts:28-48 | with a key an answer is mapped and a non-404 failure gives the mock |
| MatchStore.AnalysisBody | frontend/src/store/matchStore.ts:69-75 | an analysis request carries exactly the temperature, wind, humidity and conditions of the current weather, or nothing without weather |
| MatchStore.FetchMatchesEffect | frontend/src/store/matchStore.ts:38-46 | loading ends off; success replaces the list with no error; failure keeps the list and records the error; nothing else changes |
| MatchStore.SetLeagueEffect | frontend/src/store/matchStore.ts:33-36 | the new league is fetched; selection, weather and analysis are cleared, details kept; a failed fetch leaves the list empty |
| MatchStore.SelectMatchEffect | frontend/src/store/matchStore.ts:48-56 | the match is selected; weather and analysis cleared; details exactly those loaded for it |
| MatchStore.ClearSelectionEffect | frontend/src/store/matchStore.ts:82-84 | the four selection fields are nulled and nothing else; idempotent; undoes a selection |
| MatchStore.FetchFailuresKeepState | frontend/src/store/matchStore.ts:58-80 | failed weather or analysis requests change nothing; a success sets only its own field |
| MatchStore.Store.constructor | frontend/src/store/matchStore.ts:23-31 | empty list, nothing selected, not loading, no error, Spanish league |
| MatchStore.Store.FetchMatches | frontend/src/store/matchStore.ts:38-46 | the fields change as `FetchMatchesStep` says |
| MatchStore.Store.SetLeague | frontend/src/store/matchStore.ts:33-36 | the fields change as `SetLeagueStep` says |
| MatchStore.Store.SelectMatch | frontend/src/store/matchStore.ts:48-56 | the fields change as `SelectMatchStep` says |
| MatchStore.Store.FetchWeather | frontend/src/store/matchStore.ts:58-65 | the fields change as `FetchWeatherStep` says |
| MatchStore.Store.FetchAnalysis | frontend/src/store/matchStore.ts:67-80 | the fields change as `FetchAnalysisStep` says |
| MatchStore.Store.ClearSelection | frontend/src/store/matchStore.ts:82-84 | the fields change as `ClearSelectionStep` says |
| AuthStore.GetItem | frontend/src/store/authStore.ts:101-102 | the stored text exactly when the key is present |
| AuthStore.LogoutEffect | frontend/src/store/authStore.ts:94-98 | the two session keys and no others are removed; user, token and favourites reset; idempotent |
| AuthStore.LoginEffect | frontend/src/store/authStore.ts:53-73 | success stores the same token and user in storage and state, clears the error and answers true; failure records the server message or "Error al iniciar sesión", answers false and keeps session and storage |
| AuthStore.RegisterEffect | frontend/src/store/authStore.ts:75-92 | as login, with "Error al registrarse", and favourites untouched |
| AuthStore.LoadFromStorageEffect | frontend/src/store/authStore.ts:100-114 | nothing changes unless both keys hold text; an unparsable user drops only the two keys |
| AuthStore.ReloadRestoresSession | frontend/src/store/authStore.ts:53-114 | after a login, a fresh page loading from storage has the same user, token and (when fetchable) favourites |
| AuthStore.NoTokenNoOps | frontend/src/store/authStore.ts:116-150 | without a token the favourite fetch, add and remove change nothing |
| AuthStore.FetchFavoritesEffect | frontend/src/store/authStore.ts:116-126 | a failed fetch keeps the favourites; a success replaces only them |
| AuthStore.Store.FetchFavorites | frontend/src/store/authStore.ts:116-126 | the fields change as `FetchFavoritesStep` says |
| AuthStore.Store.Login | frontend/src/store/authStore.ts:53-73 | the fields and the answer are those of `LoginStep` |
| AuthStore.Store.Register | frontend/src/store/authStore.ts:75-92 | the fields and the answer are those of `RegisterStep` |
| AuthStore.Store.Logout | frontend/src/store/authStore.ts:94-98 | the fields change as `LogoutStep` says |
| AuthStore.Store.LoadFromStorage | frontend/src/store/authStore.ts:100-114 | the fields change as `LoadFromStorageStep` says |
| AuthStore.Store.AddFavorite | frontend/src/store/authStore.ts:128-138 | the fields change as `AddFavoriteStep` says |
| AuthStore.Store.RemoveFavorite | frontend/src/store/authStore.ts:140-150 | the fields change as `RemoveFavoriteStep` says |
| AuthStore.Store.GetNextMatch | frontend/src/store/authStore.ts:152-163 | nothing without a token or on failure, else the reply's body |
| AuthStore.Store.GetLastMatches | frontend/src/store/authStore.ts:165-176 | empty without a token or on failure, else the reply's body |
| MatchesPage.SearchIff | frontend/src/pages/Matches.tsx:50-53 | a match passes the search iff the term occurs, ignoring case, in the home team, the away team or its venue |
| MatchesPage.EmptySearchKeepsAll | frontend/src/pages/Matches.tsx:50-53 | an empty search lets every match through |
| MatchesPage.FilteredMatches | frontend/src/pages/Matches.tsx:49-61 | a match is kept iff it passes the search, the league choice (all or equal) and the date filter (empty or contained) |
| MatchesPage.SortedMatches | frontend/src/pages/Matches.tsx:64-66 | a permutation of its input, newest first |
| MatchesPage.GroupKey | frontend/src/pages/Matches.tsx:70 | the non-empty date text before the first `T`, or "Sin fecha" |
| MatchesPage.GroupByGroups | frontend/src/pages/Matches.tsx:69-76 | distinct non-empty groups, each exactly the elements of its key in list order, and a group for every element |
| MatchesPage.ExactlyOneGroup | frontend/src/pages/Matches.tsx:69-76 | every element is in exactly one group, the one of its key |
| MatchesPage.GroupedMatchesShow | frontend/src/pages/Matches.tsx:49-76 | a match is shown iff it passes the filters, under its own day, and each day lists newest first |
| DashboardPage.CountdownOf | frontend/src/pages/Dashboard.tsx:50-55 | hours < 24, minutes < 60, seconds < 60, and the shown time is within the last second below the remaining time |
| DashboardPage.Tick | frontend/src/pages/Dashboard.tsx:47-56 | the countdown changes only while the start lies ahead |
| DashboardPage.IsFavorite | frontend/src/pages/Dashboard.tsx:62-64 | true iff some favourite has the team name |
| DashboardPage.AllTeams | frontend/src/pages/Dashboard.tsx:67-84 | no repeated (name, badge, league); every entry is named; a named team is listed iff it plays in some match |
| DashboardPage.TeamSearch | frontend/src/pages/Dashboard.tsx:384-387 | a team is kept iff the lower-cased search occurs in its lower-cased name |
| DashboardPage.FavoriteMatches | frontend/src/pages/Dashboard.tsx:87-93 | at most five matches with a favourite team, a prefix of all such matches in list order |
| DashboardPage.UpcomingMatches | frontend/src/pages/Dashboard.tsx:96-102 | exactly the matches after now, soonest first |
| DashboardPage.NextMatch | frontend/src/pages/Dashboard.tsx:103 | some match iff one lies ahead, and then one no later than any other ahead |

## Findings

| source | as written | input that shows it | evidently intended | confidence | as-written member | corrected member |
|---|---|---|---|---|---|---|
| backend/src/modules/matches/matches.service.ts:51-55 | after a refresh `findAll` returns the mapped objects it passed to `saveMatches`; `save` fills in the id of a new row, but `update(existing.id, match)` leaves the object without one | a cache older than an hour (or empty) and an upstream event whose external id is already stored | every returned match is a stored row with its id, which the client needs for details and analysis | not executed | MatchesService.RefreshedMatchLacksId | MatchesService.StoredEntitiesCarryIds |

`FindAllAsWritten` models the code as written. `FindAllSpec` and the method
`FindAll` return the stored rows instead.

## Left out

- HTTP, the language model, bcrypt and JWT are parameters or reply values. So are `localStorage` internals and JSON parsing: `decode` returns nothing where `JSON.parse` throws.
- Logging, timers (`setInterval`), rendering and the controllers are not part of this model, and neither are module wiring and DTO validation.
- Async interleaving is not modelled. Each store action is one atomic transition with its replies supplied. The un-awaited `fetchFavorites` after login and the recursive `fetchMatches` call in `setLeague` are applied in the same step.
- Concurrent refreshes of the same league are not modelled.
- Uuid primary keys are modelled as a counter, and the client sees ids as text.
- Floating point is not modelled. Temperatures and wind speeds arrive already rounded as integers, and the m/s to km/h conversion is folded into the payload.
- Date parsing and formatting are the parameter `instant`, and an unparsable date (`NaN`) is not modelled.
- `AiAnalysisService.BuildPrompt`: the prompt is modelled as its branch and inputs, not as its exact wording.
- `FavoritesService.TeamLastMatches`: `count` is taken as non-negative. `slice(0, -n)` on a negative count is not modelled.
- `AiAnalysisService.Latest`: `ORDER BY createdAt DESC` leaves the order of analyses with equal `createdAt` open. The model picks the earliest stored one, which is a choice the code does not make.
- `MatchesService.CacheQuery`: on equal kickoffs the model keeps table order, while the database leaves that order open. That order decides which row's `updatedAt` gates freshness.
- `WeatherService.MapResponse`: a payload without `main`, `wind` or `weather` throws inside the `try` and yields the mock. `WeatherPayload` cannot express such a payload; the reply `Failed(None)` stands for it and gets the same answer.
- `MatchesPage.MatchesSearch`: `toLowerCase` is modelled on ASCII letters only. Other letters, such as 'É', are not folded.
- `DashboardPage.TeamSearch`: `toLowerCase` is modelled on ASCII letters only. Other letters, such as 'É', are not folded.
- `AuthService.Claims`: the signing itself (secret, algorithm, encoding) is the parameter `sign`; the model fixes only the claims signed.
- `MatchStore.Store`: the details payload is kept as opaque text.
- `MatchesPage.GroupKey`: `dateEvent` is taken as always present, as the client's `Match` type declares. The `?.` guard for a missing date is not modelled.
- `AuthStore.LoginEffect`: a server `message` that is a list of validation texts is not modelled. The server message is taken to be text.

## Notes on the code

- `findAll` asks one upstream listing, `eventsseason.php`, keeps the order of its events, and reads the cache earliest kickoff first.
- Freshness is read from the `updatedAt` of the first cached row, the one with the earliest kickoff, not from the newest row of the cached set.
- A missing city comes from the event's own `strCity`, and then from a fixed team-to-city table.
