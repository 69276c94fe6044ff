/** The records the web client receives from the API (frontend/src/services/api.ts
    and the interfaces of frontend/src/store/authStore.ts), and the outcome of
    one request. Ids and dates arrive as JSON text. */
module ClientTypes {
  import opened Wrappers

  /** `Match`. */
  datatype ClientMatch = ClientMatch(
    id: string,
    externalId: string,
    homeTeam: string,
    awayTeam: string,
    homeTeamBadge: Option<string>,
    awayTeamBadge: Option<string>,
    league: string,
    season: string,
    dateEvent: string,
    venue: Option<string>,
    city: Option<string>,
    homeScore: Option<string>,
    awayScore: Option<string>,
    status: Option<string>,
    aiAnalysis: Option<string>)

  /** `Weather`; the numbers as the API rounds them. */
  datatype Weather = Weather(
    city: string,
    country: string,
    temperature: int,
    feelsLike: int,
    humidity: int,
    windSpeed: int,
    description: string,
    conditions: string)

  /** `Analysis`. */
  datatype Analysis = Analysis(
    id: string,
    matchId: string,
    homeTeam: string,
    awayTeam: string,
    analysis: string,
    temperature: Option<int>,
    windSpeed: Option<int>,
    weatherCondition: Option<string>,
    model: string,
    createdAt: string)

  /** The `User` of the auth store. */
  datatype ClientUser = ClientUser(id: string, email: string, name: string, avatar: Option<string>)

  /** The `Favorite` of the auth store. */
  datatype Favorite = Favorite(
    id: string,
    teamName: string,
    teamBadge: Option<string>,
    league: string,
    teamId: Option<string>,
    stadium: Option<string>,
    stadiumCapacity: Option<string>,
    foundedYear: Option<string>,
    teamDescription: Option<string>,
    website: Option<string>,
    twitter: Option<string>,
    instagram: Option<string>,
    facebook: Option<string>)

  /** The league the match store asks for. */
  datatype League = Spanish | Mls

  /** How an awaited request ends: with the response body, or rejected with
      the client's error text and the `message` of the server's error body
      when there is one. */
  datatype Reply<+T> = Resolved(data: T) | Rejected(message: string, serverMessage: Option<string>)
}
