/** The client's match store (frontend/src/store/matchStore.ts): the fixture
    list of one league, the selected match with its details, weather and
    analysis, and the loading and error flags. Each action is one transition;
    the requests it awaits are function parameters that give its reply. */
module MatchStore {
  import opened Wrappers
  import opened ClientTypes

  /** The details payload of a match, kept as the JSON text it arrives as. */
  type Details = string

  /** The weather part of an analysis request. */
  datatype WeatherBody = WeatherBody(temperature: int, windSpeed: int, humidity: int, conditions: string)

  /** The store's fields as one value. */
  datatype MatchState = MatchState(
    matches: seq<ClientMatch>,
    selectedMatch: Option<ClientMatch>,
    matchDetails: Option<Details>,
    weather: Option<Weather>,
    analysis: Option<Analysis>,
    loading: bool,
    error: Option<string>,
    league: League)

  /** The state the store is created in. */
  const Initial: MatchState := MatchState([], None, None, None, None, false, None, Spanish)

  /** The weather sent with an analysis request: four readings of the current
      weather, or nothing without one. */
  function AnalysisBody(weather: Option<Weather>): (b: Option<WeatherBody>)
    ensures b.Some? <==> weather.Some?
    ensures b.Some? ==>
      && b.value.temperature == weather.value.temperature
      && b.value.windSpeed == weather.value.windSpeed
      && b.value.humidity == weather.value.humidity
      && b.value.conditions == weather.value.conditions
  {
    match weather
    case None => None
    case Some(w) => Some(WeatherBody(w.temperature, w.windSpeed, w.humidity, w.conditions))
  }

  /** `fetchMatches`: the list of the store's league, or the error. */
  function FetchMatchesStep(s: MatchState, getAll: League -> Reply<seq<ClientMatch>>): MatchState {
    var t := s.(loading := true, error := None);
    match getAll(t.league)
    case Resolved(data) => t.(matches := data, loading := false)
    case Rejected(message, _) => t.(error := Some(message), loading := false)
  }

  /** `setLeague`: switch league, drop the list and the selection, refetch. */
  function SetLeagueStep(s: MatchState, league: League, getAll: League -> Reply<seq<ClientMatch>>): MatchState {
    FetchMatchesStep(s.(league := league, matches := [], selectedMatch := None, weather := None, analysis := None), getAll)
  }

  /** `selectMatch`: select and clear what belonged to the previous match,
      then load the details. */
  function SelectMatchStep(s: MatchState, m: ClientMatch, getDetails: string -> Reply<Details>): MatchState {
    var t := s.(selectedMatch := Some(m), weather := None, analysis := None, matchDetails := None);
    match getDetails(m.id)
    case Resolved(d) => t.(matchDetails := Some(d))
    case Rejected(_, _) => t
  }

  /** `fetchWeather`. */
  function FetchWeatherStep(s: MatchState, city: string, get: string -> Reply<Weather>): MatchState {
    match get(city)
    case Resolved(w) => s.(weather := Some(w))
    case Rejected(_, _) => s
  }

  /** `fetchAnalysis`: the request carries the current weather. */
  function FetchAnalysisStep(s: MatchState, matchId: string,
                             create: (string, Option<WeatherBody>) -> Reply<Analysis>): MatchState {
    match create(matchId, AnalysisBody(s.weather))
    case Resolved(a) => s.(analysis := Some(a))
    case Rejected(_, _) => s
  }

  /** `clearSelection`. */
  function ClearSelectionStep(s: MatchState): MatchState {
    s.(selectedMatch := None, weather := None, analysis := None, matchDetails := None)
  }

  /** A fetch always ends with `loading` off; it replaces the list and leaves
      no error when the request succeeds, and keeps the list and records the
      error when it fails. Nothing else changes. */
  lemma FetchMatchesEffect(s: MatchState, getAll: League -> Reply<seq<ClientMatch>>)
    ensures var t := FetchMatchesStep(s, getAll);
      && !t.loading
      && t.(matches := s.matches, loading := s.loading, error := s.error) == s
      && (getAll(s.league).Resolved? ==> t.matches == getAll(s.league).data && t.error == None)
      && (getAll(s.league).Rejected? ==> t.matches == s.matches && t.error == Some(getAll(s.league).message))
  {
  }

  /** Switching league asks for the new league, drops the selection, the
      weather and the analysis, but keeps the details of the previous
      selection; a failed fetch leaves the list empty. */
  lemma SetLeagueEffect(s: MatchState, league: League, getAll: League -> Reply<seq<ClientMatch>>)
    ensures var t := SetLeagueStep(s, league, getAll);
      && t.league == league
      && t.selectedMatch == None && t.weather == None && t.analysis == None
      && t.matchDetails == s.matchDetails
      && !t.loading
      && t.matches == (if getAll(league).Resolved? then getAll(league).data else [])
  {
  }

  /** Selecting a match forgets the weather and analysis of the previous one
      and holds exactly the details loaded for the new one. */
  lemma SelectMatchEffect(s: MatchState, m: ClientMatch, getDetails: string -> Reply<Details>)
    ensures var t := SelectMatchStep(s, m, getDetails);
      && t.selectedMatch == Some(m)
      && t.weather == None && t.analysis == None
      && t.matchDetails == (if getDetails(m.id).Resolved? then Some(getDetails(m.id).data) else None)
      && t.(selectedMatch := s.selectedMatch, weather := s.weather, analysis := s.analysis,
            matchDetails := s.matchDetails) == s
  {
  }

  /** Clearing nulls the four selection fields and nothing else, is
      idempotent, and undoes a selection completely. */
  lemma ClearSelectionEffect(s: MatchState, m: ClientMatch, getDetails: string -> Reply<Details>)
    ensures var t := ClearSelectionStep(s);
      && t.selectedMatch == None && t.weather == None && t.analysis == None && t.matchDetails == None
      && t.(selectedMatch := s.selectedMatch, weather := s.weather, analysis := s.analysis,
            matchDetails := s.matchDetails) == s
      && ClearSelectionStep(t) == t
    ensures ClearSelectionStep(SelectMatchStep(s, m, getDetails)) == ClearSelectionStep(s)
  {
  }

  /** A failed weather or analysis request leaves the store as it was; a
      successful one sets only its own field. */
  lemma FetchFailuresKeepState(s: MatchState, city: string, get: string -> Reply<Weather>, matchId: string,
                               create: (string, Option<WeatherBody>) -> Reply<Analysis>)
    ensures get(city).Rejected? ==> FetchWeatherStep(s, city, get) == s
    ensures get(city).Resolved? ==> FetchWeatherStep(s, city, get) == s.(weather := Some(get(city).data))
    ensures create(matchId, AnalysisBody(s.weather)).Rejected? ==> FetchAnalysisStep(s, matchId, create) == s
    ensures create(matchId, AnalysisBody(s.weather)).Resolved? ==>
      FetchAnalysisStep(s, matchId, create) == s.(analysis := Some(create(matchId, AnalysisBody(s.weather)).data))
  {
  }

  /** The store. */
  class Store {
    var matches: seq<ClientMatch>
    var selectedMatch: Option<ClientMatch>
    var matchDetails: Option<Details>
    var weather: Option<Weather>
    var analysis: Option<Analysis>
    var loading: bool
    var error: Option<string>
    var league: League

    function Snapshot(): MatchState
      reads this
    {
      MatchState(matches, selectedMatch, matchDetails, weather, analysis, loading, error, league)
    }

    /** An empty list, nothing selected, not loading, the Spanish league. */
    constructor ()
      ensures Snapshot() == Initial
      ensures matches == [] && selectedMatch == None && matchDetails == None
      ensures weather == None && analysis == None && !loading && error == None && league == Spanish
    {
      matches := [];
      selectedMatch := None;
      matchDetails := None;
      weather := None;
      analysis := None;
      loading := false;
      error := None;
      league := Spanish;
    }

    method FetchMatches(getAll: League -> Reply<seq<ClientMatch>>)
      modifies this
      ensures Snapshot() == FetchMatchesStep(old(Snapshot()), getAll)
    {
      loading := true;
      error := None;
      var response := getAll(league);
      match response {
        case Resolved(data) =>
          matches := data;
          loading := false;
        case Rejected(message, _) =>
          error := Some(message);
          loading := false;
      }
    }

    method SetLeague(newLeague: League, getAll: League -> Reply<seq<ClientMatch>>)
      modifies this
      ensures Snapshot() == SetLeagueStep(old(Snapshot()), newLeague, getAll)
    {
      league := newLeague;
      matches := [];
      selectedMatch := None;
      weather := None;
      analysis := None;
      FetchMatches(getAll);
    }

    method SelectMatch(m: ClientMatch, getDetails: string -> Reply<Details>)
      modifies this
      ensures Snapshot() == SelectMatchStep(old(Snapshot()), m, getDetails)
    {
      selectedMatch := Some(m);
      weather := None;
      analysis := None;
      matchDetails := None;
      var response := getDetails(m.id);
      if response.Resolved? {
        matchDetails := Some(response.data);
      }
    }

    method FetchWeather(city: string, get: string -> Reply<Weather>)
      modifies this
      ensures Snapshot() == FetchWeatherStep(old(Snapshot()), city, get)
    {
      var response := get(city);
      if response.Resolved? {
        weather := Some(response.data);
      }
    }

    method FetchAnalysis(matchId: string, create: (string, Option<WeatherBody>) -> Reply<Analysis>)
      modifies this
      ensures Snapshot() == FetchAnalysisStep(old(Snapshot()), matchId, create)
    {
      var body := AnalysisBody(weather);
      var response := create(matchId, body);
      if response.Resolved? {
        analysis := Some(response.data);
      }
    }

    method ClearSelection()
      modifies this
      ensures Snapshot() == ClearSelectionStep(old(Snapshot()))
    {
      selectedMatch := None;
      weather := None;
      analysis := None;
      matchDetails := None;
    }
  }
}
