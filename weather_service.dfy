/** The weather lookup of backend/src/modules/weather/weather.service.ts: the
    location string, the choice between the OpenWeatherMap answer, a fixed
    mock and an error, and the shaping of the answer. */
module WeatherService {
  import opened Wrappers
  import opened Text

  /** `GetWeatherDto`. */
  datatype WeatherQuery = WeatherQuery(city: string, country: Option<string>)

  /** One element of the `weather` list of the payload. */
  datatype Condition = Condition(description: Option<string>, icon: Option<string>, main: Option<string>)

  /** The OpenWeatherMap payload. Temperatures and the wind speed are given
      already rounded, the wind already in km/h. */
  datatype WeatherPayload = WeatherPayload(
    name: string,
    sysCountry: Option<string>,
    temp: int,
    feelsLike: int,
    humidity: int,
    windKmh: int,
    weather: seq<Condition>)

  /** What the GET gives back: a payload, or a failure with the HTTP status
      of the response if there was one. */
  datatype WeatherReply = Answered(data: WeatherPayload) | Failed(status: Option<int>)

  /** `WeatherResponseDto`. */
  datatype WeatherResponse = WeatherResponse(
    city: string,
    country: string,
    temperature: int,
    feelsLike: int,
    humidity: int,
    windSpeed: int,
    description: string,
    icon: string,
    conditions: string,
    timestamp: int)

  /** `city,country` when a country is given, else the city. */
  function Location(q: WeatherQuery): (loc: string)
    ensures Truthy(q.country) ==> loc == q.city + "," + q.country.value
    ensures !Truthy(q.country) ==> loc == q.city
  {
    if Truthy(q.country) then q.city + "," + q.country.value else q.city
  }

  /** The city can be read back from the location when it holds no comma. */
  lemma LocationCity(q: WeatherQuery)
    requires ',' !in q.city
    ensures BeforeFirst(Location(q), ',') == q.city
  {
    if Truthy(q.country) {
      assert Location(q) == q.city + [','] + q.country.value;
      BeforeFirstOfJoin(q.city, ',', q.country.value);
    } else {
      BeforeFirstAbsent(q.city, ',');
    }
  }

  /** `getMockWeather`: the city asked for and fixed readings. */
  function MockWeather(city: string, now: int): (w: WeatherResponse)
    ensures w.city == city && w.timestamp == now
    ensures w.country == "ES" && w.temperature == 18 && w.feelsLike == 17
    ensures w.humidity == 65 && w.windSpeed == 12
    ensures w.description == "partly cloudy" && w.icon == "02d" && w.conditions == "Clouds"
  {
    WeatherResponse(city, "ES", 18, 17, 65, 12, "partly cloudy", "02d", "Clouds", now)
  }

  function FirstOr(c: seq<Condition>, field: Condition -> Option<string>): (r: string)
    ensures |c| > 0 && Truthy(field(c[0])) ==> r == field(c[0]).value
    ensures |c| == 0 || !Truthy(field(c[0])) ==> r == ""
  {
    if |c| > 0 then TextOr(field(c[0]), "") else ""
  }

  /** `mapResponse`: the reported city, the country or an empty one, and the
      first condition's description, icon and group, each empty when missing. */
  function MapResponse(data: WeatherPayload, now: int): (w: WeatherResponse)
    ensures w.city == data.name && w.humidity == data.humidity
    ensures w.country == (if Truthy(data.sysCountry) then data.sysCountry.value else "")
    ensures |data.weather| == 0 ==> w.description == "" && w.icon == "" && w.conditions == ""
    ensures |data.weather| > 0 ==>
      && w.description == TextOr(data.weather[0].description, "")
      && w.icon == TextOr(data.weather[0].icon, "")
      && w.conditions == TextOr(data.weather[0].main, "")
  {
    WeatherResponse(
      city := data.name,
      country := TextOr(data.sysCountry, ""),
      temperature := data.temp,
      feelsLike := data.feelsLike,
      humidity := data.humidity,
      windSpeed := data.windKmh,
      description := FirstOr(data.weather, (c: Condition) => c.description),
      icon := FirstOr(data.weather, (c: Condition) => c.icon),
      conditions := FirstOr(data.weather, (c: Condition) => c.main),
      timestamp := now)
  }

  /** `getWeather`: `call` is the GET for a location. */
  function GetWeather(q: WeatherQuery, apiKey: string, call: string -> WeatherReply, now: int)
    : (r: Result<WeatherResponse>)
    ensures r.Err? <==> apiKey != "" && call(Location(q)) == Failed(Some(404))
    ensures r.Err? ==> r.error == BadRequest("City not found: " + q.city)
  {
    if apiKey == "" then Ok(MockWeather(q.city, now))
    else match call(Location(q))
      case Answered(data) => Ok(MapResponse(data, now))
      case Failed(status) =>
        if status == Some(404) then Err(BadRequest("City not found: " + q.city))
        else Ok(MockWeather(q.city, now))
  }

  /** Without a key the mock for the requested city comes back and the
      remote service is never consulted. */
  lemma NoKeyGivesMock(q: WeatherQuery, call1: string -> WeatherReply, call2: string -> WeatherReply, now: int)
    ensures GetWeather(q, "", call1, now) == GetWeather(q, "", call2, now) == Ok(MockWeather(q.city, now))
  {
  }

  /** With a key, a failure other than a 404 also falls back to the mock, and
      an answer is mapped. */
  lemma KeyedOutcomes(q: WeatherQuery, apiKey: string, call: string -> WeatherReply, now: int)
    requires apiKey != ""
    ensures call(Location(q)).Failed? && call(Location(q)).status != Some(404) ==>
      GetWeather(q, apiKey, call, now) == Ok(MockWeather(q.city, now))
    ensures call(Location(q)).Answered? ==>
      GetWeather(q, apiKey, call, now) == Ok(MapResponse(call(Location(q)).data, now))
  {
  }
}
