/** The analysis cache of backend/src/modules/ai-analysis/ai-analysis.service.ts:
    a one-hour gate on the latest analysis of a match, text generation by a
    language model with a fixed fallback text, and the write-back of the text
    onto the match. */
module AiAnalysisService {
  import opened Wrappers
  import opened Text
  import opened Entities

  const OneHourMs: int := 60 * 60 * 1000
  /** The model name stored with every analysis. */
  const ModelName: string := "gemini-2.0-flash"
  const MockTemperature: int := 18
  const MockWind: int := 10

  /** The optional `weatherData` of the request; any member may be missing. */
  datatype WeatherInput = WeatherInput(
    temperature: Option<int>,
    windSpeed: Option<int>,
    humidity: Option<int>,
    conditions: Option<string>)

  /** The `matchData` column. */
  datatype MatchSummary = MatchSummary(homeTeam: string, awayTeam: string, venue: string)

  /** A row of the `analyses` table. */
  datatype AnalysisRow = AnalysisRow(
    id: nat,
    matchId: nat,
    content: string,
    matchData: MatchSummary,
    weatherData: Option<WeatherInput>,
    model: string,
    temperature: int,
    windSpeed: int,
    weatherCondition: string,
    createdAt: int)

  /** `AnalysisResponseDto`. */
  datatype AnalysisResponse = AnalysisResponse(
    id: nat,
    matchId: nat,
    homeTeam: string,
    awayTeam: string,
    analysis: string,
    temperature: int,
    windSpeed: int,
    weatherCondition: string,
    model: string,
    createdAt: int)

  /** The instruction sent to the model: which branch was taken and which
      fields it shows. The surrounding wording is not modelled. */
  datatype Prompt =
    | Retrospective(homeTeam: string, homeScore: string, awayScore: string, awayTeam: string,
                    venue: string, date: int, status: string, weather: Option<WeatherInput>)
    | Prediction(homeTeam: string, awayTeam: string, venue: string, date: int,
                 weather: Option<WeatherInput>)

  /** What the model call gives back: it throws, or it answers with a body
      whose first candidate text may be missing. */
  datatype ModelReply = CallFailed | Answered(text: Option<string>)

  /** `buildPrompt`: the retrospective branch for a kickoff before `now`, the
      prediction branch otherwise; missing scores show `?`, a missing venue
      `Unknown`, a missing status `Finished`. */
  function BuildPrompt(m: MatchRecord, weather: Option<WeatherInput>, now: int): (p: Prompt)
    ensures p.Retrospective? <==> m.dateEvent < now
    ensures p.weather == weather
    ensures p.homeTeam == m.homeTeam && p.awayTeam == m.awayTeam && p.date == m.dateEvent
    ensures p.venue == (if m.venue == "" then "Unknown" else m.venue)
  {
    var venue := if m.venue == "" then "Unknown" else m.venue;
    if m.dateEvent < now then
      Retrospective(m.homeTeam, TextOr(m.homeScore, "?"), TextOr(m.awayScore, "?"), m.awayTeam,
                    venue, m.dateEvent, if m.status == "" then "Finished" else m.status, weather)
    else Prediction(m.homeTeam, m.awayTeam, venue, m.dateEvent, weather)
  }

  /** `x || d` on an optional number: a missing value and a zero both give `d`. */
  function NumberOr(x: Option<int>, d: int): (r: int)
    ensures x.Some? && x.value != 0 ==> r == x.value
    ensures x.None? || x.value == 0 ==> r == d
  {
    if x.Some? && x.value != 0 then x.value else d
  }

  function MockTemperatureOf(weather: Option<WeatherInput>): int {
    NumberOr(if weather.Some? then weather.value.temperature else None, MockTemperature)
  }

  function MockWindOf(weather: Option<WeatherInput>): int {
    NumberOr(if weather.Some? then weather.value.windSpeed else None, MockWind)
  }

  // The fixed pieces of the fallback text.
  const MockIntro: string := "Match Analysis: "
  const MockVersus: string := " vs "
  const MockConditions: string := "\n\nBased on the current conditions with "
  const MockDegrees: string := "°C temperature and "
  const MockWindText: string := " km/h wind, this match promises to be competitive. The moderate weather conditions favor technical play. "
  const MockClosing: string := " has home advantage which could be decisive. The wind speed is manageable but may affect long passes and set pieces. Expect both teams to focus on ground-based build-up play."

  /** `getMockAnalysis`. */
  function MockAnalysis(m: MatchRecord, weather: Option<WeatherInput>): (text: string)
    ensures |text| >= |MockIntro| > 0
  {
    MockIntro + (m.homeTeam + (MockVersus + (m.awayTeam + (MockConditions
    + (IntText(MockTemperatureOf(weather)) + (MockDegrees + (IntText(MockWindOf(weather)) + (MockWindText
    + (m.homeTeam + MockClosing)))))))))
  }

  /** The fallback text names both teams and shows the temperature and wind it
      used: the given ones when non-zero, else 18 and 10. */
  lemma MockAnalysisShows(m: MatchRecord, weather: Option<WeatherInput>)
    ensures var text := MockAnalysis(m, weather);
      && Contains(text, m.homeTeam)
      && Contains(text, m.awayTeam)
      && Contains(text, IntText(MockTemperatureOf(weather)))
      && Contains(text, IntText(MockWindOf(weather)))
  {
    var t := IntText(MockTemperatureOf(weather));
    var w := IntText(MockWindOf(weather));
    var s5 := w + (MockWindText + (m.homeTeam + MockClosing));
    var s4 := MockDegrees + s5;
    var s3 := t + s4;
    var s2 := MockConditions + s3;
    var s1 := m.awayTeam + s2;
    var s0 := m.homeTeam + (MockVersus + s1);
    // the wind
    ContainsPrefix(w, MockWindText + (m.homeTeam + MockClosing));
    ContainsUnderPrefix(MockDegrees, s5, w);
    ContainsUnderPrefix(t, s4, w);
    ContainsUnderPrefix(MockConditions, s3, w);
    ContainsUnderPrefix(m.awayTeam, s2, w);
    ContainsUnderPrefix(MockVersus, s1, w);
    ContainsUnderPrefix(m.homeTeam, MockVersus + s1, w);
    ContainsUnderPrefix(MockIntro, s0, w);
    // the temperature
    ContainsPrefix(t, s4);
    ContainsUnderPrefix(MockConditions, s3, t);
    ContainsUnderPrefix(m.awayTeam, s2, t);
    ContainsUnderPrefix(MockVersus, s1, t);
    ContainsUnderPrefix(m.homeTeam, MockVersus + s1, t);
    ContainsUnderPrefix(MockIntro, s0, t);
    // the away team
    ContainsPrefix(m.awayTeam, s2);
    ContainsUnderPrefix(MockVersus, s1, m.awayTeam);
    ContainsUnderPrefix(m.homeTeam, MockVersus + s1, m.awayTeam);
    ContainsUnderPrefix(MockIntro, s0, m.awayTeam);
    // the home team
    ContainsPrefix(m.homeTeam, MockVersus + s1);
    ContainsUnderPrefix(MockIntro, s0, m.homeTeam);
  }

  /** `generateAnalysis`: without a key the fallback text; with one, the
      model's text when it is non-empty, else the fallback. It never fails and
      never gives an empty text. */
  function GenerateAnalysis(m: MatchRecord, weather: Option<WeatherInput>, apiKey: string,
                            model: Prompt -> ModelReply, now: int): (text: string)
    ensures text != ""
    ensures apiKey == "" ==> text == MockAnalysis(m, weather)
    ensures apiKey != "" ==>
      var reply := model(BuildPrompt(m, weather, now));
      if reply.Answered? && Truthy(reply.text) then text == reply.text.value
      else text == MockAnalysis(m, weather)
  {
    if apiKey == "" then MockAnalysis(m, weather)
    else match model(BuildPrompt(m, weather, now))
      case CallFailed => MockAnalysis(m, weather)
      case Answered(t) => TextOr(t, MockAnalysis(m, weather))
  }

  /** Without a key the model is never consulted: any two models give the same text. */
  lemma NoKeyIgnoresModel(m: MatchRecord, weather: Option<WeatherInput>,
                          model1: Prompt -> ModelReply, model2: Prompt -> ModelReply, now: int)
    ensures GenerateAnalysis(m, weather, "", model1, now) == GenerateAnalysis(m, weather, "", model2, now)
  {
  }

  /** `weatherData?.temperature ?? 0`, `weatherData?.windSpeed ?? 0` and
      `weatherData?.conditions ?? ''`: only a missing value is replaced, a zero
      is kept. */
  function WeatherColumns(weather: Option<WeatherInput>): (cols: (int, int, string))
    ensures weather.None? ==> cols == (0, 0, "")
    ensures weather.Some? ==>
      && cols.0 == weather.value.temperature.GetOr(0)
      && cols.1 == weather.value.windSpeed.GetOr(0)
      && cols.2 == weather.value.conditions.GetOr("")
  {
    match weather
    case None => (0, 0, "")
    case Some(w) => (w.temperature.GetOr(0), w.windSpeed.GetOr(0), w.conditions.GetOr(""))
  }

  /** The stored and the fallback defaults differ: a zero temperature is
      stored as zero but shown as 18 in the fallback text. */
  lemma ZeroTemperatureDefaults(w: WeatherInput)
    requires w.temperature == Some(0)
    ensures WeatherColumns(Some(w)).0 == 0
    ensures MockTemperatureOf(Some(w)) == MockTemperature
  {
  }

  /** `findOne({ where: { matchId }, order: { createdAt: 'DESC' } })`: the
      analysis of the match with the greatest creation time, the first such
      row on a tie. */
  function Latest(rows: seq<AnalysisRow>, matchId: nat): (k: Option<nat>)
    ensures k.Some? ==> k.value < |rows| && rows[k.value].matchId == matchId
    ensures k.Some? ==> forall j :: 0 <= j < |rows| && rows[j].matchId == matchId ==>
      rows[j].createdAt <= rows[k.value].createdAt
    ensures k.None? <==> forall j :: 0 <= j < |rows| ==> rows[j].matchId != matchId
    ensures k.Some? ==> forall j :: 0 <= j < k.value && rows[j].matchId == matchId ==>
      rows[j].createdAt < rows[k.value].createdAt
    decreases |rows|
  {
    if rows == [] then None
    else
      var prev := Latest(rows[..|rows| - 1], matchId);
      var last := rows[|rows| - 1];
      if last.matchId == matchId && (prev.None? || rows[prev.value].createdAt < last.createdAt)
      then Some(|rows| - 1)
      else prev
  }

  /** `mapToResponse`: the stored analysis with the team names of the match. */
  function MapToResponse(a: AnalysisRow, m: MatchRow): (r: AnalysisResponse)
    ensures r.id == a.id && r.matchId == a.matchId && r.analysis == a.content
    ensures r.homeTeam == m.data.homeTeam && r.awayTeam == m.data.awayTeam
  {
    AnalysisResponse(a.id, a.matchId, m.data.homeTeam, m.data.awayTeam, a.content,
                     a.temperature, a.windSpeed, a.weatherCondition, a.model, a.createdAt)
  }

  /** The `analyses` table as a value. */
  datatype AnalysisStore = AnalysisStore(rows: seq<AnalysisRow>, nextId: nat)

  function NotFoundMatch(matchId: nat): HttpError {
    NotFound("Match with ID " + NatText(matchId) + " not found")
  }

  /** Whether a cached analysis answers the request. */
  predicate Recent(a: AnalysisRow, now: int) {
    a.createdAt > now - OneHourMs
  }

  /** The row appended by a new analysis. */
  function NewAnalysis(id: nat, matchId: nat, m: MatchRecord, text: string,
                       weather: Option<WeatherInput>, now: int): AnalysisRow
  {
    var cols := WeatherColumns(weather);
    AnalysisRow(id, matchId, text, MatchSummary(m.homeTeam, m.awayTeam, m.venue), weather,
                ModelName, cols.0, cols.1, cols.2, now)
  }

  /** `createAnalysis`: the match table and the analysis table after the
      call, and what it returns. */
  function CreateAnalysisSpec(matches: seq<MatchRow>, analyses: AnalysisStore, matchId: nat,
                              weather: Option<WeatherInput>, apiKey: string,
                              model: Prompt -> ModelReply, now: int)
    : (seq<MatchRow>, AnalysisStore, Result<AnalysisResponse>)
  {
    match IndexOfMatchId(matches, matchId)
    case None => (matches, analyses, Err(NotFoundMatch(matchId)))
    case Some(k) =>
      var m := matches[k];
      var latest := Latest(analyses.rows, matchId);
      if latest.Some? && Recent(analyses.rows[latest.value], now) then
        (matches, analyses, Ok(MapToResponse(analyses.rows[latest.value], m)))
      else
        var text := GenerateAnalysis(m.data, weather, apiKey, model, now);
        var row := NewAnalysis(analyses.nextId, matchId, m.data, text, weather, now);
        (matches[k := m.(aiAnalysis := Some(text), analyzedAt := Some(now), updatedAt := now)],
         AnalysisStore(analyses.rows + [row], analyses.nextId + 1),
         Ok(MapToResponse(row, m)))
  }

  /** `getAnalysis`: the latest analysis of a known match. */
  function GetAnalysis(matches: seq<MatchRow>, analyses: seq<AnalysisRow>, matchId: nat)
    : (r: Result<AnalysisResponse>)
    ensures IndexOfMatchId(matches, matchId).None? ==> r == Err(NotFoundMatch(matchId))
    ensures IndexOfMatchId(matches, matchId).Some? && Latest(analyses, matchId).None? ==>
      r == Err(NotFound("No analysis found for match " + NatText(matchId)))
    ensures IndexOfMatchId(matches, matchId).Some? && Latest(analyses, matchId).Some? ==> r.Ok?
    ensures r.Ok? ==> r.value.matchId == matchId
    ensures r.Ok? ==> r.value == MapToResponse(analyses[Latest(analyses, matchId).value],
                                         matches[IndexOfMatchId(matches, matchId).value])
  {
    match IndexOfMatchId(matches, matchId)
    case None => Err(NotFoundMatch(matchId))
    case Some(k) =>
      match Latest(analyses, matchId)
      case None => Err(NotFound("No analysis found for match " + NatText(matchId)))
      case Some(j) => Ok(MapToResponse(analyses[j], matches[k]))
  }

  /** An unknown match is rejected and neither table changes. */
  lemma UnknownMatchRejected(matches: seq<MatchRow>, analyses: AnalysisStore, matchId: nat,
                             weather: Option<WeatherInput>, apiKey: string,
                             model: Prompt -> ModelReply, now: int)
    requires forall j :: 0 <= j < |matches| ==> matches[j].id != matchId
    ensures CreateAnalysisSpec(matches, analyses, matchId, weather, apiKey, model, now)
         == (matches, analyses, Err(NotFoundMatch(matchId)))
    ensures GetAnalysis(matches, analyses.rows, matchId) == Err(NotFoundMatch(matchId))
  {
  }

  /** A known match whose latest analysis is younger than an hour gets that
      analysis back, and neither table changes, whatever the model would say. */
  lemma RecentAnalysisServed(matches: seq<MatchRow>, analyses: AnalysisStore, matchId: nat,
                             weather: Option<WeatherInput>, apiKey: string,
                             model: Prompt -> ModelReply, now: int)
    requires IndexOfMatchId(matches, matchId).Some?
    requires Latest(analyses.rows, matchId).Some?
    requires analyses.rows[Latest(analyses.rows, matchId).value].createdAt > now - OneHourMs
    ensures var out := CreateAnalysisSpec(matches, analyses, matchId, weather, apiKey, model, now);
      && out.0 == matches && out.1 == analyses
      && out.2 == GetAnalysis(matches, analyses.rows, matchId)
  {
  }

  /** Otherwise exactly one analysis is appended, holding the generated text
      and the weather columns; the match gets the same text and the analysis
      instant, every other match row is unchanged; and from then on the new
      analysis is the one `getAnalysis` returns. */
  lemma StaleAnalysisRegenerated(matches: seq<MatchRow>, analyses: AnalysisStore, matchId: nat,
                                 weather: Option<WeatherInput>, apiKey: string,
                                 model: Prompt -> ModelReply, now: int)
    requires IndexOfMatchId(matches, matchId).Some?
    requires forall j :: 0 <= j < |analyses.rows| && analyses.rows[j].matchId == matchId ==>
      analyses.rows[j].createdAt <= now - OneHourMs
    ensures var out := CreateAnalysisSpec(matches, analyses, matchId, weather, apiKey, model, now);
      var k := IndexOfMatchId(matches, matchId).value;
      var text := GenerateAnalysis(matches[k].data, weather, apiKey, model, now);
      && |out.1.rows| == |analyses.rows| + 1
      && out.1.rows[..|analyses.rows|] == analyses.rows
      && out.1.rows[|analyses.rows|].matchId == matchId
      && out.1.rows[|analyses.rows|].content == text
      && out.1.rows[|analyses.rows|].model == ModelName
      && (out.1.rows[|analyses.rows|].temperature, out.1.rows[|analyses.rows|].windSpeed,
          out.1.rows[|analyses.rows|].weatherCondition) == WeatherColumns(weather)
      && |out.0| == |matches|
      && out.0[k].aiAnalysis == Some(text) && out.0[k].analyzedAt == Some(now)
      && out.0[k].data == matches[k].data && out.0[k].id == matches[k].id
      && (forall j :: 0 <= j < |matches| && j != k ==> out.0[j] == matches[j])
      && out.2.Ok? && out.2.value.analysis == text
      && GetAnalysis(out.0, out.1.rows, matchId) == out.2
  {
    var k := IndexOfMatchId(matches, matchId).value;
    var m := matches[k];
    var text := GenerateAnalysis(m.data, weather, apiKey, model, now);
    var row := NewAnalysis(analyses.nextId, matchId, m.data, text, weather, now);
    var m' := m.(aiAnalysis := Some(text), analyzedAt := Some(now), updatedAt := now);
    StaleCreateShape(matches, analyses, matchId, weather, apiKey, model, now);
    NewestIsLatest(analyses.rows, row, matchId);
    UpdatedMatchFound(matches, matchId, k, m');
    assert (analyses.rows + [row])[..|analyses.rows|] == analyses.rows;
  }

  /** With no analysis of the match from the last hour, `createAnalysis`
      writes a new one and stamps the match. */
  lemma StaleCreateShape(matches: seq<MatchRow>, analyses: AnalysisStore, matchId: nat,
                         weather: Option<WeatherInput>, apiKey: string,
                         model: Prompt -> ModelReply, now: int)
    requires IndexOfMatchId(matches, matchId).Some?
    requires forall j :: 0 <= j < |analyses.rows| && analyses.rows[j].matchId == matchId ==>
      analyses.rows[j].createdAt <= now - OneHourMs
    ensures var k := IndexOfMatchId(matches, matchId).value;
      var m := matches[k];
      var text := GenerateAnalysis(m.data, weather, apiKey, model, now);
      var row := NewAnalysis(analyses.nextId, matchId, m.data, text, weather, now);
      CreateAnalysisSpec(matches, analyses, matchId, weather, apiKey, model, now)
        == (matches[k := m.(aiAnalysis := Some(text), analyzedAt := Some(now), updatedAt := now)],
            AnalysisStore(analyses.rows + [row], analyses.nextId + 1),
            Ok(MapToResponse(row, m)))
  {
    var latest := Latest(analyses.rows, matchId);
    assert latest.Some? ==> !Recent(analyses.rows[latest.value], now);
  }

  /** A row of the match newer than every earlier one is the latest. */
  lemma NewestIsLatest(rows: seq<AnalysisRow>, row: AnalysisRow, matchId: nat)
    requires row.matchId == matchId
    requires forall j :: 0 <= j < |rows| && rows[j].matchId == matchId ==> rows[j].createdAt < row.createdAt
    ensures Latest(rows + [row], matchId) == Some(|rows|)
  {
    assert (rows + [row])[..|rows|] == rows;
  }

  /** Updating a match row in place, id kept, leaves the lookup by id where it was. */
  lemma UpdatedMatchFound(matches: seq<MatchRow>, matchId: nat, k: nat, m': MatchRow)
    requires IndexOfMatchId(matches, matchId) == Some(k)
    requires m'.id == matchId
    ensures IndexOfMatchId(matches[k := m'], matchId) == Some(k)
  {
    var updated := matches[k := m'];
    forall j | 0 <= j < k ensures updated[j].id != matchId {
      assert updated[j] == matches[j];
    }
    IndexOfFirstId(updated, matchId, k);
  }

  /** The `analyses` repository. */
  class AnalysisRepository {
    var rows: seq<AnalysisRow>
    var nextId: nat

    ghost predicate Valid()
      reads this
    {
      forall i :: 0 <= i < |rows| ==> rows[i].id < nextId
    }

    constructor ()
      ensures Valid() && rows == [] && nextId == 0
    {
      rows := [];
      nextId := 0;
    }

    /** The latest analysis of a match, found in one scan. */
    method FindLatest(matchId: nat) returns (k: Option<nat>)
      ensures k == Latest(rows, matchId)
    {
      k := None;
      var i := 0;
      while i < |rows|
        invariant 0 <= i <= |rows|
        invariant k == Latest(rows[..i], matchId)
      {
        assert rows[..i + 1][..i] == rows[..i];
        if rows[i].matchId == matchId && (k.None? || rows[k.value].createdAt < rows[i].createdAt) {
          k := Some(i);
        }
        i := i + 1;
      }
      assert rows[..i] == rows;
    }

    /** `save(analysis)`: appends the row under a fresh id. */
    method Append(row: AnalysisRow) returns (saved: AnalysisRow)
      requires Valid()
      modifies this
      ensures Valid()
      ensures saved == row.(id := old(nextId))
      ensures rows == old(rows) + [saved] && nextId == old(nextId) + 1
    {
      saved := row.(id := nextId);
      rows := rows + [saved];
      nextId := nextId + 1;
    }
  }

  /** `createAnalysis` over the two repositories. */
  method CreateAnalysis(matchRepo: MatchRepository, analysisRepo: AnalysisRepository, matchId: nat,
                        weather: Option<WeatherInput>, apiKey: string,
                        model: Prompt -> ModelReply, now: int)
    returns (result: Result<AnalysisResponse>)
    requires matchRepo.Valid() && analysisRepo.Valid()
    modifies matchRepo, analysisRepo
    ensures matchRepo.Valid() && analysisRepo.Valid()
    ensures matchRepo.nextId == old(matchRepo.nextId)
    ensures (matchRepo.rows, AnalysisStore(analysisRepo.rows, analysisRepo.nextId), result)
         == CreateAnalysisSpec(old(matchRepo.rows), old(AnalysisStore(analysisRepo.rows, analysisRepo.nextId)),
                               matchId, weather, apiKey, model, now)
  {
    var k := matchRepo.FindById(matchId);
    if k.None? {
      return Err(NotFoundMatch(matchId));
    }
    var m := matchRepo.rows[k.value];
    var latest := analysisRepo.FindLatest(matchId);
    if latest.Some? && Recent(analysisRepo.rows[latest.value], now) {
      return Ok(MapToResponse(analysisRepo.rows[latest.value], m));
    }
    var text := GenerateAnalysis(m.data, weather, apiKey, model, now);
    var saved := analysisRepo.Append(NewAnalysis(0, matchId, m.data, text, weather, now));
    matchRepo.SetAnalysis(k.value, text, now);
    result := Ok(MapToResponse(saved, m));
  }
}
