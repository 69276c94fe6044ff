/** The fixture cache of backend/src/modules/matches/matches.service.ts: a
    one-hour cache-aside read of the `matches` table in front of TheSportsDB's
    season listing, with an upsert by external id and a stale-cache fallback. */
module MatchesService {
  import opened Wrappers
  import opened Text
  import opened Lists
  import opened Entities

  /** Cached rows younger than this are served without asking upstream. */
  const OneHourMs: int := 60 * 60 * 1000
  /** At most this many cached rows are read. */
  const CacheSize: nat := 50

  /** One element of `events` in the `eventsseason.php` payload. A missing
      string field is the empty string. */
  datatype EventPayload = EventPayload(
    idEvent: string,
    strHomeTeam: string,
    strAwayTeam: string,
    strHomeTeamBadge: string,
    strAwayTeamBadge: string,
    dateEvent: string,
    strTime: string,
    strVenue: string,
    strCity: string,
    strCountry: string,
    intHomeScore: Option<string>,
    intAwayScore: Option<string>,
    strStatus: string)

  /** What the upstream GET gives back: it throws, or it answers with a body
      whose `events` may be missing. */
  datatype EventsReply = RequestFailed(message: string) | Fetched(events: Option<seq<EventPayload>>)

  /** Whether a repository call in the save loop throws, and at which record. */
  datatype StoreFault = Healthy | FailsAt(index: nat, message: string)

  /** The three readings of the clock: the instant, and the calendar year and month (1-12). */
  datatype Clock = Clock(now: int, year: int, month: int)

  /** A `Match` object as the service hands it back: a row read from or saved
      into the table (with its id), or a mapped record the repository never
      filled in (no id, no timestamps). */
  datatype MatchEntity = Persisted(row: MatchRow) | Transient(data: MatchRecord) {
    function Data(): MatchRecord {
      match this
      case Persisted(r) => r.data
      case Transient(d) => d
    }
  }

  /** The `matches` table as a value. */
  datatype Store = Store(rows: seq<MatchRow>, nextId: nat)

  // ---------------------------------------------------------------- helpers

  /** `getCurrentSeason`: "Y-(Y+1)" from August on and "(Y-1)-Y" before it for
      La Liga, the plain year for any other league. */
  function CurrentSeason(league: string, year: int, month: int): string {
    if league == "spanish" then
      if month >= 8 then IntText(year) + "-" + IntText(year + 1)
      else IntText(year - 1) + "-" + IntText(year)
    else IntText(year)
  }

  /** The season label reads back as its starting year and the year after it
      (La Liga), or as the current year (other leagues). */
  lemma SeasonLabelYears(league: string, year: int, month: int)
    requires year >= 1
    ensures var seasonText := CurrentSeason(league, year, month);
      var start := if month >= 8 then year else year - 1;
      var first := BeforeFirst(seasonText, '-');
      && (league == "spanish" ==>
            && first == NatText(start)
            && ParseDigits(first) == start
            && seasonText[|first| + 1..] == NatText(start + 1)
            && ParseDigits(seasonText[|first| + 1..]) == start + 1)
      && (league != "spanish" ==> first == seasonText == NatText(year) && ParseDigits(seasonText) == year)
  {
    if league == "spanish" {
      var start: nat := if month >= 8 then year else year - 1;
      assert CurrentSeason(league, year, month) == NatText(start) + "-" + NatText(start + 1);
      SplitYears(start, start + 1);
    } else {
      NatTextLacks(year, '-');
      BeforeFirstAbsent(NatText(year), '-');
      ParseNatText(year);
    }
  }

  /** "m-n" splits at the dash back into the two numbers. */
  lemma SplitYears(m: nat, n: nat)
    ensures var s := NatText(m) + "-" + NatText(n);
      var first := BeforeFirst(s, '-');
      && first == NatText(m) && ParseDigits(first) == m
      && s[|first| + 1..] == NatText(n) && ParseDigits(s[|first| + 1..]) == n
  {
    var s := NatText(m) + "-" + NatText(n);
    NatTextLacks(m, '-');
    BeforeFirstOfJoin(NatText(m), '-', NatText(n));
    assert s == NatText(m) + ['-'] + NatText(n);
    assert s[|NatText(m)| + 1..] == NatText(n);
    ParseNatText(m);
    ParseNatText(n);
  }

  /** The fixed team-to-city table of `getCityForTeam`. */
  const TeamCities: map<string, string> := map[
    "Real Madrid" := "Madrid",
    "Barcelona" := "Barcelona",
    "Atletico Madrid" := "Madrid",
    "Sevilla" := "Sevilla",
    "LA Galaxy" := "Los Angeles",
    "LAFC" := "Los Angeles"]

  /** `getCityForTeam`: the table entry, or the empty string. */
  function CityForTeam(team: string): (city: string)
    ensures city != "" <==> team in TeamCities
    ensures city in {"", "Madrid", "Barcelona", "Sevilla", "Los Angeles"}
  {
    if team in TeamCities then TeamCities[team] else ""
  }

  /** `event.strCity || getCityForTeam(event.strHomeTeam)`. */
  function ResolveCity(strCity: string, homeTeam: string): (city: string)
    ensures strCity != "" ==> city == strCity
    ensures strCity == "" ==> city == CityForTeam(homeTeam)
    ensures city == "" <==> strCity == "" && homeTeam !in TeamCities
  {
    if strCity != "" then strCity else CityForTeam(homeTeam)
  }

  /** The text handed to `new Date(...)`: the date, `T`, then the time or midnight. */
  function KickoffText(ev: EventPayload): string {
    ev.dateEvent + "T" + (if ev.strTime == "" then "00:00:00" else ev.strTime)
  }

  /** The date part of the kickoff text is the event's own date. */
  lemma KickoffTextDate(ev: EventPayload)
    requires 'T' !in ev.dateEvent
    ensures BeforeFirst(KickoffText(ev), 'T') == ev.dateEvent
  {
    var time := if ev.strTime == "" then "00:00:00" else ev.strTime;
    assert KickoffText(ev) == ev.dateEvent + ['T'] + time;
    BeforeFirstOfJoin(ev.dateEvent, 'T', time);
  }

  /** The record built for one event; `instant` is the date parser. */
  function ToRecord(ev: EventPayload, league: string, season: string, instant: string -> int): MatchRecord {
    MatchRecord(
      externalId := ev.idEvent,
      homeTeam := ev.strHomeTeam,
      awayTeam := ev.strAwayTeam,
      homeTeamBadge := ev.strHomeTeamBadge,
      awayTeamBadge := ev.strAwayTeamBadge,
      league := league,
      season := season,
      dateEvent := instant(KickoffText(ev)),
      venue := ev.strVenue,
      city := ResolveCity(ev.strCity, ev.strHomeTeam),
      country := ev.strCountry,
      homeScore := ev.intHomeScore,
      awayScore := ev.intAwayScore,
      status := ev.strStatus)
  }

  /** The mapping step of `fetchMatchesFromAPI`. */
  function MapEvents(events: Option<seq<EventPayload>>, league: string, season: string, instant: string -> int)
    : (ms: seq<MatchRecord>)
    ensures events.None? ==> ms == []
    ensures events.Some? ==> |ms| == |events.value|
    ensures events.Some? ==> forall i :: 0 <= i < |ms| ==>
      && ms[i].externalId == events.value[i].idEvent
      && ms[i].homeTeam == events.value[i].strHomeTeam
      && ms[i].awayTeam == events.value[i].strAwayTeam
      && ms[i].dateEvent == instant(KickoffText(events.value[i]))
      && ms[i].city == ResolveCity(events.value[i].strCity, events.value[i].strHomeTeam)
    ensures forall i :: 0 <= i < |ms| ==> ms[i].league == league && ms[i].season == season
  {
    match events
    case None => []
    case Some(es) => seq(|es|, i requires 0 <= i < |es| => ToRecord(es[i], league, season, instant))
  }

  // ---------------------------------------------------------------- the cache read

  predicate ForKey(r: MatchRow, league: string, season: string) {
    r.data.league == league && r.data.season == season
  }

  function Kickoff(r: MatchRow): int {
    r.data.dateEvent
  }

  /** The rows of one league and season, in table order. */
  function KeyRows(rows: seq<MatchRow>, league: string, season: string): seq<MatchRow> {
    Filter(rows, r => ForKey(r, league, season))
  }

  /** `find({ where: { league, season }, order: { dateEvent: 'ASC' }, take: 50 })`:
      rows of the key, earliest first, fifty of them or all when fewer. */
  function CacheQuery(rows: seq<MatchRow>, league: string, season: string): (cached: seq<MatchRow>)
    ensures |cached| == if |KeyRows(rows, league, season)| < CacheSize then |KeyRows(rows, league, season)| else CacheSize
    ensures forall i :: 0 <= i < |cached| ==> cached[i] in rows && ForKey(cached[i], league, season)
    ensures SortedBy(cached, Kickoff)
  {
    var sorted := SortBy(KeyRows(rows, league, season), Kickoff);
    forall i | 0 <= i < |sorted| ensures sorted[i] in KeyRows(rows, league, season) {
      SortedMembers(KeyRows(rows, league, season), Kickoff, sorted[i]);
    }
    Prefix(sorted, CacheSize)
  }

  /** The cached rows are the earliest of the key: taken from its rows, and
      no row of the key left out kicks off before the last one kept. */
  lemma CacheQueryEarliest(rows: seq<MatchRow>, league: string, season: string)
    ensures var cached := CacheQuery(rows, league, season);
      && multiset(cached) <= multiset(KeyRows(rows, league, season))
      && (cached != [] ==> forall r :: r in multiset(KeyRows(rows, league, season)) - multiset(cached) ==>
            Kickoff(cached[|cached| - 1]) <= Kickoff(r))
  {
    SortedPrefixSmallest(KeyRows(rows, league, season), Kickoff, CacheSize);
  }

  /** The cache is empty exactly when no row has the key, and its first row,
      the one whose `updatedAt` decides freshness, is the earliest kickoff. */
  lemma CacheHead(rows: seq<MatchRow>, league: string, season: string)
    ensures var cached := CacheQuery(rows, league, season);
      && (cached == [] <==> forall j :: 0 <= j < |rows| ==> !ForKey(rows[j], league, season))
      && (cached != [] ==> forall j :: 0 <= j < |rows| && ForKey(rows[j], league, season) ==>
            Kickoff(cached[0]) <= Kickoff(rows[j]))
  {
    var filtered := KeyRows(rows, league, season);
    var sorted := SortBy(filtered, Kickoff);
    var cached := CacheQuery(rows, league, season);
    assert cached == Prefix(sorted, CacheSize);
    forall j | 0 <= j < |rows| && ForKey(rows[j], league, season)
      ensures cached != [] && Kickoff(cached[0]) <= Kickoff(rows[j])
    {
      assert (r => ForKey(r, league, season))(rows[j]);
      assert rows[j] in filtered;
      SortedMembers(filtered, Kickoff, rows[j]);
      var k :| 0 <= k < |sorted| && sorted[k] == rows[j];
      assert cached[0] == sorted[0];
    }
  }

  /** The gate: `updatedAt > now - 1h`. */
  predicate IsFresh(updatedAt: int, now: int) {
    updatedAt > now - OneHourMs
  }

  // ---------------------------------------------------------------- the upsert

  /** One turn of the `saveMatches` loop: update the row with the same external
      id, or insert a new one. The second component is the `Match` object after
      the call: `save` fills in id and timestamps, `update` leaves it untouched. */
  function Upsert(st: Store, m: MatchRecord, now: int): (Store, MatchEntity) {
    match IndexOfExternalId(st.rows, m.externalId)
    case Some(k) =>
      (Store(st.rows[k := st.rows[k].(data := m, updatedAt := now)], st.nextId), Transient(m))
    case None =>
      var row := MatchRow(st.nextId, m, None, None, now, now);
      (Store(st.rows + [row], st.nextId + 1), Persisted(row))
  }

  /** The whole loop over `ms`, record by record. */
  function SaveAll(st: Store, ms: seq<MatchRecord>, now: int): (Store, seq<MatchEntity>)
    decreases |ms|
  {
    if ms == [] then (st, [])
    else
      var before := SaveAll(st, ms[..|ms| - 1], now);
      var after := Upsert(before.0, ms[|ms| - 1], now);
      (after.0, before.1 + [after.1])
  }

  /** The last record in `ms` with external id `ext`: the one whose fields win. */
  function LastWith(ms: seq<MatchRecord>, ext: string): (r: Option<MatchRecord>)
    ensures r.Some? ==> r.value in ms && r.value.externalId == ext
    ensures r.None? <==> forall j :: 0 <= j < |ms| ==> ms[j].externalId != ext
  {
    if ms == [] then None
    else if ms[|ms| - 1].externalId == ext then Some(ms[|ms| - 1])
    else LastWith(ms[..|ms| - 1], ext)
  }

  lemma UpsertStep(st: Store, m: MatchRecord, now: int)
    requires UniqueExternalIds(st.rows) && UniqueMatchIds(st.rows, st.nextId)
    ensures var (st2, e) := Upsert(st, m, now);
      && UniqueExternalIds(st2.rows) && UniqueMatchIds(st2.rows, st2.nextId)
      && st.nextId <= st2.nextId
      && e.Data() == m
      && IndexOfExternalId(st2.rows, m.externalId).Some?
      && |st.rows| <= |st2.rows| <= |st.rows| + 1
      && (forall i :: 0 <= i < |st.rows| ==>
            st2.rows[i] == (if st.rows[i].data.externalId == m.externalId
                            then st.rows[i].(data := m, updatedAt := now) else st.rows[i]))
      && (forall i :: |st.rows| <= i < |st2.rows| ==>
            st2.rows[i] == MatchRow(st.nextId, m, None, None, now, now))
  {
    var (st2, e) := Upsert(st, m, now);
    match IndexOfExternalId(st.rows, m.externalId)
    case Some(k) =>
      assert IndexOfExternalId(st2.rows, m.externalId).Some? by {
        assert st2.rows[k].data.externalId == m.externalId;
      }
    case None =>
      assert st2.rows[|st.rows|].data.externalId == m.externalId;
  }

  /** One save pass reports one `Match` object per input, in input order. */
  lemma {:induction false} SaveAllReports(st: Store, ms: seq<MatchRecord>, now: int)
    ensures |SaveAll(st, ms, now).1| == |ms|
    ensures forall j :: 0 <= j < |ms| ==> SaveAll(st, ms, now).1[j].Data() == ms[j]
  {
    if ms != [] {
      var init := ms[..|ms| - 1];
      SaveAllReports(st, init, now);
      var es := SaveAll(st, ms, now).1;
      forall j | 0 <= j < |ms| ensures es[j].Data() == ms[j] {
        if j < |ms| - 1 {
          assert ms[j] == init[j];
        }
      }
    }
  }

  /** One save pass keeps the table's keys unique; old rows keep their place,
      id, creation time and external id, and a row whose external id is not
      among the inputs is not touched. */
  lemma {:induction false} SaveAllFrame(st: Store, ms: seq<MatchRecord>, now: int)
    requires UniqueExternalIds(st.rows) && UniqueMatchIds(st.rows, st.nextId)
    ensures var st2 := SaveAll(st, ms, now).0;
      && UniqueExternalIds(st2.rows) && UniqueMatchIds(st2.rows, st2.nextId)
      && |st.rows| <= |st2.rows| && st.nextId <= st2.nextId
      && (forall i :: 0 <= i < |st.rows| ==>
            && st2.rows[i].id == st.rows[i].id
            && st2.rows[i].createdAt == st.rows[i].createdAt
            && st2.rows[i].data.externalId == st.rows[i].data.externalId
            && (LastWith(ms, st.rows[i].data.externalId).None? ==> st2.rows[i] == st.rows[i]))
  {
    if ms != [] {
      var init := ms[..|ms| - 1];
      var x := ms[|ms| - 1];
      SaveAllFrame(st, init, now);
      var mid := SaveAll(st, init, now).0;
      UpsertStep(mid, x, now);
      var st2 := SaveAll(st, ms, now).0;
      assert st2 == Upsert(mid, x, now).0;
      forall i | 0 <= i < |st.rows| && LastWith(ms, st.rows[i].data.externalId).None?
        ensures st2.rows[i] == st.rows[i]
      {
        assert LastWith(ms, st.rows[i].data.externalId) == LastWith(init, st.rows[i].data.externalId);
      }
    }
  }

  /** After one save pass every input has a row. */
  lemma {:induction false} SaveAllPresent(st: Store, ms: seq<MatchRecord>, now: int)
    requires UniqueExternalIds(st.rows) && UniqueMatchIds(st.rows, st.nextId)
    ensures forall j :: 0 <= j < |ms| ==> IndexOfExternalId(SaveAll(st, ms, now).0.rows, ms[j].externalId).Some?
  {
    if ms != [] {
      var init := ms[..|ms| - 1];
      var x := ms[|ms| - 1];
      SaveAllPresent(st, init, now);
      SaveAllFrame(st, init, now);
      var mid := SaveAll(st, init, now).0;
      UpsertStep(mid, x, now);
      var st2 := SaveAll(st, ms, now).0;
      assert st2 == Upsert(mid, x, now).0;
      forall j | 0 <= j < |ms| ensures IndexOfExternalId(st2.rows, ms[j].externalId).Some? {
        if j < |ms| - 1 {
          assert ms[j] == init[j];
          var k := IndexOfExternalId(mid.rows, ms[j].externalId).value;
          assert st2.rows[k].data.externalId == ms[j].externalId;
        }
      }
    }
  }

  /** After one save pass a row whose external id is among the inputs holds
      the last input with that id and was stamped `now`. */
  lemma {:induction false} SaveAllLatest(st: Store, ms: seq<MatchRecord>, now: int)
    requires UniqueExternalIds(st.rows) && UniqueMatchIds(st.rows, st.nextId)
    ensures var st2 := SaveAll(st, ms, now).0;
      forall i :: 0 <= i < |st2.rows| && LastWith(ms, st2.rows[i].data.externalId).Some? ==>
        st2.rows[i].data == LastWith(ms, st2.rows[i].data.externalId).value && st2.rows[i].updatedAt == now
  {
    if ms != [] {
      var init := ms[..|ms| - 1];
      var x := ms[|ms| - 1];
      SaveAllLatest(st, init, now);
      SaveAllFrame(st, init, now);
      var mid := SaveAll(st, init, now).0;
      UpsertStep(mid, x, now);
      var st2 := SaveAll(st, ms, now).0;
      assert st2 == Upsert(mid, x, now).0;
      forall i | 0 <= i < |st2.rows| && LastWith(ms, st2.rows[i].data.externalId).Some?
        ensures st2.rows[i].data == LastWith(ms, st2.rows[i].data.externalId).value
        ensures st2.rows[i].updatedAt == now
      {
        var ext := st2.rows[i].data.externalId;
        if ext != x.externalId {
          assert i < |mid.rows|;
          assert st2.rows[i] == mid.rows[i];
          assert LastWith(ms, ext) == LastWith(init, ext);
        }
      }
    }
  }

  /** A row overwritten by the last record in `ms` with its external id, if any. */
  function RefreshRow(row: MatchRow, ms: seq<MatchRecord>, now: int): MatchRow {
    match LastWith(ms, row.data.externalId)
    case None => row
    case Some(m) => row.(data := m, updatedAt := now)
  }

  /** The table with every row whose external id is in `ms` overwritten by its
      last record there and stamped `now`. */
  function Refreshed(rows: seq<MatchRow>, ms: seq<MatchRecord>, now: int): (r: seq<MatchRow>)
    ensures |r| == |rows|
    ensures forall i :: 0 <= i < |rows| ==> r[i] == RefreshRow(rows[i], ms, now)
  {
    seq(|rows|, i requires 0 <= i < |rows| => RefreshRow(rows[i], ms, now))
  }

  lemma RefreshSnoc(rows: seq<MatchRow>, init: seq<MatchRecord>, x: MatchRecord, n: nat, now: int)
    requires UniqueExternalIds(rows) && IndexOfExternalId(rows, x.externalId).Some?
    ensures Upsert(Store(Refreshed(rows, init, now), n), x, now).0 == Store(Refreshed(rows, init + [x], now), n)
  {
    var mid := Refreshed(rows, init, now);
    var k := IndexOfExternalId(rows, x.externalId).value;
    forall j | 0 <= j < |rows| ensures mid[j].data.externalId == rows[j].data.externalId {
    }
    assert IndexOfExternalId(mid, x.externalId) == Some(k);
    var got := mid[k := mid[k].(data := x, updatedAt := now)];
    var want := Refreshed(rows, init + [x], now);
    forall i | 0 <= i < |rows| ensures got[i] == want[i] {
      var ext := rows[i].data.externalId;
      if ext != x.externalId {
        assert LastWith(init + [x], ext) == LastWith(init, ext) by {
          assert (init + [x])[..|init|] == init;
        }
      } else {
        assert i == k;
      }
    }
  }

  /** Saving records that are all stored already only overwrites rows in place. */
  lemma {:induction false} SaveAllStored(u: Store, ms: seq<MatchRecord>, now: int)
    requires UniqueExternalIds(u.rows)
    requires forall j :: 0 <= j < |ms| ==> IndexOfExternalId(u.rows, ms[j].externalId).Some?
    ensures SaveAll(u, ms, now).0 == Store(Refreshed(u.rows, ms, now), u.nextId)
  {
    if ms != [] {
      var init := ms[..|ms| - 1];
      var x := ms[|ms| - 1];
      assert ms == init + [x];
      forall j | 0 <= j < |init| ensures IndexOfExternalId(u.rows, init[j].externalId).Some? {
        assert init[j] == ms[j];
      }
      SaveAllStored(u, init, now);
      SaveAllSnoc(u, init, x, now);
      RefreshSnoc(u.rows, init, x, u.nextId, now);
    }
  }

  /** The save loop over one more record is one more upsert. */
  lemma SaveAllSnoc(u: Store, init: seq<MatchRecord>, x: MatchRecord, now: int)
    ensures SaveAll(u, init + [x], now).0 == Upsert(SaveAll(u, init, now).0, x, now).0
    ensures SaveAll(u, init + [x], now).1 == SaveAll(u, init, now).1 + [Upsert(SaveAll(u, init, now).0, x, now).1]
  {
    assert (init + [x])[..|init|] == init;
  }

  /** Saving the same list twice leaves the same rows as saving it once, apart
      from `updatedAt`; no row is added and no id is consumed the second time. */
  lemma SaveTwice(st: Store, ms: seq<MatchRecord>, n1: int, n2: int)
    requires UniqueExternalIds(st.rows) && UniqueMatchIds(st.rows, st.nextId)
    ensures var once := SaveAll(st, ms, n1).0;
      var twice := SaveAll(once, ms, n2).0;
      && twice.nextId == once.nextId
      && |twice.rows| == |once.rows|
      && forall i :: 0 <= i < |once.rows| ==>
           twice.rows[i] == once.rows[i].(updatedAt := twice.rows[i].updatedAt)
  {
    SaveAllFrame(st, ms, n1);
    SaveAllPresent(st, ms, n1);
    SaveAllLatest(st, ms, n1);
    var once := SaveAll(st, ms, n1).0;
    SaveAllStored(once, ms, n2);
  }

  // ---------------------------------------------------------------- findAll

  function SeasonFor(league: string, season: Option<string>, clock: Clock): string {
    if Truthy(season) then season.value else CurrentSeason(league, clock.year, clock.month)
  }

  function Served(cached: seq<MatchRow>): (r: seq<MatchEntity>)
    ensures |r| == |cached| && forall i :: 0 <= i < |r| ==> r[i] == Persisted(cached[i])
  {
    seq(|cached|, i requires 0 <= i < |cached| => Persisted(cached[i]))
  }

  /** The catch block: the stale cache when there is one, else the error. */
  function Fallback(cached: seq<MatchRow>, err: HttpError): Result<seq<MatchEntity>> {
    if |cached| > 0 then Ok(Served(cached)) else Err(err)
  }

  /** How many of `n` records the save loop gets through: all of them, unless
      the write of one of them throws, and then exactly those before it. */
  function SavedCount(n: nat, fault: StoreFault): (k: nat)
    ensures k <= n
    ensures k < n <==> fault.FailsAt? && fault.index < n
    ensures k < n ==> k == fault.index
  {
    if fault.FailsAt? && fault.index < n then fault.index else n
  }

  /** The cache was missed or stale, upstream answered and every record was saved. */
  predicate Refetched(st: Store, league: string, season: Option<string>, clock: Clock,
                      instant: string -> int, reply: EventsReply, fault: StoreFault)
  {
    var currentSeason := SeasonFor(league, season, clock);
    var cached := CacheQuery(st.rows, league, currentSeason);
    && !(|cached| > 0 && IsFresh(cached[0].updatedAt, clock.now))
    && reply.Fetched?
    && var ms := MapEvents(reply.events, league, currentSeason, instant);
       SavedCount(|ms|, fault) == |ms|
  }

  /** `findAll` as written: the table after the call and what the call
      returns. After a refresh it returns the mapped objects themselves. */
  function FindAllAsWritten(st: Store, league: string, season: Option<string>, clock: Clock,
                            instant: string -> int, reply: EventsReply, fault: StoreFault)
    : (Store, Result<seq<MatchEntity>>)
  {
    var currentSeason := SeasonFor(league, season, clock);
    var cached := CacheQuery(st.rows, league, currentSeason);
    if |cached| > 0 && IsFresh(cached[0].updatedAt, clock.now) then (st, Ok(Served(cached)))
    else match reply
      case RequestFailed(msg) => (st, Fallback(cached, UpstreamFailed(msg)))
      case Fetched(events) =>
        var ms := MapEvents(events, league, currentSeason, instant);
        var n := SavedCount(|ms|, fault);
        var saved := SaveAll(st, ms[..n], clock.now);
        if n < |ms| then (saved.0, Fallback(cached, StorageFailed(fault.message)))
        else (saved.0, Ok(saved.1))
  }

  /** As written, a refresh that finds an event already stored hands back the
      mapped object, which `update` did not fill in: it has no id, so the
      client cannot ask for that match's details, weather or analysis. */
  lemma RefreshedMatchLacksId(st: Store, league: string, season: Option<string>, clock: Clock,
                              instant: string -> int, ev: EventPayload)
    requires var cached := CacheQuery(st.rows, league, SeasonFor(league, season, clock));
      !(cached != [] && IsFresh(cached[0].updatedAt, clock.now))
    requires IndexOfExternalId(st.rows, ev.idEvent).Some?
    ensures FindAllAsWritten(st, league, season, clock, instant, Fetched(Some([ev])), Healthy).1
         == Ok([Transient(ToRecord(ev, league, SeasonFor(league, season, clock), instant))])
  {
    var currentSeason := SeasonFor(league, season, clock);
    var rec := ToRecord(ev, league, currentSeason, instant);
    var ms := MapEvents(Some([ev]), league, currentSeason, instant);
    assert ms == [rec];
    RefetchAsWritten(st, league, season, clock, instant, Some([ev]));
    SaveExistingRecord(st, rec, clock.now);
  }

  /** A refresh the store does not interrupt returns what the save loop
      hands back. */
  lemma RefetchAsWritten(st: Store, league: string, season: Option<string>, clock: Clock,
                         instant: string -> int, events: Option<seq<EventPayload>>)
    requires var cached := CacheQuery(st.rows, league, SeasonFor(league, season, clock));
      !(cached != [] && IsFresh(cached[0].updatedAt, clock.now))
    ensures var ms := MapEvents(events, league, SeasonFor(league, season, clock), instant);
      FindAllAsWritten(st, league, season, clock, instant, Fetched(events), Healthy).1
        == Ok(SaveAll(st, ms, clock.now).1)
  {
    var ms := MapEvents(events, league, SeasonFor(league, season, clock), instant);
    assert ms[..SavedCount(|ms|, Healthy)] == ms;
  }

  /** Saving one record whose external id is already stored hands back the
      record itself. */
  lemma SaveExistingRecord(st: Store, m: MatchRecord, now: int)
    requires IndexOfExternalId(st.rows, m.externalId).Some?
    ensures SaveAll(st, [m], now).1 == [Transient(m)]
  {
    assert [m][..0] == [];
  }

  /** The stored row for each record, looked up by external id: the row
      itself when the table has one, the record otherwise. */
  function StoredEntities(st: Store, ms: seq<MatchRecord>): (es: seq<MatchEntity>)
    ensures |es| == |ms|
    ensures forall i :: 0 <= i < |ms| ==>
      (es[i].Persisted? <==> exists j :: 0 <= j < |st.rows| && st.rows[j].data.externalId == ms[i].externalId)
    ensures forall i :: 0 <= i < |ms| && es[i].Persisted? ==>
      es[i].row in st.rows && es[i].row.data.externalId == ms[i].externalId
    ensures forall i :: 0 <= i < |ms| && es[i].Transient? ==> es[i].data == ms[i]
  {
    seq(|ms|, i requires 0 <= i < |ms| =>
      match IndexOfExternalId(st.rows, ms[i].externalId)
      case Some(k) => Persisted(st.rows[k])
      case None => Transient(ms[i]))
  }

  /** After a save pass every looked-up object is a stored row with an id: the
      row for that event, holding the event's last record. */
  lemma StoredEntitiesCarryIds(st: Store, ms: seq<MatchRecord>, now: int)
    requires UniqueExternalIds(st.rows) && UniqueMatchIds(st.rows, st.nextId)
    ensures var st2 := SaveAll(st, ms, now).0;
      var es := StoredEntities(st2, ms);
      forall i :: 0 <= i < |ms| ==>
        && es[i].Persisted?
        && es[i].row in st2.rows
        && es[i].row.data.externalId == ms[i].externalId
        && es[i].row.data == LastWith(ms, ms[i].externalId).value
        && es[i].row.id < st2.nextId
  {
    SaveAllFrame(st, ms, now);
    SaveAllPresent(st, ms, now);
    SaveAllLatest(st, ms, now);
    var st2 := SaveAll(st, ms, now).0;
    forall i | 0 <= i < |ms| ensures LastWith(ms, ms[i].externalId).Some? {
      assert ms[i].externalId == ms[i].externalId;
    }
  }

  /** `findAll` as intended: after a complete refresh it returns the stored
      rows for the fetched events. */
  function FindAllSpec(st: Store, league: string, season: Option<string>, clock: Clock,
                       instant: string -> int, reply: EventsReply, fault: StoreFault)
    : (Store, Result<seq<MatchEntity>>)
  {
    var out := FindAllAsWritten(st, league, season, clock, instant, reply, fault);
    if Refetched(st, league, season, clock, instant, reply, fault) then
      var ms := MapEvents(reply.events, league, SeasonFor(league, season, clock), instant);
      (out.0, Ok(StoredEntities(out.0, ms)))
    else out
  }

  /** `findOne`: the row with the given id, or a not-found error naming it. */
  function FindOne(rows: seq<MatchRow>, id: nat): (r: Result<MatchRow>)
    ensures r.Ok? <==> exists j :: 0 <= j < |rows| && rows[j].id == id
    ensures r.Ok? ==> r.value in rows && r.value.id == id
    ensures r.Err? ==> r.error == NotFound("Match with ID " + NatText(id) + " not found")
  {
    match IndexOfMatchId(rows, id)
    case Some(k) => Ok(rows[k])
    case None => Err(NotFound("Match with ID " + NatText(id) + " not found"))
  }

  /** A non-empty cache is handed back as it is, without a write and whatever
      upstream and the table would do, exactly when its first row was updated
      less than an hour ago; a row exactly one hour old is stale. Both as
      written and as corrected. */
  lemma CacheServedIffFresh(st: Store, league: string, season: Option<string>, clock: Clock,
                            instant: string -> int)
    requires CacheQuery(st.rows, league, SeasonFor(league, season, clock)) != []
    ensures var cached := CacheQuery(st.rows, league, SeasonFor(league, season, clock));
      (clock.now - cached[0].updatedAt < OneHourMs) <==>
        forall reply: EventsReply, fault: StoreFault ::
          FindAllSpec(st, league, season, clock, instant, reply, fault) == (st, Ok(Served(cached)))
    ensures var cached := CacheQuery(st.rows, league, SeasonFor(league, season, clock));
      (clock.now - cached[0].updatedAt < OneHourMs) <==>
        forall reply: EventsReply, fault: StoreFault ::
          FindAllAsWritten(st, league, season, clock, instant, reply, fault) == (st, Ok(Served(cached)))
  {
    var cached := CacheQuery(st.rows, league, SeasonFor(league, season, clock));
    if !IsFresh(cached[0].updatedAt, clock.now) {
      assert MapEvents(Some([]), league, SeasonFor(league, season, clock), instant) == [];
      assert |Served(cached)| > 0;
      assert FindAllSpec(st, league, season, clock, instant, Fetched(Some([])), Healthy).1 == Ok([]);
      assert FindAllAsWritten(st, league, season, clock, instant, Fetched(Some([])), Healthy).1 == Ok([]);
    }
  }

  /** A fresh cache is served whatever upstream and the table would do. */
  lemma FreshCacheIgnoresUpstream(st: Store, league: string, season: Option<string>, clock: Clock,
                                  instant: string -> int, r1: EventsReply, f1: StoreFault,
                                  r2: EventsReply, f2: StoreFault)
    requires var cached := CacheQuery(st.rows, league, SeasonFor(league, season, clock));
      cached != [] && IsFresh(cached[0].updatedAt, clock.now)
    ensures FindAllSpec(st, league, season, clock, instant, r1, f1)
         == FindAllSpec(st, league, season, clock, instant, r2, f2)
    ensures FindAllSpec(st, league, season, clock, instant, r1, f1).0 == st
    ensures FindAllAsWritten(st, league, season, clock, instant, r1, f1)
         == FindAllAsWritten(st, league, season, clock, instant, r2, f2)
    ensures FindAllAsWritten(st, league, season, clock, instant, r1, f1).0 == st
  {
  }

  /** An empty or stale cache goes upstream. A failed request leaves the
      table alone and returns the stale cache, or the error when there is
      none. A successful one is saved and returned as one stored row per
      event, in event order; as written, the save loop's own objects are
      returned instead. */
  lemma StaleCacheFetches(st: Store, league: string, season: Option<string>, clock: Clock,
                          instant: string -> int, reply: EventsReply)
    requires UniqueExternalIds(st.rows) && UniqueMatchIds(st.rows, st.nextId)
    requires var cached := CacheQuery(st.rows, league, SeasonFor(league, season, clock));
      !(cached != [] && IsFresh(cached[0].updatedAt, clock.now))
    ensures var cached := CacheQuery(st.rows, league, SeasonFor(league, season, clock));
      var out := FindAllSpec(st, league, season, clock, instant, reply, Healthy);
      && (reply.RequestFailed? ==> out.0 == st)
      && (reply.RequestFailed? && cached == [] ==> out.1 == Err(UpstreamFailed(reply.message)))
      && (reply.RequestFailed? && cached != [] ==> out.1 == Ok(Served(cached)))
    ensures var ms := MapEvents(if reply.Fetched? then reply.events else None, league,
                                SeasonFor(league, season, clock), instant);
      var out := FindAllSpec(st, league, season, clock, instant, reply, Healthy);
      reply.Fetched? ==>
        && out.0 == SaveAll(st, ms, clock.now).0
        && out.1.Ok? && |out.1.value| == |ms|
        && (forall i :: 0 <= i < |ms| ==>
              out.1.value[i].Persisted? && out.1.value[i].row.data.externalId == ms[i].externalId)
    ensures var ms := MapEvents(if reply.Fetched? then reply.events else None, league,
                                SeasonFor(league, season, clock), instant);
      var out := FindAllAsWritten(st, league, season, clock, instant, reply, Healthy);
      reply.Fetched? ==> out == (SaveAll(st, ms, clock.now).0, Ok(SaveAll(st, ms, clock.now).1))
  {
    if reply.Fetched? {
      var ms := MapEvents(reply.events, league, SeasonFor(league, season, clock), instant);
      assert ms[..SavedCount(|ms|, Healthy)] == ms;
      StoredEntitiesCarryIds(st, ms, clock.now);
    }
  }

  /** When the fetch or the save throws after the cache was found stale: a
      non-empty cache is returned as it was read, an empty one lets the error
      through. A failed fetch writes nothing; a failed save keeps the rows it
      wrote before the failing record. */
  lemma FailureFallsBack(st: Store, league: string, season: Option<string>, clock: Clock,
                         instant: string -> int, reply: EventsReply, fault: StoreFault)
    requires var cached := CacheQuery(st.rows, league, SeasonFor(league, season, clock));
      !(cached != [] && IsFresh(cached[0].updatedAt, clock.now))
    requires var ms := MapEvents(if reply.Fetched? then reply.events else None, league,
                                 SeasonFor(league, season, clock), instant);
      reply.RequestFailed? || (fault.FailsAt? && fault.index < |ms|)
    ensures var cached := CacheQuery(st.rows, league, SeasonFor(league, season, clock));
      var ms := MapEvents(if reply.Fetched? then reply.events else None, league,
                          SeasonFor(league, season, clock), instant);
      var out := FindAllSpec(st, league, season, clock, instant, reply, fault);
      && (cached != [] ==> out.1 == Ok(Served(cached)))
      && (cached == [] ==> out.1.Err?)
      && (reply.RequestFailed? ==> out.0 == st)
      && (reply.Fetched? ==> out.0 == SaveAll(st, ms[..fault.index], clock.now).0)
    ensures FindAllAsWritten(st, league, season, clock, instant, reply, fault)
         == FindAllSpec(st, league, season, clock, instant, reply, fault)
  {
  }

  // ---------------------------------------------------------------- the methods

  /** `saveMatches`: the loop over the mapped records. It returns the `Match`
      objects as the loop leaves them and the error that stopped it, if any. */
  method SaveMatches(repo: MatchRepository, matches: seq<MatchRecord>, now: int, fault: StoreFault)
    returns (saved: seq<MatchEntity>, failure: Option<HttpError>)
    requires repo.Valid()
    modifies repo
    ensures repo.Valid()
    ensures var n := SavedCount(|matches|, fault);
      var after := SaveAll(old(Store(repo.rows, repo.nextId)), matches[..n], now);
      && Store(repo.rows, repo.nextId) == after.0
      && saved == after.1
      && failure == (if n < |matches| then Some(StorageFailed(fault.message)) else None)
  {
    ghost var st0 := Store(repo.rows, repo.nextId);
    var n := SavedCount(|matches|, fault);
    var i := 0;
    saved := [];
    while i < n
      invariant 0 <= i <= n
      invariant repo.Valid()
      invariant Store(repo.rows, repo.nextId) == SaveAll(st0, matches[..i], now).0
      invariant saved == SaveAll(st0, matches[..i], now).1
    {
      var m := matches[i];
      ghost var step := Upsert(Store(repo.rows, repo.nextId), m, now);
      SaveAllSnoc(st0, matches[..i], m, now);
      assert matches[..i] + [m] == matches[..i + 1];
      var k := repo.FindByExternalId(m.externalId);
      if k.Some? {
        repo.Update(k.value, m, now);
        saved := saved + [Transient(m)];
      } else {
        var row := repo.Insert(m, now);
        saved := saved + [Persisted(row)];
      }
      assert Store(repo.rows, repo.nextId) == step.0 && saved[|saved| - 1] == step.1;
      i := i + 1;
    }
    failure := if n < |matches| then Some(StorageFailed(fault.message)) else None;
  }

  /** `findAll`, returning the stored rows after a refresh. */
  method FindAll(repo: MatchRepository, league: string, season: Option<string>, clock: Clock,
                 instant: string -> int, reply: EventsReply, fault: StoreFault)
    returns (result: Result<seq<MatchEntity>>)
    requires repo.Valid()
    modifies repo
    ensures repo.Valid()
    ensures (Store(repo.rows, repo.nextId), result)
         == FindAllSpec(old(Store(repo.rows, repo.nextId)), league, season, clock, instant, reply, fault)
  {
    var currentSeason := SeasonFor(league, season, clock);
    var cached := CacheQuery(repo.rows, league, currentSeason);
    if |cached| > 0 && IsFresh(cached[0].updatedAt, clock.now) {
      return Ok(Served(cached));
    }
    match reply {
      case RequestFailed(msg) =>
        result := Fallback(cached, UpstreamFailed(msg));
      case Fetched(events) =>
        var matches := MapEvents(events, league, currentSeason, instant);
        var saved, failure := SaveMatches(repo, matches, clock.now, fault);
        if failure.Some? {
          result := Fallback(cached, failure.value);
        } else {
          assert matches[..|matches|] == matches;
          result := Ok(StoredEntities(Store(repo.rows, repo.nextId), matches));
        }
    }
  }
}
