/** The derived values of the signed-in dashboard
    (frontend/src/pages/Dashboard.tsx): the countdown to the season start,
    the favourite test, the de-duplicated team list and its search, the
    favourite teams' matches and the next match. Dates are millisecond
    timestamps; `instant` parses a match's date text. */
module DashboardPage {
  import opened Wrappers
  import opened Text
  import opened Lists
  import opened ClientTypes

  const SecondMs: nat := 1000
  const MinuteMs: nat := 60000
  const HourMs: nat := 3600000
  const DayMs: nat := 86400000

  /** How many favourite-team matches the dashboard lists. */
  const FavoriteMatchesShown: nat := 5

  datatype Countdown = Countdown(days: int, hours: int, minutes: int, seconds: int)

  /** The split of a positive remaining time into days, hours, minutes and
      seconds, each part the floor of its quotient. */
  function CountdownOf(diff: nat): (c: Countdown)
    ensures c.days >= 0
    ensures 0 <= c.hours < 24 && 0 <= c.minutes < 60 && 0 <= c.seconds < 60
    ensures var shown := c.days * DayMs + c.hours * HourMs + c.minutes * MinuteMs + c.seconds * SecondMs;
      shown <= diff < shown + SecondMs
  {
    CountdownParts(diff);
    Countdown(diff / DayMs, (diff % DayMs) / HourMs, (diff % HourMs) / MinuteMs, (diff % MinuteMs) / SecondMs)
  }

  /** Each remainder splits into the next unit and the next remainder. */
  lemma CountdownParts(diff: nat)
    ensures diff == (diff / DayMs) * DayMs + diff % DayMs
    ensures diff % DayMs == ((diff % DayMs) / HourMs) * HourMs + diff % HourMs
    ensures diff % HourMs == ((diff % HourMs) / MinuteMs) * MinuteMs + diff % MinuteMs
    ensures diff % MinuteMs == ((diff % MinuteMs) / SecondMs) * SecondMs + diff % SecondMs
    ensures (diff % DayMs) / HourMs < 24 && (diff % HourMs) / MinuteMs < 60 && (diff % MinuteMs) / SecondMs < 60
  {
    var p, q, r, t := diff / DayMs, diff / HourMs, diff / MinuteMs, diff / SecondMs;
    assert diff % DayMs == HourMs * (q - 24 * p) + diff % HourMs;
    assert diff % HourMs == MinuteMs * (r - 60 * q) + diff % MinuteMs;
    assert diff % MinuteMs == SecondMs * (t - 60 * r) + diff % SecondMs;
  }

  /** One tick of the timer: `diff` is the season start minus now. The
      countdown moves only while the start lies ahead. */
  function Tick(current: Countdown, diff: int): (c: Countdown)
    ensures diff <= 0 ==> c == current
    ensures diff > 0 ==> 0 <= c.hours < 24 && 0 <= c.minutes < 60 && 0 <= c.seconds < 60
    ensures diff > 0 ==> c.days * DayMs + c.hours * HourMs + c.minutes * MinuteMs + c.seconds * SecondMs
                          <= diff <
                          c.days * DayMs + c.hours * HourMs + c.minutes * MinuteMs + c.seconds * SecondMs + SecondMs
  {
    if diff > 0 then CountdownOf(diff) else current
  }

  /** `isFavorite`: some favourite has this team name. */
  function IsFavorite(favorites: seq<Favorite>, teamName: string): (b: bool)
    ensures b <==> exists i :: 0 <= i < |favorites| && favorites[i].teamName == teamName
  {
    if favorites == [] then false
    else if favorites[0].teamName == teamName then true
    else
      var b := IsFavorite(favorites[1..], teamName);
      assert b ==> exists i :: 1 <= i < |favorites| && favorites[i].teamName == teamName by {
        if b {
          var i :| 0 <= i < |favorites[1..]| && favorites[1..][i].teamName == teamName;
          assert favorites[i + 1].teamName == teamName;
        }
      }
      b
  }

  /** A team of the list: name, badge and league. */
  datatype Team = Team(name: string, badge: Option<string>, league: string)

  function TeamsOf(m: ClientMatch): seq<Team> {
    [Team(m.homeTeam, m.homeTeamBadge, m.league), Team(m.awayTeam, m.awayTeamBadge, m.league)]
  }

  /** `allTeams`: both teams of every match, each (name, badge, league)
      once, in first-seen order, without the unnamed ones. */
  function AllTeams(ms: seq<ClientMatch>): (r: seq<Team>)
    ensures forall i, j :: 0 <= i < j < |r| ==> r[i] != r[j]
    ensures forall t :: t in r ==> t.name != ""
    ensures forall t :: t in r <==> t.name != "" && exists m :: m in ms && t in TeamsOf(m)
  {
    var all := FlatMap(ms, TeamsOf);
    var unique := Dedup(all);
    var r := Filter(unique, (t: Team) => t.name != "");
    FilterDistinct(unique, (t: Team) => t.name != "");
    forall t ensures t in r <==> t.name != "" && exists m :: m in ms && t in TeamsOf(m) {
      if t in r {
        assert t in unique;
        assert t in all;
        var i :| 0 <= i < |ms| && t in TeamsOf(ms[i]);
      }
      if t.name != "" && exists m :: m in ms && t in TeamsOf(m) {
        var m :| m in ms && t in TeamsOf(m);
        var i :| 0 <= i < |ms| && ms[i] == m;
        assert t in all;
        var k :| 0 <= k < |all| && all[k] == t;
        assert t in unique;
      }
    }
    r
  }

  /** The team search: the lower-cased search text occurs in the
      lower-cased name; the list order is kept. */
  function TeamSearch(teams: seq<Team>, search: string): (r: seq<Team>)
    ensures forall t :: t in r <==> t in teams && Contains(ToLower(t.name), ToLower(search))
    ensures |r| <= |teams|
  {
    Filter(teams, (t: Team) => Contains(ToLower(t.name), ToLower(search)))
  }

  /** A match of a favourite team, home or away. */
  predicate HasFavoriteTeam(favorites: seq<Favorite>, m: ClientMatch) {
    IsFavorite(favorites, m.homeTeam) || IsFavorite(favorites, m.awayTeam)
  }

  /** `favoriteMatches`: the first five matches, in list order, with a
      favourite team. */
  function FavoriteMatches(ms: seq<ClientMatch>, favorites: seq<Favorite>): (r: seq<ClientMatch>)
    ensures |r| <= FavoriteMatchesShown
    ensures forall i :: 0 <= i < |r| ==> r[i] in ms && HasFavoriteTeam(favorites, r[i])
    ensures r <= Filter(ms, (m: ClientMatch) => HasFavoriteTeam(favorites, m))
    ensures |r| < FavoriteMatchesShown ==> r == Filter(ms, (m: ClientMatch) => HasFavoriteTeam(favorites, m))
  {
    Prefix(Filter(ms, (m: ClientMatch) => HasFavoriteTeam(favorites, m)), FavoriteMatchesShown)
  }

  /** `upcomingMatches`: the matches after `now`, soonest first; matches on
      the same instant keep their order. */
  function UpcomingMatches(ms: seq<ClientMatch>, now: int, instant: string -> int): (r: seq<ClientMatch>)
    ensures forall i :: 0 <= i < |r| ==> instant(r[i].dateEvent) > now
    ensures forall i, j :: 0 <= i < j < |r| ==> instant(r[i].dateEvent) <= instant(r[j].dateEvent)
    ensures forall m :: m in r <==> m in ms && instant(m.dateEvent) > now
    ensures multiset(r) == multiset(Filter(ms, (m: ClientMatch) => instant(m.dateEvent) > now))
  {
    var ahead := Filter(ms, (m: ClientMatch) => instant(m.dateEvent) > now);
    var r := SortBy(ahead, (m: ClientMatch) => instant(m.dateEvent));
    assert SortedBy(r, (m: ClientMatch) => instant(m.dateEvent));
    forall m ensures m in r <==> m in ahead {
      SortedMembers(ahead, (m: ClientMatch) => instant(m.dateEvent), m);
    }
    forall i | 0 <= i < |r| ensures instant(r[i].dateEvent) > now {
      assert r[i] in ahead;
    }
    r
  }

  /** `nextMatch`: the first of the upcoming matches. */
  function NextMatch(ms: seq<ClientMatch>, now: int, instant: string -> int): (r: Option<ClientMatch>)
    ensures r.Some? <==> exists m :: m in ms && instant(m.dateEvent) > now
    ensures r.Some? ==> r.value in ms && instant(r.value.dateEvent) > now
    ensures r.Some? ==> forall m :: m in ms && instant(m.dateEvent) > now ==>
      instant(r.value.dateEvent) <= instant(m.dateEvent)
  {
    var up := UpcomingMatches(ms, now, instant);
    if up == [] then None
    else
      assert forall m :: m in up ==> instant(up[0].dateEvent) <= instant(m.dateEvent);
      Some(up[0])
  }
}
