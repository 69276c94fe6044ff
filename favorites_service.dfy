/** The favourite teams of backend/src/modules/favorites/favorites.service.ts:
    an idempotent add keyed by user and team name, with the team's details
    looked up on TheSportsDB when the request lacks them, a remove that fails
    on a missing row, and the two pass-through fixture lists of a team. */
module FavoritesService {
  import opened Wrappers
  import opened Lists

  /** How many past matches of a team are listed when no count is given. */
  const DefaultLastCount: nat := 5
  const NotFoundMessage: string := "Favorito no encontrado"

  /** The optional team columns, shared by the request and the table. */
  datatype TeamInfo = TeamInfo(
    teamId: Option<string>,
    teamBadge: Option<string>,
    stadium: Option<string>,
    stadiumCapacity: Option<string>,
    foundedYear: Option<string>,
    teamDescription: Option<string>,
    website: Option<string>,
    twitter: Option<string>,
    instagram: Option<string>,
    facebook: Option<string>)

  /** `AddFavoriteDto`. */
  datatype AddFavoriteRequest = AddFavoriteRequest(teamName: string, league: string, info: TeamInfo)

  /** A row of the `favorites` table. */
  datatype FavoriteRow = FavoriteRow(
    id: nat,
    userId: nat,
    teamName: string,
    league: string,
    info: TeamInfo,
    createdAt: int)

  /** One element of `teams` in the `searchteams.php` payload. */
  datatype TeamPayload = TeamPayload(
    idTeam: Option<string>,
    strBadge: Option<string>,
    strStadium: Option<string>,
    intStadiumCapacity: Option<string>,
    intFormedYear: Option<string>,
    strDescriptionES: Option<string>,
    strDescriptionEN: Option<string>,
    strWebsite: Option<string>,
    strTwitter: Option<string>,
    strInstagram: Option<string>,
    strFacebook: Option<string>)

  /** What a TheSportsDB GET gives back: it throws, or it answers with a
      body whose list member may be missing. */
  datatype ListReply<T> = CallFailed | Answered(items: Option<seq<T>>)

  /** `fetchTeamData`: the details of the first team found, or nothing when
      the call fails or finds no team. The description is the Spanish one
      when it is non-empty, else the English one. */
  function FetchTeamData(reply: ListReply<TeamPayload>): (info: Option<TeamInfo>)
    ensures info.Some? <==> reply.Answered? && reply.items.Some? && |reply.items.value| > 0
    ensures info.Some? ==>
      var team := reply.items.value[0];
      && info.value.teamId == team.idTeam
      && info.value.stadium == team.strStadium
      && info.value.teamDescription == OrElse(team.strDescriptionES, team.strDescriptionEN)
  {
    match reply
    case CallFailed => None
    case Answered(teams) =>
      if teams.None? || |teams.value| == 0 then None
      else
        var team := teams.value[0];
        Some(TeamInfo(
          teamId := team.idTeam,
          teamBadge := team.strBadge,
          stadium := team.strStadium,
          stadiumCapacity := team.intStadiumCapacity,
          foundedYear := team.intFormedYear,
          teamDescription := OrElse(team.strDescriptionES, team.strDescriptionEN),
          website := team.strWebsite,
          twitter := team.strTwitter,
          instagram := team.strInstagram,
          facebook := team.strFacebook))
  }

  /** The lookup is made only when the stadium or the team id is missing or empty. */
  predicate NeedsLookup(dto: AddFavoriteRequest) {
    !Truthy(dto.info.stadium) || !Truthy(dto.info.teamId)
  }

  /** The team columns stored by `addFavorite`: the request's, or, after a
      lookup that found the team, the fetched ones, which replace all ten
      (a field the payload lacks replaces a given one with nothing). */
  function TeamColumns(dto: AddFavoriteRequest, reply: ListReply<TeamPayload>): (info: TeamInfo)
    ensures !NeedsLookup(dto) ==> info == dto.info
    ensures NeedsLookup(dto) && FetchTeamData(reply).Some? ==> info == FetchTeamData(reply).value
    ensures NeedsLookup(dto) && FetchTeamData(reply).None? ==> info == dto.info
  {
    if NeedsLookup(dto) then FetchTeamData(reply).GetOr(dto.info) else dto.info
  }

  /** The `favorites` table as a value. */
  datatype FavoriteStore = FavoriteStore(rows: seq<FavoriteRow>, nextId: nat)

  /** At most one row per user and team name. */
  ghost predicate UniquePairs(rows: seq<FavoriteRow>) {
    forall i, j :: 0 <= i < j < |rows| ==>
      rows[i].userId != rows[j].userId || rows[i].teamName != rows[j].teamName
  }

  /** `findOne({ where: { userId, teamName } })`: the first matching row. */
  function IndexOfFavorite(rows: seq<FavoriteRow>, userId: nat, teamName: string): (k: Option<nat>)
    ensures k.Some? ==> k.value < |rows| && rows[k.value].userId == userId && rows[k.value].teamName == teamName
    ensures k.Some? ==> forall j :: 0 <= j < k.value ==> !(rows[j].userId == userId && rows[j].teamName == teamName)
    ensures k.None? ==> forall j :: 0 <= j < |rows| ==> !(rows[j].userId == userId && rows[j].teamName == teamName)
  {
    if rows == [] then None
    else if rows[0].userId == userId && rows[0].teamName == teamName then Some(0)
    else match IndexOfFavorite(rows[1..], userId, teamName)
      case None => None
      case Some(k) => Some(k + 1)
  }

  /** `addFavorite`: the table after the call and the row returned. */
  function AddFavoriteSpec(st: FavoriteStore, userId: nat, dto: AddFavoriteRequest,
                           reply: ListReply<TeamPayload>, now: int): (FavoriteStore, FavoriteRow)
  {
    match IndexOfFavorite(st.rows, userId, dto.teamName)
    case Some(k) => (st, st.rows[k])
    case None =>
      var row := FavoriteRow(st.nextId, userId, dto.teamName, dto.league, TeamColumns(dto, reply), now);
      (FavoriteStore(st.rows + [row], st.nextId + 1), row)
  }

  /** An existing favourite is returned as it is and nothing changes;
      otherwise exactly one row for the user and team is appended. */
  lemma AddFavoriteEffect(st: FavoriteStore, userId: nat, dto: AddFavoriteRequest,
                          reply: ListReply<TeamPayload>, now: int)
    requires UniquePairs(st.rows)
    ensures var (st2, row) := AddFavoriteSpec(st, userId, dto, reply, now);
      && UniquePairs(st2.rows)
      && row.userId == userId && row.teamName == dto.teamName
      && row in st2.rows
      && (IndexOfFavorite(st.rows, userId, dto.teamName).Some? ==> st2 == st && row in st.rows)
      && (IndexOfFavorite(st.rows, userId, dto.teamName).None? ==>
            && st2.rows == st.rows + [row]
            && row.league == dto.league
            && row.info == TeamColumns(dto, reply)
            && row.createdAt == now)
  {
  }

  /** Adding the same favourite twice is the same as adding it once, whatever
      the second lookup would answer. */
  lemma AddFavoriteIdempotent(st: FavoriteStore, userId: nat, dto: AddFavoriteRequest,
                              r1: ListReply<TeamPayload>, r2: ListReply<TeamPayload>, n1: int, n2: int)
    ensures var once := AddFavoriteSpec(st, userId, dto, r1, n1);
      AddFavoriteSpec(once.0, userId, dto, r2, n2) == once
  {
    var once := AddFavoriteSpec(st, userId, dto, r1, n1);
    if IndexOfFavorite(st.rows, userId, dto.teamName).None? {
      var k := |st.rows|;
      assert once.0.rows[k] == once.1;
      assert IndexOfFavorite(once.0.rows, userId, dto.teamName) == Some(k);
    }
  }

  /** A request that carries both a stadium and a team id never triggers the
      lookup: the stored row does not depend on the remote answer. */
  lemma CompleteRequestSkipsLookup(st: FavoriteStore, userId: nat, dto: AddFavoriteRequest,
                                   r1: ListReply<TeamPayload>, r2: ListReply<TeamPayload>, now: int)
    requires Truthy(dto.info.stadium) && Truthy(dto.info.teamId)
    ensures AddFavoriteSpec(st, userId, dto, r1, now) == AddFavoriteSpec(st, userId, dto, r2, now)
  {
  }

  /** `removeFavorite`: the table after the call, and the error if the row is missing. */
  function RemoveFavoriteSpec(st: FavoriteStore, userId: nat, teamName: string)
    : (out: (FavoriteStore, Option<HttpError>))
    ensures out.1.Some? <==> IndexOfFavorite(st.rows, userId, teamName).None?
    ensures out.1.Some? ==> out == (st, Some(NotFound(NotFoundMessage)))
    ensures out.1.None? ==> |out.0.rows| == |st.rows| - 1 && out.0.nextId == st.nextId
  {
    match IndexOfFavorite(st.rows, userId, teamName)
    case None => (st, Some(NotFound(NotFoundMessage)))
    case Some(k) => (FavoriteStore(st.rows[..k] + st.rows[k + 1..], st.nextId), None)
  }

  /** A successful remove deletes that user's row for the team and keeps every
      other row, in order. */
  lemma RemoveFavoriteEffect(st: FavoriteStore, userId: nat, teamName: string)
    requires UniquePairs(st.rows)
    requires IndexOfFavorite(st.rows, userId, teamName).Some?
    ensures var st2 := RemoveFavoriteSpec(st, userId, teamName).0;
      && UniquePairs(st2.rows)
      && IndexOfFavorite(st2.rows, userId, teamName).None?
      && (forall r :: r in st.rows && !(r.userId == userId && r.teamName == teamName) ==> r in st2.rows)
      && (forall r :: r in st2.rows ==> r in st.rows)
  {
    var k := IndexOfFavorite(st.rows, userId, teamName).value;
    assert RemoveFavoriteSpec(st, userId, teamName).0.rows == st.rows[..k] + st.rows[k + 1..];
    RemovePreservesUnique(st.rows, k);
    RemoveLeavesNoPair(st.rows, k);
    RemoveAtMembers(st.rows, k);
  }

  /** Deleting one row keeps the (user, team) pairs unique. */
  lemma RemovePreservesUnique(rows: seq<FavoriteRow>, k: nat)
    requires UniquePairs(rows) && k < |rows|
    ensures UniquePairs(rows[..k] + rows[k + 1..])
  {
    var r := rows[..k] + rows[k + 1..];
    RemoveAtShifts(rows, k);
    forall i, j | 0 <= i < j < |r| ensures r[i].userId != r[j].userId || r[i].teamName != r[j].teamName {
      var i0 := if i < k then i else i + 1;
      var j0 := if j < k then j else j + 1;
      assert r[i] == rows[i0] && r[j] == rows[j0];
    }
  }

  /** With unique pairs, deleting the row of a pair leaves no row of it. */
  lemma RemoveLeavesNoPair(rows: seq<FavoriteRow>, k: nat)
    requires UniquePairs(rows) && k < |rows|
    ensures IndexOfFavorite(rows[..k] + rows[k + 1..], rows[k].userId, rows[k].teamName).None?
  {
    var r := rows[..k] + rows[k + 1..];
    RemoveAtShifts(rows, k);
    forall j | 0 <= j < |r| ensures !(r[j].userId == rows[k].userId && r[j].teamName == rows[k].teamName) {
      var j0 := if j < k then j else j + 1;
      assert r[j] == rows[j0];
    }
  }
  /** Removing a favourite that was just added restores the table's rows. */
  lemma AddThenRemove(st: FavoriteStore, userId: nat, dto: AddFavoriteRequest,
                      reply: ListReply<TeamPayload>, now: int)
    requires IndexOfFavorite(st.rows, userId, dto.teamName).None?
    ensures var added := AddFavoriteSpec(st, userId, dto, reply, now).0;
      RemoveFavoriteSpec(added, userId, dto.teamName) == (FavoriteStore(st.rows, st.nextId + 1), None)
  {
    var added := AddFavoriteSpec(st, userId, dto, reply, now).0;
    var k := |st.rows|;
    assert IndexOfFavorite(added.rows, userId, dto.teamName) == Some(k) by {
      assert added.rows[k].userId == userId && added.rows[k].teamName == dto.teamName;
    }
    assert added.rows[..k] + added.rows[k + 1..] == st.rows;
  }

  function NewestFirst(r: FavoriteRow): int {
    -r.createdAt
  }

  /** `getUserFavorites`: the user's rows, newest first. */
  function UserFavorites(rows: seq<FavoriteRow>, userId: nat): (r: seq<FavoriteRow>)
    ensures forall i :: 0 <= i < |r| ==> r[i] in rows && r[i].userId == userId
    ensures forall i, j :: 0 <= i < j < |r| ==> r[i].createdAt >= r[j].createdAt
  {
    var mine := Filter(rows, (f: FavoriteRow) => f.userId == userId);
    var sorted := SortBy(mine, NewestFirst);
    forall i | 0 <= i < |sorted| ensures sorted[i] in mine {
      SortedMembers(mine, NewestFirst, sorted[i]);
    }
    sorted
  }

  /** Every row of the user is listed, and it is listed once per copy. */
  lemma UserFavoritesComplete(rows: seq<FavoriteRow>, userId: nat, f: FavoriteRow)
    ensures f in UserFavorites(rows, userId) <==> f in rows && f.userId == userId
  {
    var mine := Filter(rows, (g: FavoriteRow) => g.userId == userId);
    SortedMembers(mine, NewestFirst, f);
  }

  /** `getTeamNextMatch`: the first upcoming event, or nothing. */
  function TeamNextMatch<T>(reply: ListReply<T>): (r: Option<T>)
    ensures r.Some? <==> reply.Answered? && reply.items.Some? && |reply.items.value| > 0
    ensures r.Some? ==> r.value == reply.items.value[0]
  {
    match reply
    case CallFailed => None
    case Answered(events) =>
      if events.Some? && |events.value| > 0 then Some(events.value[0]) else None
  }

  /** The `count` argument of `getTeamLastMatches`, five when omitted (as the
      controller always does). */
  function LastCount(count: Option<nat>): (n: nat)
    ensures count.None? ==> n == DefaultLastCount
    ensures count.Some? ==> n == count.value
  {
    if count.Some? then count.value else DefaultLastCount
  }

  /** `getTeamLastMatches`: the first `count` past results (all of them when
      there are fewer), or none. */
  function TeamLastMatches<T>(reply: ListReply<T>, count: Option<nat>): (r: seq<T>)
    ensures |r| <= LastCount(count)
    ensures reply.Answered? && reply.items.Some? ==> r <= reply.items.value
    ensures reply.Answered? && reply.items.Some? ==>
      |r| == if LastCount(count) < |reply.items.value| then LastCount(count) else |reply.items.value|
    ensures reply.CallFailed? || reply.items.None? ==> r == []
  {
    match reply
    case CallFailed => []
    case Answered(events) =>
      if events.Some? then Prefix(events.value, LastCount(count)) else []
  }

  /** The `favorites` repository. */
  class FavoriteRepository {
    var rows: seq<FavoriteRow>
    var nextId: nat

    ghost predicate Valid()
      reads this
    {
      UniquePairs(rows) && forall i :: 0 <= i < |rows| ==> rows[i].id < nextId
    }

    constructor ()
      ensures Valid() && rows == [] && nextId == 0
    {
      rows := [];
      nextId := 0;
    }

    /** Scans for the user's row for the team. */
    method Find(userId: nat, teamName: string) returns (k: Option<nat>)
      ensures k == IndexOfFavorite(rows, userId, teamName)
    {
      var i := 0;
      while i < |rows|
        invariant 0 <= i <= |rows|
        invariant forall j :: 0 <= j < i ==> !(rows[j].userId == userId && rows[j].teamName == teamName)
      {
        if rows[i].userId == userId && rows[i].teamName == teamName {
          return Some(i);
        }
        i := i + 1;
      }
      return None;
    }

    /** `addFavorite`. */
    method Add(userId: nat, dto: AddFavoriteRequest, reply: ListReply<TeamPayload>, now: int)
      returns (row: FavoriteRow)
      requires Valid()
      modifies this
      ensures Valid()
      ensures (FavoriteStore(rows, nextId), row)
           == AddFavoriteSpec(old(FavoriteStore(rows, nextId)), userId, dto, reply, now)
    {
      var k := Find(userId, dto.teamName);
      if k.Some? {
        return rows[k.value];
      }
      var info := dto.info;
      if NeedsLookup(dto) {
        var fetched := FetchTeamData(reply);
        if fetched.Some? {
          info := fetched.value;
        }
      }
      row := FavoriteRow(nextId, userId, dto.teamName, dto.league, info, now);
      AddFavoriteEffect(FavoriteStore(rows, nextId), userId, dto, reply, now);
      rows := rows + [row];
      nextId := nextId + 1;
    }

    /** `removeFavorite`. */
    method Remove(userId: nat, teamName: string) returns (failure: Option<HttpError>)
      requires Valid()
      modifies this
      ensures Valid()
      ensures (FavoriteStore(rows, nextId), failure)
           == RemoveFavoriteSpec(old(FavoriteStore(rows, nextId)), userId, teamName)
    {
      var k := Find(userId, teamName);
      if k.None? {
        return Some(NotFound(NotFoundMessage));
      }
      RemoveFavoriteEffect(FavoriteStore(rows, nextId), userId, teamName);
      rows := rows[..k.value] + rows[k.value + 1..];
      failure := None;
    }
  }
}
