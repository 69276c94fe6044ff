/** The database tables the backend services share (backend/src/modules/database/entities),
    and the repository operations the services call on them. Primary keys are
    generated uuids in the database; here a table hands out fresh numbers from
    a counter instead. */
module Entities {
  import opened Wrappers

  /** The columns `fetchMatchesFromAPI` fills in for one event. `dateEvent` is the
      kickoff instant in milliseconds. */
  datatype MatchRecord = MatchRecord(
    externalId: string,
    homeTeam: string,
    awayTeam: string,
    homeTeamBadge: string,
    awayTeamBadge: string,
    league: string,
    season: string,
    dateEvent: int,
    venue: string,
    city: string,
    country: string,
    homeScore: Option<string>,
    awayScore: Option<string>,
    status: string)

  /** A row of the `matches` table. `updatedAt` is refreshed on every write. */
  datatype MatchRow = MatchRow(
    id: nat,
    data: MatchRecord,
    aiAnalysis: Option<string>,
    analyzedAt: Option<int>,
    createdAt: int,
    updatedAt: int)

  ghost predicate UniqueExternalIds(rows: seq<MatchRow>) {
    forall i, j :: 0 <= i < j < |rows| ==> rows[i].data.externalId != rows[j].data.externalId
  }

  ghost predicate UniqueMatchIds(rows: seq<MatchRow>, nextId: nat) {
    && (forall i :: 0 <= i < |rows| ==> rows[i].id < nextId)
    && (forall i, j :: 0 <= i < j < |rows| ==> rows[i].id != rows[j].id)
  }

  /** The position of the row with external id `ext` (`findOne({ where: { externalId } })`). */
  function IndexOfExternalId(rows: seq<MatchRow>, ext: string): (k: Option<nat>)
    ensures k.Some? ==> k.value < |rows| && rows[k.value].data.externalId == ext
    ensures k.Some? ==> forall j :: 0 <= j < k.value ==> rows[j].data.externalId != ext
    ensures k.None? ==> forall j :: 0 <= j < |rows| ==> rows[j].data.externalId != ext
  {
    if rows == [] then None
    else if rows[0].data.externalId == ext then Some(0)
    else match IndexOfExternalId(rows[1..], ext)
      case None => None
      case Some(k) => Some(k + 1)
  }

  /** The first row with the id is the one the lookup finds. */
  lemma {:induction false} IndexOfFirstId(rows: seq<MatchRow>, id: nat, k: nat)
    requires k < |rows| && rows[k].id == id
    requires forall j :: 0 <= j < k ==> rows[j].id != id
    ensures IndexOfMatchId(rows, id) == Some(k)
  {
    if k > 0 {
      IndexOfFirstId(rows[1..], id, k - 1);
    }
  }

  /** The position of the row with primary key `id` (`findOne({ where: { id } })`). */
  function IndexOfMatchId(rows: seq<MatchRow>, id: nat): (k: Option<nat>)
    ensures k.Some? ==> k.value < |rows| && rows[k.value].id == id
    ensures k.Some? ==> forall j :: 0 <= j < k.value ==> rows[j].id != id
    ensures k.None? ==> forall j :: 0 <= j < |rows| ==> rows[j].id != id
  {
    if rows == [] then None
    else if rows[0].id == id then Some(0)
    else match IndexOfMatchId(rows[1..], id)
      case None => None
      case Some(k) => Some(k + 1)
  }

  /** The `matches` repository. */
  class MatchRepository {
    var rows: seq<MatchRow>
    var nextId: nat

    ghost predicate Valid()
      reads this
    {
      UniqueExternalIds(rows) && UniqueMatchIds(rows, nextId)
    }

    constructor ()
      ensures Valid() && rows == [] && nextId == 0
    {
      rows := [];
      nextId := 0;
    }

    /** Scans the table for the external id. */
    method FindByExternalId(ext: string) returns (k: Option<nat>)
      ensures k == IndexOfExternalId(rows, ext)
    {
      var i := 0;
      while i < |rows|
        invariant 0 <= i <= |rows|
        invariant forall j :: 0 <= j < i ==> rows[j].data.externalId != ext
      {
        if rows[i].data.externalId == ext {
          return Some(i);
        }
        i := i + 1;
      }
      return None;
    }

    /** Scans the table for the primary key. */
    method FindById(id: nat) returns (k: Option<nat>)
      ensures k == IndexOfMatchId(rows, id)
    {
      var i := 0;
      while i < |rows|
        invariant 0 <= i <= |rows|
        invariant forall j :: 0 <= j < i ==> rows[j].id != id
      {
        if rows[i].id == id {
          return Some(i);
        }
        i := i + 1;
      }
      return None;
    }

    /** `update(id, record)`: overwrites the event columns of row `k`; the
        update-date column moves to `now`, everything else stays. */
    method Update(k: nat, data: MatchRecord, now: int)
      requires Valid() && k < |rows| && rows[k].data.externalId == data.externalId
      modifies this
      ensures Valid()
      ensures rows == old(rows)[k := old(rows)[k].(data := data, updatedAt := now)]
      ensures nextId == old(nextId)
    {
      rows := rows[k := rows[k].(data := data, updatedAt := now)];
    }

    /** `save(record)` of a record whose external id is not stored yet. */
    method Insert(data: MatchRecord, now: int) returns (row: MatchRow)
      requires Valid() && IndexOfExternalId(rows, data.externalId).None?
      modifies this
      ensures Valid()
      ensures row == MatchRow(old(nextId), data, None, None, now, now)
      ensures rows == old(rows) + [row] && nextId == old(nextId) + 1
    {
      row := MatchRow(nextId, data, None, None, now, now);
      rows := rows + [row];
      nextId := nextId + 1;
    }

    /** `update(id, { aiAnalysis, analyzedAt })` on row `k`. */
    method SetAnalysis(k: nat, text: string, now: int)
      requires Valid() && k < |rows|
      modifies this
      ensures Valid()
      ensures rows == old(rows)[k := old(rows)[k].(aiAnalysis := Some(text), analyzedAt := Some(now), updatedAt := now)]
      ensures nextId == old(nextId)
    {
      rows := rows[k := rows[k].(aiAnalysis := Some(text), analyzedAt := Some(now), updatedAt := now)];
    }
  }
}
