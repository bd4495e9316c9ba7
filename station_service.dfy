/** Station CRUD (BackEnd/src/station/station.service.ts). */
module StationService {
  import opened Common
  import opened Ordering
  import opened Database

  datatype CreateStationDto = CreateStationDto(code: string, name: string, sequence: int, isActive: Option<bool>)

  /** The optional fields of an update request; an absent field is left as it is. */
  datatype UpdateStationDto = UpdateStationDto(code: Option<string>, name: Option<string>, sequence: Option<int>, isActive: Option<bool>)

  function SequenceOf(s: Station): int {
    s.sequence
  }

  predicate HasStationId(ss: seq<Station>, id: string) {
    exists s :: s in ss && s.id == id
  }

  predicate HasCode(ss: seq<Station>, code: string) {
    exists s :: s in ss && s.code == code
  }

  /** Some log row refers to the station. */
  predicate Referenced(ls: seq<StationLog>, id: string) {
    exists l :: l in ls && l.stationId == Some(id)
  }

  /** `Object.assign(station, dto)`: the supplied fields overwrite the stored ones. */
  function ApplyUpdate(s: Station, dto: UpdateStationDto): (r: Station)
    ensures r.id == s.id
    ensures r.code == dto.code.GetOr(s.code) && r.name == dto.name.GetOr(s.name)
    ensures r.sequence == dto.sequence.GetOr(s.sequence) && r.isActive == dto.isActive.GetOr(s.isActive)
  {
    Station(s.id, dto.code.GetOr(s.code), dto.name.GetOr(s.name),
            dto.sequence.GetOr(s.sequence), dto.isActive.GetOr(s.isActive))
  }

  lemma StationIdsAfterUpdate(ss: seq<Station>, i: nat, s: Station)
    requires i < |ss| && s.id == ss[i].id
    ensures StationIds(ss[i := s]) == StationIds(ss)
  {
    var r := ss[i := s];
    forall x | x in StationIds(ss) ensures x in StationIds(r) {
      var k :| 0 <= k < |ss| && ss[k].id == x;
      assert r[k].id == x;
    }
    forall x | x in StationIds(r) ensures x in StationIds(ss) {
      var k :| 0 <= k < |r| && r[k].id == x;
      assert ss[k].id == x;
    }
  }

  lemma StationIdsAfterAppend(ss: seq<Station>, s: Station)
    ensures StationIds(ss + [s]) == StationIds(ss) + {s.id}
  {
    var r := ss + [s];
    assert r[|ss|] == s;
    forall x | x in StationIds(ss) ensures x in StationIds(r) {
      var k :| 0 <= k < |ss| && ss[k].id == x;
      assert r[k].id == x;
    }
  }

  /** Removing the row at `i` keeps exactly the rows whose id differs from row `i`'s. */
  lemma RemoveAtKeepsOthers(ss: seq<Station>, i: nat)
    requires i < |ss| && StationsOk(ss)
    ensures forall s :: s in RemoveAt(ss, i) <==> s in ss && s.id != ss[i].id
  {
    var r := RemoveAt(ss, i);
    forall s ensures s in r <==> s in ss && s.id != ss[i].id {
      if s in ss && s.id != ss[i].id {
        var k :| 0 <= k < |ss| && ss[k] == s;
        if k < i { assert r[k] == s; } else { assert r[k - 1] == s; }
      }
      if s in r {
        var k :| 0 <= k < |r| && r[k] == s;
        if k < i { assert r[k] == ss[k]; } else { assert r[k] == ss[k + 1]; }
      }
    }
  }

  lemma StationIdsAfterRemove(ss: seq<Station>, i: nat)
    requires i < |ss| && StationsOk(ss)
    ensures StationIds(RemoveAt(ss, i)) == StationIds(ss) - {ss[i].id}
  {
    var r := RemoveAt(ss, i);
    forall x | x in StationIds(ss) - {ss[i].id} ensures x in StationIds(r) {
      var k :| 0 <= k < |ss| && ss[k].id == x;
      if k < i { assert r[k].id == x; } else { assert r[k - 1].id == x; }
    }
    forall x | x in StationIds(r) ensures x in StationIds(ss) - {ss[i].id} {
      var k :| 0 <= k < |r| && r[k].id == x;
      if k < i { assert r[k] == ss[k]; } else { assert r[k] == ss[k + 1]; }
    }
  }

  /** Dropping a station no log refers to keeps every log's station reference valid. */
  lemma LogsOkWithoutStation(ls: seq<StationLog>, ps: seq<Production>, ss: seq<Station>, rest: seq<Station>, id: string)
    requires LogsOk(ls, ps, ss) && !Referenced(ls, id)
    requires StationIds(rest) == StationIds(ss) - {id}
    ensures LogsOk(ls, ps, rest)
  {
    forall i | 0 <= i < |ls| ensures StationRefOk(ls[i], rest) {
      assert ls[i] in ls;
    }
  }

  /** `getAllStations`: every station, ordered by `sequence`. */
  function GetAllStations(db: Db): (r: seq<Station>)
    reads db
    ensures multiset(r) == multiset(db.stations)
    ensures forall i, j :: 0 <= i < j < |r| ==> r[i].sequence <= r[j].sequence
  {
    var r := SortBy(IntKeyAsc(SequenceOf), db.stations);
    SortedByIntAsc(SequenceOf, db.stations);
    r
  }

  /** `getActiveStations`: exactly the active stations, ordered by `sequence`. */
  function GetActiveStations(db: Db): (r: seq<Station>)
    reads db
    ensures multiset(r) == multiset(Filter(db.stations, (s: Station) => s.isActive))
    ensures forall s :: s in r <==> s in db.stations && s.isActive
    ensures forall i, j :: 0 <= i < j < |r| ==> r[i].sequence <= r[j].sequence
  {
    var r := SortBy(IntKeyAsc(SequenceOf), Filter(db.stations, (s: Station) => s.isActive));
    SortedByIntAsc(SequenceOf, Filter(db.stations, (s: Station) => s.isActive));
    r
  }

  /** `getStationById`: the station with that id, or not-found; an id that is not uuid text
      is refused by the database. */
  function GetStationById(db: Db, id: string): (r: Result<Station>)
    reads db
    ensures r.Err? <==> !UuidText(id) || !HasStationId(db.stations, id)
    ensures r.Err? ==> r.error == if UuidText(id) then NotFound else DbError
    ensures r.Ok? ==> r.value in db.stations && r.value.id == id
  {
    if !UuidText(id) then Err(DbError)
    else match Find(db.stations, (s: Station) => s.id == id)
      case None => Err(NotFound)
      case Some(i) => Ok(db.stations[i])
  }

  /** `createStation`: refuses a `code` in use; otherwise inserts the station, active unless
      the request says otherwise. `newId` is the identifier the database generates. */
  method CreateStation(db: Db, dto: CreateStationDto, newId: string) returns (r: Result<Station>)
    requires db.Valid() && UuidText(newId) && newId !in StationIds(db.stations)
    modifies db`stations
    ensures db.Valid()
    ensures r.Err? <==> old(HasCode(db.stations, dto.code))
    ensures r.Err? ==> r.error == BadRequest && db.stations == old(db.stations)
    ensures r.Ok? ==> r.value == Station(newId, dto.code, dto.name, dto.sequence, dto.isActive.GetOr(true))
                      && db.stations == old(db.stations) + [r.value]
    ensures r.Ok? ==> GetStationById(db, newId) == r
  {
    var existing := Find(db.stations, (s: Station) => s.code == dto.code);
    if existing.Some? {
      return Err(BadRequest);
    }
    var station := Station(newId, dto.code, dto.name, dto.sequence, dto.isActive.GetOr(true));
    StationIdsAfterAppend(db.stations, station);
    db.stations := db.stations + [station];
    r := Ok(station);
  }

  /** `updateStation`: a database error for an id that is not uuid text, not-found for an
      unknown id; refuses a change to a `code` another
      station holds (an empty new code skips that check, and the column's unique constraint
      then refuses a clash); otherwise overwrites the supplied fields of that station only. */
  method UpdateStation(db: Db, id: string, dto: UpdateStationDto) returns (r: Result<Station>)
    requires db.Valid()
    modifies db`stations
    ensures db.Valid()
    ensures old(GetStationById(db, id)).Err? ==>
      r == Err(old(GetStationById(db, id)).error) && db.stations == old(db.stations)
    ensures old(GetStationById(db, id)).Ok? ==>
      var s := old(GetStationById(db, id)).value;
      var merged := ApplyUpdate(s, dto);
      if dto.code.Some? && dto.code.value != "" && dto.code.value != s.code && old(HasCode(db.stations, dto.code.value)) then
        r == Err(BadRequest) && db.stations == old(db.stations)
      else if exists t :: t in old(db.stations) && t.id != id && t.code == merged.code then
        r == Err(DbError) && db.stations == old(db.stations)
      else
        r == Ok(merged)
        && |db.stations| == |old(db.stations)|
        && forall k :: 0 <= k < |db.stations| ==>
             db.stations[k] == if old(db.stations)[k].id == id then merged else old(db.stations)[k]
  {
    if !UuidText(id) {
      return Err(DbError);
    }
    var found := Find(db.stations, (s: Station) => s.id == id);
    if found.None? {
      return Err(NotFound);
    }
    var i := found.value;
    var station := db.stations[i];
    assert GetStationById(db, id) == Ok(station);
    if dto.code.Some? && dto.code.value != "" && dto.code.value != station.code {
      var existing := Find(db.stations, (s: Station) => s.code == dto.code.value);
      if existing.Some? {
        return Err(BadRequest);
      }
    }
    station := ApplyUpdate(station, dto);
    var clash := Find(db.stations, (s: Station) => s.id != id && s.code == station.code);
    if clash.Some? {
      return Err(DbError);
    }
    StationIdsAfterUpdate(db.stations, i, station);
    db.stations := db.stations[i := station];
    r := Ok(station);
  }

  /** `deleteStation`: a database error for an id that is not uuid text, not-found for an
      unknown id; refuses while any log refers to the
      station; otherwise removes that station and no other. */
  method DeleteStation(db: Db, id: string) returns (r: Outcome)
    requires db.Valid()
    modifies db`stations
    ensures db.Valid()
    ensures !UuidText(id) ==> r == Fail(DbError) && db.stations == old(db.stations)
    ensures UuidText(id) && old(!HasStationId(db.stations, id)) ==> r == Fail(NotFound) && db.stations == old(db.stations)
    ensures UuidText(id) && old(HasStationId(db.stations, id)) && Referenced(db.logs, id) ==>
      r == Fail(BadRequest) && db.stations == old(db.stations)
    ensures UuidText(id) && old(HasStationId(db.stations, id)) && !Referenced(db.logs, id) ==>
      r == Pass && |db.stations| == |old(db.stations)| - 1
      && forall s :: s in db.stations <==> s in old(db.stations) && s.id != id
  {
    if !UuidText(id) {
      return Fail(DbError);
    }
    var found := Find(db.stations, (s: Station) => s.id == id);
    if found.None? {
      return Fail(NotFound);
    }
    var uses := Filter(db.logs, (l: StationLog) => l.stationId == Some(id));
    if |uses| > 0 {
      assert uses[0] in uses;
      return Fail(BadRequest);
    }
    var i := found.value;
    ghost var before := db.stations;
    var rest := RemoveAt(db.stations, i);
    StationIdsAfterRemove(before, i);
    LogsOkWithoutStation(db.logs, db.productions, before, rest, id);
    RemoveAtKeepsOthers(before, i);
    db.stations := rest;
    r := Pass;
  }
}
