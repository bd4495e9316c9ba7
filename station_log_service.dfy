/** The station logs of productions (BackEnd/src/production-station-log/production-station-log.service.ts;
    BackEnd/src/productions/productions.service.ts repeats the same operations). A log is kept
    per (production, station) pair and is found or created by that pair. */
module StationLogService {
  import opened Common
  import opened Ordering
  import opened Calendar
  import opened Database
  import StationService
  import ProductionService

  /** Supplied timestamps (milliseconds); an absent one keeps the stored value. */
  datatype UpdateStationTimeDto = UpdateStationTimeDto(startTime: Option<int>, endTime: Option<int>)

  /** A supplied status and reason; an absent one keeps the stored value. */
  datatype UpdateStationStatusDto = UpdateStationStatusDto(status: Option<StationStatus>, reason: Option<string>)

  /** A station as `getStationStatusByDate` reports it. */
  datatype StationSummary = StationSummary(id: string, code: string, name: string, sequence: int)

  datatype StationStatusEntry = StationStatusEntry(
    station: StationSummary, status: Option<StationStatus>, reason: Option<string>, productionNo: Option<string>)

  /** The production a latest status was taken from, with its log. */
  datatype Pick = Pick(production: Production, log: StationLog)

  predicate IsPairLog(l: StationLog, productionId: string, stationId: string) {
    l.productionId == productionId && l.stationId == Some(stationId)
  }

  /** The position of the pair's log, if there is one. */
  function FindLog(ls: seq<StationLog>, productionId: string, stationId: string): (r: Option<nat>)
    ensures r.Some? ==> r.value < |ls| && IsPairLog(ls[r.value], productionId, stationId)
    ensures r.None? <==> forall k :: 0 <= k < |ls| ==> !IsPairLog(ls[k], productionId, stationId)
  {
    Find(ls, (l: StationLog) => IsPairLog(l, productionId, stationId))
  }

  /** The log `create({production, station})` makes: only the two references are set. */
  function NewLog(id: string, productionId: string, stationId: string): StationLog {
    StationLog(id, productionId, Some(stationId), None, None, None, None, None)
  }

  /** The production and the station both exist, so a new log can reference them. */
  predicate CanLink(db: Db, productionId: string, stationId: string)
    reads db
  {
    productionId in ProductionIds(db.productions) && stationId in StationIds(db.stations)
  }

  /** Minutes between two millisecond timestamps, as a fraction. */
  function PeriodMinutes(start: int, end: int): (r: real)
    ensures r * 60000.0 == (end - start) as real
    ensures start <= end ==> r >= 0.0
  {
    (end - start) as real / 60000.0
  }

  /** The time update of `updateStationTime`: supplied timestamps replace the stored ones,
      and the period is recomputed whenever both timestamps are then present. */
  function ApplyTimes(l: StationLog, dto: UpdateStationTimeDto): (r: StationLog)
    ensures r.id == l.id && r.productionId == l.productionId && r.stationId == l.stationId
    ensures r.status == l.status && r.reason == l.reason
    ensures dto.startTime.Some? ==> r.startTime == dto.startTime
    ensures dto.startTime.None? ==> r.startTime == l.startTime
    ensures dto.endTime.Some? ==> r.endTime == dto.endTime
    ensures dto.endTime.None? ==> r.endTime == l.endTime
    ensures r.startTime.Some? && r.endTime.Some? ==>
      r.periodMinutes.Some? && r.periodMinutes.value * 60000.0 == (r.endTime.value - r.startTime.value) as real
    ensures !(r.startTime.Some? && r.endTime.Some?) ==> r.periodMinutes == l.periodMinutes
  {
    var start := if dto.startTime.Some? then dto.startTime else l.startTime;
    var end := if dto.endTime.Some? then dto.endTime else l.endTime;
    var period := if start.Some? && end.Some? then Some(PeriodMinutes(start.value, end.value)) else l.periodMinutes;
    l.(startTime := start, endTime := end, periodMinutes := period)
  }

  /** The status update of `updateStationStatus`: each supplied field replaces the stored one. */
  function ApplyStatus(l: StationLog, dto: UpdateStationStatusDto): (r: StationLog)
    ensures r.id == l.id && r.productionId == l.productionId && r.stationId == l.stationId
    ensures r.startTime == l.startTime && r.endTime == l.endTime && r.periodMinutes == l.periodMinutes
    ensures dto.status.Some? ==> r.status == dto.status
    ensures dto.status.None? ==> r.status == l.status
    ensures dto.reason.Some? ==> r.reason == dto.reason
    ensures dto.reason.None? ==> r.reason == l.reason
  {
    l.(status := if dto.status.Some? then dto.status else l.status,
       reason := if dto.reason.Some? then dto.reason else l.reason)
  }

  /** Repeating a time update changes nothing more. */
  lemma ApplyTimesIdempotent(l: StationLog, dto: UpdateStationTimeDto)
    ensures ApplyTimes(ApplyTimes(l, dto), dto) == ApplyTimes(l, dto)
  {
  }

  /** Repeating a status update changes nothing more. */
  lemma ApplyStatusIdempotent(l: StationLog, dto: UpdateStationStatusDto)
    ensures ApplyStatus(ApplyStatus(l, dto), dto) == ApplyStatus(l, dto)
  {
  }

  /** The pair's log after a find-or-create: a database error with no change when either id
      is not uuid text (the lookup is refused); otherwise the found log updated in place, or
      a new log updated and inserted when both references exist, or a database error (a
      foreign key violation) with no change. */
  ghost predicate Upserted(before: seq<StationLog>, after: seq<StationLog>, r: Result<StationLog>,
                           productionId: string, stationId: string, newLogId: string, linked: bool,
                           apply: StationLog -> StationLog)
  {
    if !UuidText(productionId) || !UuidText(stationId) then r == Err(DbError) && after == before
    else match FindLog(before, productionId, stationId)
      case Some(k) => r == Ok(apply(before[k])) && after == before[k := r.value]
      case None =>
        if linked then r == Ok(apply(NewLog(newLogId, productionId, stationId))) && after == before + [r.value]
        else r == Err(DbError) && after == before
  }

  /** The log is the pair's one and only log in the table. */
  ghost predicate OnlyLogOfPair(ls: seq<StationLog>, productionId: string, stationId: string, l: StationLog) {
    l in ls && IsPairLog(l, productionId, stationId)
    && forall k :: 0 <= k < |ls| && IsPairLog(ls[k], productionId, stationId) ==> ls[k] == l
  }

  lemma LogsOkAfterReplace(ls: seq<StationLog>, ps: seq<Production>, ss: seq<Station>, k: nat, l: StationLog)
    requires LogsOk(ls, ps, ss) && k < |ls|
    requires l.id == ls[k].id && l.productionId == ls[k].productionId && l.stationId == ls[k].stationId
    ensures LogsOk(ls[k := l], ps, ss)
  {
    var r := ls[k := l];
    forall i | 0 <= i < |r| ensures r[i].productionId in ProductionIds(ps) && StationRefOk(r[i], ss) {
      assert r[i].productionId == ls[i].productionId && r[i].stationId == ls[i].stationId;
    }
  }

  lemma LogsOkAfterAppend(ls: seq<StationLog>, ps: seq<Production>, ss: seq<Station>, l: StationLog)
    requires LogsOk(ls, ps, ss) && l.id !in LogIds(ls)
    requires l.stationId.Some? && FindLog(ls, l.productionId, l.stationId.value).None?
    requires l.productionId in ProductionIds(ps) && StationRefOk(l, ss)
    ensures LogsOk(ls + [l], ps, ss)
  {
    var r := ls + [l];
    assert r[|ls|] == l;
    forall i | 0 <= i < |ls| ensures ls[i].id != l.id {
      assert ls[i] in ls;
    }
    forall i | 0 <= i < |ls| && ls[i].stationId.Some?
      ensures ls[i].productionId != l.productionId || ls[i].stationId != l.stationId
    {
      assert !IsPairLog(ls[i], l.productionId, l.stationId.value);
    }
  }

  /** A consistent log table holds at most one log per (production, station) pair. */
  lemma PairLogUnique(ls: seq<StationLog>, ps: seq<Production>, ss: seq<Station>, productionId: string, stationId: string, l: StationLog)
    requires LogsOk(ls, ps, ss) && l in ls && IsPairLog(l, productionId, stationId)
    ensures OnlyLogOfPair(ls, productionId, stationId, l)
  {
    var i :| 0 <= i < |ls| && ls[i] == l;
  }

  /** The find-or-create of both log updates, with the field update `apply` on the log. */
  method UpsertLog(db: Db, productionId: string, stationId: string, newLogId: string,
                   apply: StationLog -> StationLog) returns (r: Result<StationLog>)
    requires db.Valid() && UuidText(newLogId) && newLogId !in LogIds(db.logs)
    requires forall l: StationLog :: apply(l).id == l.id && apply(l).productionId == l.productionId && apply(l).stationId == l.stationId
    modifies db`logs
    ensures db.Valid()
    ensures Upserted(old(db.logs), db.logs, r, productionId, stationId, newLogId, CanLink(db, productionId, stationId), apply)
    ensures r.Ok? ==> OnlyLogOfPair(db.logs, productionId, stationId, r.value)
  {
    if !UuidText(productionId) || !UuidText(stationId) {
      return Err(DbError);
    }
    var found := FindLog(db.logs, productionId, stationId);
    if found.Some? {
      var k := found.value;
      var log := apply(db.logs[k]);
      LogsOkAfterReplace(db.logs, db.productions, db.stations, k, log);
      db.logs := db.logs[k := log];
      assert db.logs[k] == log;
      PairLogUnique(db.logs, db.productions, db.stations, productionId, stationId, log);
      return Ok(log);
    }
    if !CanLink(db, productionId, stationId) {
      return Err(DbError);
    }
    var log := apply(NewLog(newLogId, productionId, stationId));
    LogsOkAfterAppend(db.logs, db.productions, db.stations, log);
    db.logs := db.logs + [log];
    assert db.logs[|db.logs| - 1] == log;
    PairLogUnique(db.logs, db.productions, db.stations, productionId, stationId, log);
    r := Ok(log);
  }

  /** `updateStationTime`: finds or creates the pair's log and applies the supplied times. */
  method UpdateStationTime(db: Db, productionId: string, stationId: string, dto: UpdateStationTimeDto,
                           newLogId: string) returns (r: Result<StationLog>)
    requires db.Valid() && UuidText(newLogId) && newLogId !in LogIds(db.logs)
    modifies db`logs
    ensures db.Valid()
    ensures Upserted(old(db.logs), db.logs, r, productionId, stationId, newLogId, CanLink(db, productionId, stationId),
                     (l: StationLog) => ApplyTimes(l, dto))
    ensures r.Ok? ==> OnlyLogOfPair(db.logs, productionId, stationId, r.value)
  {
    r := UpsertLog(db, productionId, stationId, newLogId, (l: StationLog) => ApplyTimes(l, dto));
  }

  /** `updateStationStatus`: finds or creates the pair's log and applies the supplied status
      and reason. */
  method UpdateStationStatus(db: Db, productionId: string, stationId: string, dto: UpdateStationStatusDto,
                             newLogId: string) returns (r: Result<StationLog>)
    requires db.Valid() && UuidText(newLogId) && newLogId !in LogIds(db.logs)
    modifies db`logs
    ensures db.Valid()
    ensures Upserted(old(db.logs), db.logs, r, productionId, stationId, newLogId, CanLink(db, productionId, stationId),
                     (l: StationLog) => ApplyStatus(l, dto))
    ensures r.Ok? ==> OnlyLogOfPair(db.logs, productionId, stationId, r.value)
  {
    r := UpsertLog(db, productionId, stationId, newLogId, (l: StationLog) => ApplyStatus(l, dto));
  }

  /** The production `findOrCreateByDate` settles on. */
  function DayProduction(ps: seq<Production>, date: CalDate, newProductionId: string): Production {
    var latest := ProductionService.LatestOfDate(ps, date);
    if latest.Some? then latest.value else ProductionService.AutoProduction(newProductionId, date)
  }

  /** `updateStationStatusByDate`: the date's production (found, or created as `AUTO-<date>`)
      gets the status update of its log for the station. The production is kept even when
      the log cannot be saved. */
  method UpdateStationStatusByDate(db: Db, date: CalDate, stationId: string, dto: UpdateStationStatusDto,
                                   newProductionId: string, newLogId: string) returns (r: Result<StationLog>)
    requires db.Valid() && UuidText(newProductionId) && newProductionId !in ProductionIds(db.productions)
    requires UuidText(newLogId) && newLogId !in LogIds(db.logs)
    modifies db`productions, db`logs
    ensures db.Valid()
    ensures var p := DayProduction(old(db.productions), date, newProductionId);
      && (old(ProductionService.LatestOfDate(db.productions, date)).Some? ==> db.productions == old(db.productions))
      && (old(ProductionService.LatestOfDate(db.productions, date)).None? ==> db.productions == old(db.productions) + [p])
      && ProductionService.LatestOfDate(db.productions, date) == Some(p)
      && Upserted(old(db.logs), db.logs, r, p.id, stationId, newLogId, stationId in StationIds(db.stations),
                  (l: StationLog) => ApplyStatus(l, dto))
  {
    var p := ProductionService.FindOrCreateByDate(db, date, newProductionId);
    assert p.id in ProductionIds(db.productions);
    r := UpdateStationStatus(db, p.id, stationId, dto, newLogId);
  }

  /** `production.stations.find(l => l.station?.id === station.id && l.status)`: the
      production's first log at the station that has a status. */
  function StatusLogOf(ls: seq<StationLog>, p: Production, stationId: string): (r: Option<StationLog>)
    ensures r.Some? ==> r.value in ls && IsPairLog(r.value, p.id, stationId) && r.value.status.Some?
    ensures r.None? <==> forall l :: l in ls && IsPairLog(l, p.id, stationId) ==> l.status.None?
  {
    match Find(ls, (l: StationLog) => IsPairLog(l, p.id, stationId) && l.status.Some?)
    case None =>
      assert forall l :: l in ls && IsPairLog(l, p.id, stationId) ==> l.status.None? by {
        forall l | l in ls && IsPairLog(l, p.id, stationId) ensures l.status.None? {
          var k :| 0 <= k < |ls| && ls[k] == l;
        }
      }
      None
    case Some(k) => Some(ls[k])
  }

  /** Every production among the first `k` that holds a status log at the station has an
      id at or below `id`. */
  ghost predicate IdsAtMost(ps: seq<Production>, ls: seq<StationLog>, stationId: string, k: int, id: string)
    requires 0 <= k <= |ps|
  {
    forall j :: 0 <= j < k && StatusLogOf(ls, ps[j], stationId).Some? ==> StrLe(ps[j].id, id)
  }

  /** A greater id bounds whatever a smaller one bounds. */
  lemma IdsAtMostRaise(ps: seq<Production>, ls: seq<StationLog>, stationId: string, k: int, a: string, b: string)
    requires 0 <= k <= |ps|
    requires IdsAtMost(ps, ls, stationId, k, a) && StrLt(a, b)
    ensures IdsAtMost(ps, ls, stationId, k, b)
  {
    forall j | 0 <= j < k && StatusLogOf(ls, ps[j], stationId).Some? ensures StrLe(ps[j].id, b) {
      if ps[j].id != a {
        StrLtTransitive(ps[j].id, a, b);
      }
    }
  }

  /** The bound extends over one more production that is within it. */
  lemma IdsAtMostExtend(ps: seq<Production>, ls: seq<StationLog>, stationId: string, k: int, id: string)
    requires 0 <= k < |ps|
    requires IdsAtMost(ps, ls, stationId, k, id)
    requires StatusLogOf(ls, ps[k], stationId).Some? ==> StrLe(ps[k].id, id)
    ensures IdsAtMost(ps, ls, stationId, k + 1, id)
  {
  }

  /** When none of the first `k` productions holds a status log, production `k`'s id
      bounds the first `k + 1`. */
  lemma IdsAtMostFirst(ps: seq<Production>, ls: seq<StationLog>, stationId: string, k: int)
    requires 0 <= k < |ps|
    requires forall j :: 0 <= j < k ==> StatusLogOf(ls, ps[j], stationId).None?
    ensures IdsAtMost(ps, ls, stationId, k + 1, ps[k].id)
  {
  }

  /** The loop of `getStationStatusByDate` for one station: among the productions holding a
      status log at the station, the one with the greatest id (JavaScript's `>` on strings),
      with that log. */
  method SelectLatest(ps: seq<Production>, ls: seq<StationLog>, stationId: string) returns (latest: Option<Pick>)
    ensures latest.None? <==> forall p :: p in ps ==> StatusLogOf(ls, p, stationId).None?
    ensures latest.Some? ==>
      latest.value.production in ps && StatusLogOf(ls, latest.value.production, stationId) == Some(latest.value.log)
    ensures latest.Some? ==>
      forall p :: p in ps && StatusLogOf(ls, p, stationId).Some? ==> StrLe(p.id, latest.value.production.id)
  {
    latest := None;
    for k := 0 to |ps|
      invariant latest.None? <==> forall j :: 0 <= j < k ==> StatusLogOf(ls, ps[j], stationId).None?
      invariant latest.Some? ==>
        latest.value.production in ps && StatusLogOf(ls, latest.value.production, stationId) == Some(latest.value.log)
      invariant latest.Some? ==> IdsAtMost(ps, ls, stationId, k, latest.value.production.id)
    {
      var log := StatusLogOf(ls, ps[k], stationId);
      if log.Some? {
        if latest.None? {
          IdsAtMostFirst(ps, ls, stationId, k);
          latest := Some(Pick(ps[k], log.value));
        } else if StrLt(latest.value.production.id, ps[k].id) {
          IdsAtMostRaise(ps, ls, stationId, k, latest.value.production.id, ps[k].id);
          IdsAtMostExtend(ps, ls, stationId, k, ps[k].id);
          latest := Some(Pick(ps[k], log.value));
        } else {
          StrLtTrichotomy(latest.value.production.id, ps[k].id);
          IdsAtMostExtend(ps, ls, stationId, k, latest.value.production.id);
        }
      } else if latest.Some? {
        IdsAtMostExtend(ps, ls, stationId, k, latest.value.production.id);
      }
    }
    assert forall p :: p in ps ==> exists j :: 0 <= j < |ps| && ps[j] == p;
  }

  /** JavaScript's `x || null` on an optional string: the empty string also becomes null. */
  function NonEmpty(s: Option<string>): (r: Option<string>)
    ensures r.Some? <==> s.Some? && s.value != ""
    ensures r.Some? ==> r == s
  {
    if s.Some? && s.value != "" then s else None
  }

  function Summary(s: Station): StationSummary {
    StationSummary(s.id, s.code, s.name, s.sequence)
  }

  /** The entry `getStationStatusByDate` reports for a station, from its selection. */
  function EntryOf(s: Station, latest: Option<Pick>): (r: StationStatusEntry)
    ensures r.station == Summary(s)
    ensures latest.None? ==> r.status.None? && r.reason.None? && r.productionNo.None?
    ensures latest.Some? ==>
      && r.status == latest.value.log.status
      && r.reason == NonEmpty(latest.value.log.reason)
      && r.productionNo == NonEmpty(Some(latest.value.production.productionNo))
  {
    match latest
    case None => StationStatusEntry(Summary(s), None, None, None)
    case Some(pick) =>
      StationStatusEntry(Summary(s), pick.log.status, NonEmpty(pick.log.reason), NonEmpty(Some(pick.production.productionNo)))
  }

  /** `e` is what the source reports for station `s` on the productions `ps` of a date: the
      status log of the production with the greatest id, or nulls when there is none. */
  ghost predicate Reports(e: StationStatusEntry, ps: seq<Production>, ls: seq<StationLog>, s: Station) {
    && e.station == Summary(s)
    && ((forall p :: p in ps ==> StatusLogOf(ls, p, s.id).None?) ==>
          e.status.None? && e.reason.None? && e.productionNo.None?)
    && ((exists p :: p in ps && StatusLogOf(ls, p, s.id).Some?) ==>
          exists p :: p in ps && StatusLogOf(ls, p, s.id).Some?
            && (forall q :: q in ps && StatusLogOf(ls, q, s.id).Some? ==> StrLe(q.id, p.id))
            && e == EntryOf(s, Some(Pick(p, StatusLogOf(ls, p, s.id).value))))
  }

  /** A selection with the properties `SelectLatest` promises yields a conforming entry. */
  lemma EntryOfReports(ps: seq<Production>, ls: seq<StationLog>, s: Station, latest: Option<Pick>)
    requires latest.None? <==> forall p :: p in ps ==> StatusLogOf(ls, p, s.id).None?
    requires latest.Some? ==>
      latest.value.production in ps && StatusLogOf(ls, latest.value.production, s.id) == Some(latest.value.log)
    requires latest.Some? ==>
      forall p :: p in ps && StatusLogOf(ls, p, s.id).Some? ==> StrLe(p.id, latest.value.production.id)
    ensures Reports(EntryOf(s, latest), ps, ls, s)
  {
    if latest.Some? {
      var p := latest.value.production;
      assert EntryOf(s, latest) == EntryOf(s, Some(Pick(p, StatusLogOf(ls, p, s.id).value)));
    }
  }

  /** With distinct production ids the report is determined: any two conforming entries agree. */
  lemma ReportsDetermined(e1: StationStatusEntry, e2: StationStatusEntry, ps: seq<Production>, ls: seq<StationLog>, s: Station)
    requires ProductionsOk(ps)
    requires Reports(e1, ps, ls, s) && Reports(e2, ps, ls, s)
    ensures e1 == e2
  {
    if exists p :: p in ps && StatusLogOf(ls, p, s.id).Some? {
      var p1 :| p1 in ps && StatusLogOf(ls, p1, s.id).Some?
        && (forall q :: q in ps && StatusLogOf(ls, q, s.id).Some? ==> StrLe(q.id, p1.id))
        && e1 == EntryOf(s, Some(Pick(p1, StatusLogOf(ls, p1, s.id).value)));
      var p2 :| p2 in ps && StatusLogOf(ls, p2, s.id).Some?
        && (forall q :: q in ps && StatusLogOf(ls, q, s.id).Some? ==> StrLe(q.id, p2.id))
        && e2 == EntryOf(s, Some(Pick(p2, StatusLogOf(ls, p2, s.id).value)));
      StrLeTotalOrder(p1.id, p2.id, p1.id);
      var i :| 0 <= i < |ps| && ps[i] == p1;
      var j :| 0 <= j < |ps| && ps[j] == p2;
      assert ps[i].id == ps[j].id;
    }
  }

  /** The date's productions, `ORDER BY productionNo DESC`. */
  function DayDesc(ps: seq<Production>, date: CalDate): (r: seq<Production>)
    ensures forall p :: p in r <==> p in ps && p.productionDate == date
  {
    SortBy(StrKeyDesc(ProductionService.ProductionNoOf), ProductionService.OfDate(ps, date))
  }

  /** `getStationStatusByDate`: one entry per active station, in `sequence` order, each the
      latest status of that station among the date's productions. */
  method GetStationStatusByDate(db: Db, date: CalDate) returns (r: seq<StationStatusEntry>)
    ensures var stations := StationService.GetActiveStations(db);
      |r| == |stations| && forall i :: 0 <= i < |r| ==> Reports(r[i], DayDesc(db.productions, date), db.logs, stations[i])
  {
    var stations := StationService.GetActiveStations(db);
    var ps := DayDesc(db.productions, date);
    r := [];
    for i := 0 to |stations|
      invariant |r| == i
      invariant forall j :: 0 <= j < i ==> Reports(r[j], ps, db.logs, stations[j])
    {
      var latest := SelectLatest(ps, db.logs, stations[i].id);
      EntryOfReports(ps, db.logs, stations[i], latest);
      r := r + [EntryOf(stations[i], latest)];
    }
  }
}
