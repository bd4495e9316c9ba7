/** Productions of a day (BackEnd/src/production/production.service.ts). */
module ProductionService {
  import opened Common
  import opened Ordering
  import opened Calendar
  import opened Database
  import StationService

  datatype CreateProductionDto = CreateProductionDto(productionNo: string, model: string, productionDate: CalDate)

  /** A quality verdict and an optional remark; an absent remark keeps the stored one. */
  datatype UpdateQualityDto = UpdateQualityDto(qualityStatus: Quality, remark: Option<string>)

  /** A log as `getStatusByDate` returns it, with the station it refers to embedded. */
  datatype LogView = LogView(
    id: string, status: Option<StationStatus>, reason: Option<string>,
    startTime: Option<int>, endTime: Option<int>, periodMinutes: Option<real>,
    station: Option<Station>)

  datatype ProductionView = ProductionView(
    id: string, productionNo: string, model: string, productionDate: CalDate,
    qualityStatus: Option<Quality>, remark: Option<string>, stations: seq<LogView>)

  datatype StatusBoard = StatusBoard(stations: seq<Station>, productions: seq<ProductionView>)

  function ProductionNoOf(p: Production): string {
    p.productionNo
  }

  predicate HasProductionId(ps: seq<Production>, id: string) {
    exists p :: p in ps && p.id == id
  }

  /** The production `findOrCreateByDate` creates for a date without productions. The
      request's date text is the canonical `YYYY-MM-DD` form, which `DateText` yields. */
  function AutoProduction(id: string, date: CalDate): (r: Production)
    ensures r.productionDate == date && r.model == "AUTO"
    ensures |r.productionNo| >= 5 && r.productionNo[..5] == "AUTO-" && r.productionNo[5..] == DateText(date)
    ensures r.qualityStatus.None? && r.remark.None?
  {
    Production(id, "AUTO-" + DateText(date), "AUTO", date, None, None)
  }

  function OfDate(ps: seq<Production>, date: CalDate): (r: seq<Production>)
    ensures forall p :: p in r <==> p in ps && p.productionDate == date
  {
    Filter(ps, (p: Production) => p.productionDate == date)
  }

  /** The production of `date` with the greatest `productionNo` (`ORDER BY productionNo DESC`,
      first row), or none when the date has no production. */
  function LatestOfDate(ps: seq<Production>, date: CalDate): (r: Option<Production>)
    ensures r.None? <==> forall p :: p in ps ==> p.productionDate != date
    ensures r.Some? ==> r.value in ps && r.value.productionDate == date
    ensures r.Some? ==> forall q :: q in ps && q.productionDate == date ==>
                          StrLe(q.productionNo, r.value.productionNo)
  {
    var day := OfDate(ps, date);
    if day == [] then
      None
    else
      var sorted := SortBy(StrKeyDesc(ProductionNoOf), day);
      SortedByStrDesc(ProductionNoOf, day);
      assert sorted[0] in day;
      assert forall q :: q in ps && q.productionDate == date ==> StrLe(q.productionNo, sorted[0].productionNo) by {
        forall q | q in ps && q.productionDate == date ensures StrLe(q.productionNo, sorted[0].productionNo) {
          assert q in sorted;
          var k :| 0 <= k < |sorted| && sorted[k] == q;
          if k > 0 { assert StrLe(sorted[k].productionNo, sorted[0].productionNo); }
        }
      }
      Some(sorted[0])
  }

  /** A date whose only production is `p` has `p` as its latest production. */
  lemma LatestOfDateSingle(ps: seq<Production>, p: Production)
    requires forall q :: q in ps ==> q.productionDate != p.productionDate
    ensures LatestOfDate(ps + [p], p.productionDate) == Some(p)
  {
    var r := LatestOfDate(ps + [p], p.productionDate);
    assert p in ps + [p];
    assert r.value in ps + [p];
  }

  lemma ProductionsOkAfterAppend(ps: seq<Production>, p: Production)
    requires ProductionsOk(ps) && p.id !in ProductionIds(ps)
    ensures ProductionsOk(ps + [p])
    ensures ProductionIds(ps + [p]) == ProductionIds(ps) + {p.id}
  {
    var r := ps + [p];
    assert r[|ps|] == p;
    forall i | 0 <= i < |ps| ensures r[i].id != p.id {
      assert ps[i] in ps;
    }
    forall x | x in ProductionIds(ps) ensures x in ProductionIds(r) {
      var q :| q in ps && q.id == x;
      assert q in r;
    }
  }

  lemma ProductionIdsAfterUpdate(ps: seq<Production>, i: nat, p: Production)
    requires i < |ps| && p.id == ps[i].id
    ensures ProductionIds(ps[i := p]) == ProductionIds(ps)
  {
    var r := ps[i := p];
    forall x | x in ProductionIds(ps) ensures x in ProductionIds(r) {
      var k :| 0 <= k < |ps| && ps[k].id == x;
      assert r[k].id == x;
    }
    forall x | x in ProductionIds(r) ensures x in ProductionIds(ps) {
      var k :| 0 <= k < |r| && r[k].id == x;
      assert ps[k].id == x;
    }
  }

  /** `create`: inserts the production under the identifier the database generates. */
  method Create(db: Db, dto: CreateProductionDto, newId: string) returns (r: Production)
    requires db.Valid() && UuidText(newId) && newId !in ProductionIds(db.productions)
    modifies db`productions
    ensures db.Valid()
    ensures r == Production(newId, dto.productionNo, dto.model, dto.productionDate, None, None)
    ensures db.productions == old(db.productions) + [r]
  {
    r := Production(newId, dto.productionNo, dto.model, dto.productionDate, None, None);
    ProductionsOkAfterAppend(db.productions, r);
    db.productions := db.productions + [r];
  }

  /** `findOrCreateByDate`: the date's production with the greatest `productionNo`, unchanged
      tables; or, for a date without productions, a new `AUTO-<date>` production of model
      `AUTO`. Either way a second call for the date finds the same production. */
  method FindOrCreateByDate(db: Db, date: CalDate, newId: string) returns (p: Production)
    requires db.Valid() && UuidText(newId) && newId !in ProductionIds(db.productions)
    modifies db`productions
    ensures db.Valid()
    ensures old(LatestOfDate(db.productions, date)).Some? ==>
      p == old(LatestOfDate(db.productions, date)).value && db.productions == old(db.productions)
    ensures old(LatestOfDate(db.productions, date)).None? ==>
      p == AutoProduction(newId, date) && db.productions == old(db.productions) + [p]
    ensures LatestOfDate(db.productions, date) == Some(p)
  {
    var latest := LatestOfDate(db.productions, date);
    if latest.Some? {
      return latest.value;
    }
    p := AutoProduction(newId, date);
    ProductionsOkAfterAppend(db.productions, p);
    LatestOfDateSingle(db.productions, p);
    db.productions := db.productions + [p];
  }

  /** `updateQuality`: a database error for an id that is not uuid text, not-found for an
      unknown id; otherwise sets the quality, replaces the remark only when one is given,
      and changes no other production or field. */
  method UpdateQuality(db: Db, id: string, dto: UpdateQualityDto) returns (r: Result<Production>)
    requires db.Valid()
    modifies db`productions
    ensures db.Valid()
    ensures r.Err? <==> !UuidText(id) || old(!HasProductionId(db.productions, id))
    ensures r.Err? ==> r.error == (if UuidText(id) then NotFound else DbError) && db.productions == old(db.productions)
    ensures r.Ok? ==>
      |db.productions| == |old(db.productions)|
      && forall k :: 0 <= k < |db.productions| ==>
           var p := old(db.productions)[k];
           db.productions[k] == if p.id == id then r.value else p
    ensures r.Ok? ==>
      exists p :: p in old(db.productions) && p.id == id
        && r.value == p.(qualityStatus := Some(dto.qualityStatus), remark := if dto.remark.Some? then dto.remark else p.remark)
  {
    if !UuidText(id) {
      return Err(DbError);
    }
    var found := Find(db.productions, (p: Production) => p.id == id);
    if found.None? {
      return Err(NotFound);
    }
    var i := found.value;
    var p := db.productions[i];
    var updated := p.(qualityStatus := Some(dto.qualityStatus), remark := if dto.remark.Some? then dto.remark else p.remark);
    ProductionIdsAfterUpdate(db.productions, i, updated);
    db.productions := db.productions[i := updated];
    assert p in old(db.productions);
    r := Ok(updated);
  }

  /** The logs of one production, in table order (the loaded `stations` relation). */
  function LogsOf(ls: seq<StationLog>, productionId: string): (r: seq<StationLog>)
    ensures forall l :: l in r <==> l in ls && l.productionId == productionId
  {
    Filter(ls, (l: StationLog) => l.productionId == productionId)
  }

  /** The station row a log refers to, when it has one. */
  function StationOf(ss: seq<Station>, l: StationLog): (r: Option<Station>)
    ensures r.Some? ==> l.stationId == Some(r.value.id) && r.value in ss
    ensures StationRefOk(l, ss) ==> (r.Some? <==> l.stationId.Some?)
  {
    if l.stationId.None? then None
    else match Find(ss, (s: Station) => s.id == l.stationId.value)
      case None => None
      case Some(i) => Some(ss[i])
  }

  /** A log with its fields copied and its station looked up. */
  function ViewOfLog(ss: seq<Station>, l: StationLog): (r: LogView)
    ensures r.id == l.id && r.status == l.status && r.reason == l.reason
    ensures r.startTime == l.startTime && r.endTime == l.endTime && r.periodMinutes == l.periodMinutes
    ensures r.station.Some? ==> l.stationId == Some(r.station.value.id) && r.station.value in ss
    ensures StationRefOk(l, ss) ==> (r.station.Some? <==> l.stationId.Some?)
  {
    LogView(l.id, l.status, l.reason, l.startTime, l.endTime, l.periodMinutes, StationOf(ss, l))
  }

  /** A production with its fields copied and its logs mapped one-to-one, in order. */
  function ViewOfProduction(ls: seq<StationLog>, ss: seq<Station>, p: Production): (r: ProductionView)
    ensures r.id == p.id && r.productionNo == p.productionNo && r.model == p.model
    ensures r.productionDate == p.productionDate && r.qualityStatus == p.qualityStatus && r.remark == p.remark
    ensures var own := LogsOf(ls, p.id);
      |r.stations| == |own| && forall j :: 0 <= j < |own| ==> r.stations[j] == ViewOfLog(ss, own[j])
  {
    var own := LogsOf(ls, p.id);
    ProductionView(p.id, p.productionNo, p.model, p.productionDate, p.qualityStatus, p.remark,
                   seq(|own|, j requires 0 <= j < |own| => ViewOfLog(ss, own[j])))
  }

  /** `getStatusByDate`: the active stations by `sequence`, and the productions of the date,
      one view per production, in order. */
  function GetStatusByDate(db: Db, date: CalDate): (r: StatusBoard)
    reads db
    ensures r.stations == StationService.GetActiveStations(db)
    ensures var day := OfDate(db.productions, date);
      |r.productions| == |day|
      && forall i :: 0 <= i < |day| ==> r.productions[i] == ViewOfProduction(db.logs, db.stations, day[i])
    ensures forall v :: v in r.productions ==> v.productionDate == date
  {
    var day := OfDate(db.productions, date);
    var ls, ss := db.logs, db.stations;
    var views := seq(|day|, i requires 0 <= i < |day| => ViewOfProduction(ls, ss, day[i]));
    assert forall i :: 0 <= i < |day| ==> day[i] in day;
    StatusBoard(StationService.GetActiveStations(db), views)
  }

  /** In a consistent database every embedded station is the one the log refers to, and it
      is absent exactly when the log refers to no station. */
  lemma StatusViewsLinkStations(db: Db, date: CalDate, i: nat, j: nat)
    requires db.Valid()
    requires i < |GetStatusByDate(db, date).productions|
    requires j < |GetStatusByDate(db, date).productions[i].stations|
    ensures var p := OfDate(db.productions, date)[i];
      var l := LogsOf(db.logs, p.id)[j];
      var v := GetStatusByDate(db, date).productions[i].stations[j];
      && (v.station.Some? <==> l.stationId.Some?)
      && (v.station.Some? ==> v.station.value.id == l.stationId.value && v.station.value in db.stations)
  {
    var p := OfDate(db.productions, date)[i];
    var l := LogsOf(db.logs, p.id)[j];
    assert l in db.logs;
    var k :| 0 <= k < |db.logs| && db.logs[k] == l;
    assert StationRefOk(db.logs[k], db.stations);
  }
}
