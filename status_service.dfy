/** Per-vehicle progress tracking: a record per vehicle with its ordered list of station
    visits, and the plan counters a quality verdict moves
    (BackEnd/src/production-status/production-status.service.ts). */
module ProductionStatusService {
  import opened Common
  import opened Calendar
  import opened Database
  import opened ProductionPlanService

  datatype CreateStatusDto = CreateStatusDto(modelID: string, vehicleID: string, productionDate: CalDate, remark: Option<string>)

  /** The optional fields of an update request; an absent field is left as it is. */
  datatype UpdateStatusDto = UpdateStatusDto(
    modelID: Option<string>, vehicleID: Option<string>, productionDate: Option<CalDate>, remark: Option<string>)

  /** A station visit to append; without `startTime` the visit starts now. */
  datatype TimelineDto = TimelineDto(stationID: string, stationName: Option<string>, startTime: Option<int>)

  datatype QualityDto = QualityDto(quality: Option<Quality>, remark: Option<string>)

  predicate HasStatusId(ss: seq<ProductionStatus>, id: string) {
    exists s :: s in ss && s.id == id
  }

  predicate HasVehicle(ss: seq<ProductionStatus>, vehicleID: string) {
    exists s :: s in ss && s.vehicleID == vehicleID
  }

  /** No two records share a vehicle number. The schema does not enforce it; the service's
      own checks keep it. */
  ghost predicate VehicleIdsUnique(ss: seq<ProductionStatus>) {
    forall i, j :: 0 <= i < j < |ss| ==> ss[i].vehicleID != ss[j].vehicleID
  }

  /** Every station visit of the timeline is closed. */
  predicate AllClosed(t: seq<TimelineEntry>) {
    forall i :: 0 <= i < |t| ==> t[i].endTime.Some?
  }

  /* ---------- table bookkeeping ---------- */

  lemma StatusesAfterReplace(ss: seq<ProductionStatus>, k: nat, s: ProductionStatus)
    requires StatusesOk(ss) && k < |ss| && s.id == ss[k].id && OnlyLastOpen(s.timeline)
    ensures StatusesOk(ss[k := s]) && StatusIds(ss[k := s]) == StatusIds(ss)
  {
    var r := ss[k := s];
    forall x | x in StatusIds(ss) ensures x in StatusIds(r) {
      var i :| 0 <= i < |ss| && ss[i].id == x;
      assert r[i].id == x;
    }
    forall x | x in StatusIds(r) ensures x in StatusIds(ss) {
      var i :| 0 <= i < |r| && r[i].id == x;
      assert ss[i].id == x;
    }
  }

  lemma StatusesAfterAppend(ss: seq<ProductionStatus>, s: ProductionStatus)
    requires StatusesOk(ss) && s.id !in StatusIds(ss) && OnlyLastOpen(s.timeline)
    ensures StatusesOk(ss + [s])
  {
    var r := ss + [s];
    assert r[|ss|] == s;
    forall i | 0 <= i < |ss| ensures ss[i].id != s.id {
      assert ss[i] in ss;
    }
  }

  /** Record ids are unique, so the row at `i` is the only one with its id. */
  lemma OnlyRowOfId(ss: seq<ProductionStatus>, i: nat)
    requires StatusesOk(ss) && i < |ss|
    ensures forall k :: 0 <= k < |ss| ==> (ss[k].id == ss[i].id <==> k == i)
  {
    forall k | 0 <= k < |ss| && k != i ensures ss[k].id != ss[i].id {
      if k < i { assert ss[k].id != ss[i].id; } else { assert ss[i].id != ss[k].id; }
    }
  }

  /** Removing a record keeps every other record, and only those. */
  lemma StatusesAfterRemove(ss: seq<ProductionStatus>, i: nat)
    requires StatusesOk(ss) && i < |ss|
    ensures StatusesOk(RemoveAt(ss, i))
    ensures forall s :: s in RemoveAt(ss, i) <==> s in ss && s.id != ss[i].id
  {
    var r := RemoveAt(ss, i);
    forall s ensures s in r <==> s in ss && s.id != ss[i].id {
      if s in ss && s.id != ss[i].id {
        var k :| 0 <= k < |ss| && ss[k] == s;
        if k < i { assert r[k] == s; } else { assert r[k - 1] == s; }
      }
      if s in r {
        var k :| 0 <= k < |r| && r[k] == s;
        if k < i { assert r[k] == ss[k]; } else { assert r[k] == ss[k + 1]; }
      }
    }
  }

  /* ---------- the record ---------- */

  /** `findOne`: the record with that id, or not-found; an id that is not uuid text is
      refused by the database. */
  function FindOne(db: Db, id: string): (r: Result<ProductionStatus>)
    reads db
    ensures r.Err? <==> !UuidText(id) || !HasStatusId(db.statuses, id)
    ensures r.Err? ==> r.error == if UuidText(id) then NotFound else DbError
    ensures r.Ok? ==> r.value in db.statuses && r.value.id == id
  {
    if !UuidText(id) then Err(DbError)
    else match Find(db.statuses, (s: ProductionStatus) => s.id == id)
      case None => Err(NotFound)
      case Some(i) => Ok(db.statuses[i])
  }

  /** `create`: refuses a vehicle number in use; otherwise inserts a record with no quality
      verdict and an empty timeline. `newId` is the identifier the database generates. */
  method Create(db: Db, dto: CreateStatusDto, newId: string) returns (r: Result<ProductionStatus>)
    requires db.Valid() && UuidText(newId) && newId !in StatusIds(db.statuses)
    modifies db`statuses
    ensures db.Valid()
    ensures r.Err? <==> old(HasVehicle(db.statuses, dto.vehicleID))
    ensures r.Err? ==> r.error == BadRequest && db.statuses == old(db.statuses)
    ensures r.Ok? ==>
      r.value == ProductionStatus(newId, dto.modelID, dto.vehicleID, dto.productionDate, None, dto.remark, [])
      && db.statuses == old(db.statuses) + [r.value]
    ensures r.Ok? ==> FindOne(db, newId) == r
    ensures VehicleIdsUnique(old(db.statuses)) ==> VehicleIdsUnique(db.statuses)
  {
    var existing := Find(db.statuses, (s: ProductionStatus) => s.vehicleID == dto.vehicleID);
    if existing.Some? {
      return Err(BadRequest);
    }
    var status := ProductionStatus(newId, dto.modelID, dto.vehicleID, dto.productionDate, None, dto.remark, []);
    StatusesAfterAppend(db.statuses, status);
    ghost var before := db.statuses;
    db.statuses := db.statuses + [status];
    forall i | 0 <= i < |before| ensures before[i].vehicleID != status.vehicleID {
      assert before[i] in before;
    }
    r := Ok(status);
  }

  /** An update request that supplies no field at all; the data layer refuses to run an
      update with nothing to set. */
  predicate EmptyUpdate(dto: UpdateStatusDto) {
    dto.modelID.None? && dto.vehicleID.None? && dto.productionDate.None? && dto.remark.None?
  }

  /** `repository.update(id, dto)`: the supplied fields overwrite the stored ones. */
  function ApplyUpdate(s: ProductionStatus, dto: UpdateStatusDto): (r: ProductionStatus)
    ensures r.id == s.id && r.quality == s.quality && r.timeline == s.timeline
    ensures r.modelID == dto.modelID.GetOr(s.modelID) && r.vehicleID == dto.vehicleID.GetOr(s.vehicleID)
    ensures r.productionDate == dto.productionDate.GetOr(s.productionDate)
    ensures r.remark == if dto.remark.Some? then dto.remark else s.remark
  {
    s.(modelID := dto.modelID.GetOr(s.modelID), vehicleID := dto.vehicleID.GetOr(s.vehicleID),
       productionDate := dto.productionDate.GetOr(s.productionDate),
       remark := if dto.remark.Some? then dto.remark else s.remark)
  }

  /** Replacing a record by one whose vehicle number is its own or held by no record keeps
      vehicle numbers unique. */
  lemma VehicleIdsAfterReplace(ss: seq<ProductionStatus>, i: nat, s: ProductionStatus)
    requires VehicleIdsUnique(ss) && i < |ss|
    requires s.vehicleID == ss[i].vehicleID || !HasVehicle(ss, s.vehicleID)
    ensures VehicleIdsUnique(ss[i := s])
  {
    var r := ss[i := s];
    forall a, b | 0 <= a < b < |r| ensures r[a].vehicleID != r[b].vehicleID {
      if a == i || b == i {
        var o := if a == i then b else a;
        assert ss[o] in ss;
      }
    }
  }

  /** `update`: the lookup's error for an id that is not uuid text or not known; refuses a
      change to a vehicle number another record holds (an empty new number skips that
      check); refuses a request with no field to set; otherwise overwrites the supplied
      fields of that record only. Uniqueness of vehicle numbers survives every update that
      does not set the number to the empty string. */
  method Update(db: Db, id: string, dto: UpdateStatusDto) returns (r: Result<ProductionStatus>)
    requires db.Valid()
    modifies db`statuses
    ensures db.Valid()
    ensures old(FindOne(db, id)).Err? ==>
      r == Err(old(FindOne(db, id)).error) && db.statuses == old(db.statuses)
    ensures old(FindOne(db, id)).Ok? ==>
      var s := old(FindOne(db, id)).value;
      if dto.vehicleID.Some? && dto.vehicleID.value != "" && dto.vehicleID.value != s.vehicleID
         && old(HasVehicle(db.statuses, dto.vehicleID.value)) then
        r == Err(BadRequest) && db.statuses == old(db.statuses)
      else if EmptyUpdate(dto) then
        r == Err(DbError) && db.statuses == old(db.statuses)
      else
        r == Ok(ApplyUpdate(s, dto))
        && |db.statuses| == |old(db.statuses)|
        && forall k :: 0 <= k < |db.statuses| ==>
             db.statuses[k] == if old(db.statuses)[k].id == id then ApplyUpdate(s, dto) else old(db.statuses)[k]
    ensures VehicleIdsUnique(old(db.statuses)) && (dto.vehicleID.None? || dto.vehicleID.value != "") ==>
      VehicleIdsUnique(db.statuses)
  {
    if !UuidText(id) {
      return Err(DbError);
    }
    var found := Find(db.statuses, (s: ProductionStatus) => s.id == id);
    if found.None? {
      return Err(NotFound);
    }
    var i := found.value;
    var status := db.statuses[i];
    assert FindOne(db, id) == Ok(status);
    if dto.vehicleID.Some? && dto.vehicleID.value != "" && dto.vehicleID.value != status.vehicleID {
      var existing := Find(db.statuses, (s: ProductionStatus) => s.vehicleID == dto.vehicleID.value);
      if existing.Some? {
        return Err(BadRequest);
      }
    }
    if EmptyUpdate(dto) {
      return Err(DbError);
    }
    var updated := ApplyUpdate(status, dto);
    StatusesAfterReplace(db.statuses, i, updated);
    OnlyRowOfId(db.statuses, i);
    if VehicleIdsUnique(db.statuses) && (dto.vehicleID.None? || dto.vehicleID.value != "") {
      VehicleIdsAfterReplace(db.statuses, i, updated);
    }
    db.statuses := db.statuses[i := updated];
    r := Ok(updated);
  }

  /* ---------- the timeline ---------- */

  /** Closes the last visit at `at` when it is still open; every other visit is kept. */
  function CloseLast(t: seq<TimelineEntry>, at: int): (r: seq<TimelineEntry>)
    ensures |r| == |t|
    ensures forall i :: 0 <= i < |t| - 1 ==> r[i] == t[i]
    ensures |t| > 0 ==> r[|t| - 1] == if t[|t| - 1].endTime.None? then t[|t| - 1].(endTime := Some(at)) else t[|t| - 1]
    ensures OnlyLastOpen(t) ==> AllClosed(r)
  {
    if |t| > 0 && t[|t| - 1].endTime.None? then t[|t| - 1 := t[|t| - 1].(endTime := Some(at))] else t
  }

  /** Closing twice closes once: the second close finds nothing open. */
  lemma CloseLastIdempotent(t: seq<TimelineEntry>, at: int, later: int)
    ensures CloseLast(CloseLast(t, at), later) == CloseLast(t, at)
  {
  }

  /** The timeline after a visit to a new station: the visit in progress ends when the new
      one starts, and the new one is the only open visit. */
  function WithStation(t: seq<TimelineEntry>, e: TimelineEntry): (r: seq<TimelineEntry>)
    requires e.endTime.None?
    ensures |r| == |t| + 1 && r[|t|] == e
    ensures forall i :: 0 <= i < |t| - 1 ==> r[i] == t[i]
    ensures |t| > 0 ==> r[|t| - 1] == if t[|t| - 1].endTime.None? then t[|t| - 1].(endTime := Some(e.startTime)) else t[|t| - 1]
    ensures OnlyLastOpen(t) ==> OnlyLastOpen(r) && AllClosed(r[..|t|])
  {
    var closed := CloseLast(t, e.startTime);
    var r := closed + [e];
    assert r[..|t|] == closed;
    r
  }

  /** `addStationToTimeline`: the lookup's error for an id that is not uuid text or not
      known; otherwise appends the visit, which starts at the requested time or now, and
      closes the visit in progress at that moment. */
  method AddStationToTimeline(db: Db, id: string, dto: TimelineDto, now: int) returns (r: Result<ProductionStatus>)
    requires db.Valid()
    modifies db`statuses
    ensures db.Valid()
    ensures old(FindOne(db, id)).Err? ==>
      r == Err(old(FindOne(db, id)).error) && db.statuses == old(db.statuses)
    ensures old(FindOne(db, id)).Ok? ==>
      var s := old(FindOne(db, id)).value;
      var e := TimelineEntry(dto.stationID, dto.stationName, dto.startTime.GetOr(now), None);
      r == Ok(s.(timeline := WithStation(s.timeline, e)))
      && |db.statuses| == |old(db.statuses)|
      && forall k :: 0 <= k < |db.statuses| ==>
           db.statuses[k] == if old(db.statuses)[k].id == id then r.value else old(db.statuses)[k]
  {
    if !UuidText(id) {
      return Err(DbError);
    }
    var found := Find(db.statuses, (s: ProductionStatus) => s.id == id);
    if found.None? {
      return Err(NotFound);
    }
    var i := found.value;
    var status := db.statuses[i];
    var timeline := status.timeline;
    var startTime := dto.startTime.GetOr(now);
    if |timeline| > 0 {
      var last := timeline[|timeline| - 1];
      if last.endTime.None? {
        timeline := timeline[|timeline| - 1 := last.(endTime := Some(startTime))];
      }
    }
    timeline := timeline + [TimelineEntry(dto.stationID, dto.stationName, startTime, None)];
    assert timeline == WithStation(status.timeline, TimelineEntry(dto.stationID, dto.stationName, startTime, None));
    assert status in db.statuses;
    var updated := status.(timeline := timeline);
    StatusesAfterReplace(db.statuses, i, updated);
    OnlyRowOfId(db.statuses, i);
    ghost var before := db.statuses;
    db.statuses := db.statuses[i := updated];
    r := Ok(updated);
  }

  /* ---------- plan counters ---------- */

  /** Which way a quality verdict moves the counters: `updateQuality` counts a vehicle,
      `remove` uncounts it. */
  datatype Direction = Up | Down

  /** One count up, or one count down but never below zero. */
  function Step(n: int, dir: Direction): int {
    match dir
    case Up => n + 1
    case Down => if n - 1 > 0 then n - 1 else 0
  }

  datatype PlanTables = PlanTables(daily: seq<DailyPlan>, monthly: seq<MonthPlan>)

  /** The month plan `m` is the one the (model, date) daily plan links to. */
  predicate LinkedMonth(ds: seq<DailyPlan>, model: string, date: CalDate, m: MonthPlan) {
    exists i :: 0 <= i < |ds| && IsDayKey(ds[i], model, date) && ds[i].monthPlanId == Some(m.id)
  }

  function FindMonthById(ms: seq<MonthPlan>, id: string): (r: Option<nat>)
    ensures r.Some? ==> r.value < |ms| && ms[r.value].id == id
    ensures r.None? ==> forall k :: 0 <= k < |ms| ==> ms[k].id != id
  {
    Find(ms, (m: MonthPlan) => m.id == id)
  }

  /** The plan tables after `updateProductionPlanCount` (`Up`) or `decrementProductionPlanCount`
      (`Down`): the (model, date) daily plan's `actualDay` moves one step and so does the
      `cumulative` of the month plan it links to; without such a daily plan nothing changes. */
  function AdjustCount(ds: seq<DailyPlan>, ms: seq<MonthPlan>, model: string, date: CalDate, dir: Direction): (r: PlanTables)
    ensures |r.daily| == |ds| && |r.monthly| == |ms|
  {
    match FindDailyPlan(ds, model, date)
    case None => PlanTables(ds, ms)
    case Some(k) =>
      var d := ds[k];
      var monthly :=
        match d.monthPlanId
        case None => ms
        case Some(mid) =>
          match FindMonthById(ms, mid)
          case None => ms
          case Some(j) => ms[j := ms[j].(cumulative := Step(ms[j].cumulative, dir))];
      PlanTables(ds[k := d.(actualDay := Step(d.actualDay, dir))], monthly)
  }

  /** Row by row: exactly the daily plan with the key moves, and exactly the month plan it
      links to moves; every other row is unchanged. */
  lemma AdjustCountRows(ds: seq<DailyPlan>, ms: seq<MonthPlan>, model: string, date: CalDate, dir: Direction)
    requires DayKeysUnique(ds) && MonthPlansOk(ms)
    ensures forall i :: 0 <= i < |ds| ==>
      AdjustCount(ds, ms, model, date, dir).daily[i]
        == if IsDayKey(ds[i], model, date) then ds[i].(actualDay := Step(ds[i].actualDay, dir)) else ds[i]
    ensures forall j :: 0 <= j < |ms| ==>
      AdjustCount(ds, ms, model, date, dir).monthly[j]
        == if LinkedMonth(ds, model, date, ms[j]) then ms[j].(cumulative := Step(ms[j].cumulative, dir)) else ms[j]
  {
    var r := AdjustCount(ds, ms, model, date, dir);
    match FindDailyPlan(ds, model, date)
    case None =>
      forall j | 0 <= j < |ms| ensures !LinkedMonth(ds, model, date, ms[j]) {
        forall i | 0 <= i < |ds| ensures !IsDayKey(ds[i], model, date) {
        }
      }
    case Some(k) =>
      forall i | 0 <= i < |ds| && i != k ensures !IsDayKey(ds[i], model, date) {
        if i < k { assert ds[i].model != ds[k].model || ds[i].workDate != ds[k].workDate; }
        else { assert ds[k].model != ds[i].model || ds[k].workDate != ds[i].workDate; }
      }
      forall j | 0 <= j < |ms| ensures LinkedMonth(ds, model, date, ms[j]) <==> ds[k].monthPlanId == Some(ms[j].id) {
      }
      match ds[k].monthPlanId
      case None =>
      case Some(mid) =>
        match FindMonthById(ms, mid)
        case None =>
        case Some(j0) =>
          forall j | 0 <= j < |ms| && j != j0 ensures ms[j].id != mid {
            if j < j0 { assert ms[j].id != ms[j0].id; } else { assert ms[j0].id != ms[j].id; }
          }
  }

  /** Moving the counters changes only `actualDay` and `cumulative`. */
  lemma AdjustCountShape(ds: seq<DailyPlan>, ms: seq<MonthPlan>, model: string, date: CalDate, dir: Direction)
    ensures var r := AdjustCount(ds, ms, model, date, dir);
      && (forall i :: 0 <= i < |ds| ==> r.daily[i] == ds[i].(actualDay := r.daily[i].actualDay))
      && (forall j :: 0 <= j < |ms| ==> r.monthly[j] == ms[j].(cumulative := r.monthly[j].cumulative))
  {
  }

  /** Moving the counters keeps every key, id and month link, so the tables stay well formed. */
  lemma AdjustCountKeepsTables(ds: seq<DailyPlan>, ms: seq<MonthPlan>, model: string, date: CalDate, dir: Direction)
    requires DailyPlansOk(ds, ms) && MonthPlansOk(ms)
    ensures DailyPlansOk(AdjustCount(ds, ms, model, date, dir).daily, AdjustCount(ds, ms, model, date, dir).monthly)
    ensures MonthPlansOk(AdjustCount(ds, ms, model, date, dir).monthly)
    ensures MonthPlanIds(AdjustCount(ds, ms, model, date, dir).monthly) == MonthPlanIds(ms)
  {
    var r := AdjustCount(ds, ms, model, date, dir);
    AdjustCountShape(ds, ms, model, date, dir);
    forall x | x in MonthPlanIds(ms) ensures x in MonthPlanIds(r.monthly) {
      var j :| 0 <= j < |ms| && ms[j].id == x;
      assert r.monthly[j].id == x;
    }
    forall x | x in MonthPlanIds(r.monthly) ensures x in MonthPlanIds(ms) {
      var j :| 0 <= j < |r.monthly| && r.monthly[j].id == x;
      assert ms[j].id == x;
    }
    forall i | 0 <= i < |r.daily| ensures MonthRefOk(r.daily[i], r.monthly) {
      assert MonthRefOk(ds[i], ms);
    }
  }

  /** Moving the counters changes no key and no link, so the same month plans stay linked. */
  lemma LinksKept(ds: seq<DailyPlan>, ms: seq<MonthPlan>, model: string, date: CalDate, dir: Direction)
    ensures forall j :: 0 <= j < |ms| ==>
      (LinkedMonth(AdjustCount(ds, ms, model, date, dir).daily, model, date, AdjustCount(ds, ms, model, date, dir).monthly[j])
       <==> LinkedMonth(ds, model, date, ms[j]))
  {
    var r := AdjustCount(ds, ms, model, date, dir);
    AdjustCountShape(ds, ms, model, date, dir);
    forall j | 0 <= j < |ms| ensures LinkedMonth(r.daily, model, date, r.monthly[j]) <==> LinkedMonth(ds, model, date, ms[j]) {
      assert r.monthly[j].id == ms[j].id;
      if LinkedMonth(ds, model, date, ms[j]) {
        var i :| 0 <= i < |ds| && IsDayKey(ds[i], model, date) && ds[i].monthPlanId == Some(ms[j].id);
        assert IsDayKey(r.daily[i], model, date) && r.daily[i].monthPlanId == Some(r.monthly[j].id);
      }
      if LinkedMonth(r.daily, model, date, r.monthly[j]) {
        var i :| 0 <= i < |r.daily| && IsDayKey(r.daily[i], model, date) && r.daily[i].monthPlanId == Some(r.monthly[j].id);
        assert IsDayKey(ds[i], model, date) && ds[i].monthPlanId == Some(ms[j].id);
      }
    }
  }

  /** Counters that are not negative come back to where they were when a count up is
      followed by a count down: `remove` undoes the count of `updateQuality`. */
  lemma DownUndoesUp(ds: seq<DailyPlan>, ms: seq<MonthPlan>, model: string, date: CalDate)
    requires DailyPlansOk(ds, ms) && MonthPlansOk(ms)
    requires forall i :: 0 <= i < |ds| ==> ds[i].actualDay >= 0
    requires forall j :: 0 <= j < |ms| ==> ms[j].cumulative >= 0
    ensures var up := AdjustCount(ds, ms, model, date, Up);
            AdjustCount(up.daily, up.monthly, model, date, Down) == PlanTables(ds, ms)
  {
    var up := AdjustCount(ds, ms, model, date, Up);
    var down := AdjustCount(up.daily, up.monthly, model, date, Down);
    DownUndoesUpDaily(ds, ms, model, date);
    DownUndoesUpMonthly(ds, ms, model, date);
    assert down.daily == ds;
    assert down.monthly == ms;
  }

  lemma DownUndoesUpDaily(ds: seq<DailyPlan>, ms: seq<MonthPlan>, model: string, date: CalDate)
    requires DailyPlansOk(ds, ms) && MonthPlansOk(ms)
    requires forall i :: 0 <= i < |ds| ==> ds[i].actualDay >= 0
    ensures var up := AdjustCount(ds, ms, model, date, Up);
      forall i :: 0 <= i < |ds| ==> AdjustCount(up.daily, up.monthly, model, date, Down).daily[i] == ds[i]
  {
    var up := AdjustCount(ds, ms, model, date, Up);
    AdjustCountRows(ds, ms, model, date, Up);
    AdjustCountKeepsTables(ds, ms, model, date, Up);
    var down := AdjustCount(up.daily, up.monthly, model, date, Down);
    AdjustCountRows(up.daily, up.monthly, model, date, Down);
    forall i | 0 <= i < |ds| ensures down.daily[i] == ds[i] {
      if IsDayKey(ds[i], model, date) {
        assert up.daily[i] == ds[i].(actualDay := ds[i].actualDay + 1);
        assert IsDayKey(up.daily[i], model, date);
      } else {
        assert up.daily[i] == ds[i];
      }
    }
  }

  lemma DownUndoesUpMonthly(ds: seq<DailyPlan>, ms: seq<MonthPlan>, model: string, date: CalDate)
    requires DailyPlansOk(ds, ms) && MonthPlansOk(ms)
    requires forall j :: 0 <= j < |ms| ==> ms[j].cumulative >= 0
    ensures var up := AdjustCount(ds, ms, model, date, Up);
      forall j :: 0 <= j < |ms| ==> AdjustCount(up.daily, up.monthly, model, date, Down).monthly[j] == ms[j]
  {
    var up := AdjustCount(ds, ms, model, date, Up);
    AdjustCountRows(ds, ms, model, date, Up);
    AdjustCountKeepsTables(ds, ms, model, date, Up);
    var down := AdjustCount(up.daily, up.monthly, model, date, Down);
    AdjustCountRows(up.daily, up.monthly, model, date, Down);
    LinksKept(ds, ms, model, date, Up);
    forall j | 0 <= j < |ms| ensures down.monthly[j] == ms[j] {
      if LinkedMonth(ds, model, date, ms[j]) {
        assert up.monthly[j] == ms[j].(cumulative := ms[j].cumulative + 1);
      } else {
        assert up.monthly[j] == ms[j];
      }
    }
  }

  /** Counting is not idempotent: two counts up add two to the matching rows. */
  lemma TwoUpsAddTwo(ds: seq<DailyPlan>, ms: seq<MonthPlan>, model: string, date: CalDate)
    requires DailyPlansOk(ds, ms) && MonthPlansOk(ms)
    ensures var up := AdjustCount(ds, ms, model, date, Up);
            var up2 := AdjustCount(up.daily, up.monthly, model, date, Up);
            && (forall i :: 0 <= i < |ds| ==>
                  up2.daily[i] == if IsDayKey(ds[i], model, date) then ds[i].(actualDay := ds[i].actualDay + 2) else ds[i])
            && (forall j :: 0 <= j < |ms| ==>
                  up2.monthly[j] == if LinkedMonth(ds, model, date, ms[j]) then ms[j].(cumulative := ms[j].cumulative + 2) else ms[j])
  {
    var up := AdjustCount(ds, ms, model, date, Up);
    AdjustCountRows(ds, ms, model, date, Up);
    AdjustCountKeepsTables(ds, ms, model, date, Up);
    AdjustCountRows(up.daily, up.monthly, model, date, Up);
    LinksKept(ds, ms, model, date, Up);
  }

  /** `updateProductionPlanCount` / `decrementProductionPlanCount`: finds the daily plan of the
      model and date, moves its `actualDay`, saves it, then moves the `cumulative` of the month
      plan it links to and saves that. */
  method AdjustPlanCount(db: Db, model: string, date: CalDate, dir: Direction)
    requires db.Valid()
    modifies db`dailyPlans, db`monthPlans
    ensures db.Valid()
    ensures PlanTables(db.dailyPlans, db.monthPlans) == AdjustCount(old(db.dailyPlans), old(db.monthPlans), model, date, dir)
  {
    AdjustCountKeepsTables(db.dailyPlans, db.monthPlans, model, date, dir);
    var found := FindDailyPlan(db.dailyPlans, model, date);
    if found.None? {
      return;
    }
    var k := found.value;
    var dailyPlan := db.dailyPlans[k];
    dailyPlan := dailyPlan.(actualDay := Step(dailyPlan.actualDay, dir));
    db.dailyPlans := db.dailyPlans[k := dailyPlan];
    if dailyPlan.monthPlanId.Some? {
      var j := FindMonthById(db.monthPlans, dailyPlan.monthPlanId.value);
      if j.Some? {
        var monthPlan := db.monthPlans[j.value];
        monthPlan := monthPlan.(cumulative := Step(monthPlan.cumulative, dir));
        db.monthPlans := db.monthPlans[j.value := monthPlan];
      }
    }
  }

  /* ---------- quality verdict and removal ---------- */

  /** The record after a quality verdict: the visit in progress ends `now`, and the verdict
      and remark replace the stored ones when they are supplied. */
  function WithQuality(s: ProductionStatus, dto: QualityDto, now: int): (r: ProductionStatus)
    ensures r.id == s.id && r.modelID == s.modelID && r.vehicleID == s.vehicleID
    ensures r.productionDate == s.productionDate
    ensures r.quality == (if dto.quality.Some? then dto.quality else s.quality)
    ensures r.remark == (if dto.remark.Some? then dto.remark else s.remark)
    ensures r.timeline == CloseLast(s.timeline, now)
    ensures OnlyLastOpen(s.timeline) ==> AllClosed(r.timeline)
  {
    s.(quality := if dto.quality.Some? then dto.quality else s.quality,
       remark := if dto.remark.Some? then dto.remark else s.remark,
       timeline := CloseLast(s.timeline, now))
  }

  /** The found-record half of `updateQuality`: record `i` gets the verdict, the remark and
      the closed timeline, and a given verdict counts the plan tables up once. */
  method SetQualityAt(db: Db, i: nat, dto: QualityDto, now: int) returns (updated: ProductionStatus)
    requires db.Valid() && i < |db.statuses|
    modifies db`statuses, db`dailyPlans, db`monthPlans
    ensures db.Valid()
    ensures updated == WithQuality(old(db.statuses)[i], dto, now)
    ensures db.statuses == old(db.statuses)[i := updated]
    ensures PlanTables(db.dailyPlans, db.monthPlans)
         == if dto.quality.Some? then
              AdjustCount(old(db.dailyPlans), old(db.monthPlans), old(db.statuses)[i].modelID, old(db.statuses)[i].productionDate, Up)
            else PlanTables(old(db.dailyPlans), old(db.monthPlans))
  {
    var status := db.statuses[i];
    var timeline := status.timeline;
    if |timeline| > 0 {
      var last := timeline[|timeline| - 1];
      if last.endTime.None? {
        timeline := timeline[|timeline| - 1 := last.(endTime := Some(now))];
      }
    }
    updated := status.(quality := if dto.quality.Some? then dto.quality else status.quality,
                       remark := if dto.remark.Some? then dto.remark else status.remark,
                       timeline := timeline);
    assert updated == WithQuality(status, dto, now);
    assert status in db.statuses;
    StatusesAfterReplace(db.statuses, i, updated);
    db.statuses := db.statuses[i := updated];
    if dto.quality.Some? {
      AdjustPlanCount(db, status.modelID, status.productionDate, Up);
    }
  }

  /** `updateQuality`: the lookup's error for an id that is not uuid text or not known;
      otherwise closes the visit in progress at `now`, stores the verdict and remark, and,
      when a verdict is given, counts the vehicle once in its model's plan for its
      production date. */
  method UpdateQuality(db: Db, id: string, dto: QualityDto, now: int) returns (r: Result<ProductionStatus>)
    requires db.Valid()
    modifies db`statuses, db`dailyPlans, db`monthPlans
    ensures db.Valid()
    ensures old(FindOne(db, id)).Err? ==>
      r == Err(old(FindOne(db, id)).error) && db.statuses == old(db.statuses)
      && db.dailyPlans == old(db.dailyPlans) && db.monthPlans == old(db.monthPlans)
    ensures old(FindOne(db, id)).Ok? ==>
      var s := old(FindOne(db, id)).value;
      && r == Ok(WithQuality(s, dto, now))
      && |db.statuses| == |old(db.statuses)|
      && (forall k :: 0 <= k < |db.statuses| ==>
            db.statuses[k] == if old(db.statuses)[k].id == id then r.value else old(db.statuses)[k])
      && PlanTables(db.dailyPlans, db.monthPlans)
         == if dto.quality.Some? then AdjustCount(old(db.dailyPlans), old(db.monthPlans), s.modelID, s.productionDate, Up)
            else PlanTables(old(db.dailyPlans), old(db.monthPlans))
  {
    if !UuidText(id) {
      return Err(DbError);
    }
    var found := Find(db.statuses, (s: ProductionStatus) => s.id == id);
    if found.None? {
      return Err(NotFound);
    }
    var i := found.value;
    assert FindOne(db, id) == Ok(db.statuses[i]);
    OnlyRowOfId(db.statuses, i);
    var updated := SetQualityAt(db, i, dto, now);
    r := Ok(updated);
  }

  /** `remove`: the lookup's error for an id that is not uuid text or not known; otherwise,
      when the record carries a verdict, takes its count back from the plan (never below
      zero), then deletes the record. */
  method Remove(db: Db, id: string) returns (r: Outcome)
    requires db.Valid()
    modifies db`statuses, db`dailyPlans, db`monthPlans
    ensures db.Valid()
    ensures old(FindOne(db, id)).Err? ==>
      r == Fail(old(FindOne(db, id)).error) && db.statuses == old(db.statuses)
      && db.dailyPlans == old(db.dailyPlans) && db.monthPlans == old(db.monthPlans)
    ensures old(FindOne(db, id)).Ok? ==>
      var s := old(FindOne(db, id)).value;
      && r == Pass
      && |db.statuses| == |old(db.statuses)| - 1
      && (forall x :: x in db.statuses <==> x in old(db.statuses) && x.id != id)
      && PlanTables(db.dailyPlans, db.monthPlans)
         == if s.quality.Some? then AdjustCount(old(db.dailyPlans), old(db.monthPlans), s.modelID, s.productionDate, Down)
            else PlanTables(old(db.dailyPlans), old(db.monthPlans))
  {
    if !UuidText(id) {
      return Fail(DbError);
    }
    var found := Find(db.statuses, (s: ProductionStatus) => s.id == id);
    if found.None? {
      return Fail(NotFound);
    }
    var i := found.value;
    var status := db.statuses[i];
    if status.quality.Some? {
      AdjustPlanCount(db, status.modelID, status.productionDate, Down);
    }
    StatusesAfterRemove(db.statuses, i);
    db.statuses := RemoveAt(db.statuses, i);
    r := Pass;
  }
}
