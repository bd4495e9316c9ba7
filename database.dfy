/** The rows of the backend's tables and the database object that holds them. Every service
    works on one shared `Db`, as all repositories of the application share one PostgreSQL
    database. `Valid` collects the primary keys, unique constraints and foreign keys the
    schema declares, plus the timeline invariant the status service keeps. */
module Database {
  import opened Common
  import opened Calendar

  /** A vehicle model (table `models`); `modelId` is the primary key. */
  datatype Model = Model(modelId: string, name: string, description: Option<string>)

  /** An assembly station (table `station`); `code` is unique. */
  datatype Station = Station(id: string, code: string, name: string, sequence: int, isActive: bool)

  datatype Quality = OK | NG

  /** A production run of one day (table `production`). */
  datatype Production = Production(
    id: string, productionNo: string, model: string, productionDate: CalDate,
    qualityStatus: Option<Quality>, remark: Option<string>)

  datatype StationStatus = PENDING | RUNNING | COMPLETED | STOP

  /** One production's record at one station (table `production_station_log`); the pair
      (production, station) is unique. Timestamps are milliseconds. */
  datatype StationLog = StationLog(
    id: string, productionId: string, stationId: Option<string>,
    status: Option<StationStatus>, reason: Option<string>,
    startTime: Option<int>, endTime: Option<int>, periodMinutes: Option<real>)

  /** A month target (table `production_month_plans`); (model, planMonth) is unique and
      `planMonth` is the first day of the month. */
  datatype MonthPlan = MonthPlan(id: string, model: string, planMonth: CalDate, plannedMonth: int, cumulative: int)

  /** A day's target and result (table `production_daily_plans`); (model, workDate) is unique;
      `monthPlanId` is the optional link to a month plan, deleted with it. */
  datatype DailyPlan = DailyPlan(
    id: string, model: string, workDate: CalDate, plannedDay: int, actualDay: int,
    monthPlanId: Option<string>)

  /* ---------- uuid keys ---------- */

  predicate IsHexDigit(c: char) {
    '0' <= c <= '9' || 'a' <= c <= 'f' || 'A' <= c <= 'F'
  }

  /** Whether `s[pos..end]` completes a uuid text whose first `i` of 16 bytes are read: two
      hex digits per byte, and one optional `-` after every second byte but the last. */
  predicate UuidDigits(s: string, pos: nat, end: nat, i: nat)
    requires pos <= end <= |s| && i <= 16
    decreases 16 - i
  {
    if i == 16 then pos == end
    else
      pos + 2 <= end && IsHexDigit(s[pos]) && IsHexDigit(s[pos + 1])
      && if pos + 2 < end && s[pos + 2] == '-' && i % 2 == 1 && i < 15 then UuidDigits(s, pos + 3, end, i + 1)
         else UuidDigits(s, pos + 2, end, i + 1)
  }

  /** Text PostgreSQL's `uuid` type accepts as input (section 8.12 of the PostgreSQL manual):
      32 hex digits of either case, a hyphen allowed after any group of four, the whole
      optionally in braces. Any other text is refused with a syntax error before a row is
      looked at; the tables' generated keys (`PrimaryGeneratedColumn('uuid')`) are all such. */
  predicate UuidText(s: string) {
    if |s| > 0 && s[0] == '{' then |s| >= 2 && s[|s| - 1] == '}' && UuidDigits(s, 1, |s| - 1, 0)
    else UuidDigits(s, 0, |s|, 0)
  }

  /** The hyphens a uuid text may still hold from byte `i` on. */
  function HyphensFrom(i: nat): nat
    decreases 16 - i
  {
    if i >= 15 then 0 else (if i % 2 == 1 then 1 else 0) + HyphensFrom(i + 1)
  }

  lemma {:induction false} UuidDigitsLength(s: string, pos: nat, end: nat, i: nat)
    requires pos <= end <= |s| && i <= 16 && UuidDigits(s, pos, end, i)
    ensures 2 * (16 - i) <= end - pos <= 2 * (16 - i) + HyphensFrom(i)
    decreases 16 - i
  {
    if i < 16 {
      if pos + 2 < end && s[pos + 2] == '-' && i % 2 == 1 && i < 15 {
        UuidDigitsLength(s, pos + 3, end, i + 1);
      } else {
        UuidDigitsLength(s, pos + 2, end, i + 1);
      }
    }
  }

  /** A uuid text has 32 to 41 characters, so a short text such as "abc" is never one. */
  lemma UuidTextLength(s: string)
    requires UuidText(s)
    ensures 32 <= |s| <= 41
  {
    assert HyphensFrom(0) == 7;
    if |s| > 0 && s[0] == '{' {
      UuidDigitsLength(s, 1, |s| - 1, 0);
    } else {
      UuidDigitsLength(s, 0, |s|, 0);
    }
  }

  /** The hyphenated 8-4-4-4-12 form the database generates its keys in. */
  predicate CanonicalUuid(s: string) {
    |s| == 36
    && forall k :: 0 <= k < 36 ==>
         if k == 8 || k == 13 || k == 18 || k == 23 then s[k] == '-' else IsHexDigit(s[k])
  }

  /** Where byte `i` starts in the canonical form. */
  function CanonicalOffset(i: nat): nat {
    2 * i + (if i <= 3 then 0 else if i <= 5 then 1 else if i <= 7 then 2 else if i <= 9 then 3 else 4)
  }

  lemma {:induction false} CanonicalDigits(s: string, i: nat)
    requires CanonicalUuid(s) && i <= 16
    ensures UuidDigits(s, CanonicalOffset(i), 36, i)
    decreases 16 - i
  {
    if i < 16 {
      var o := CanonicalOffset(i);
      CanonicalDigits(s, i + 1);
      assert IsHexDigit(s[o]) && IsHexDigit(s[o + 1]);
      if i == 3 || i == 5 || i == 7 || i == 9 {
        assert s[o + 2] == '-' && CanonicalOffset(i + 1) == o + 3;
      } else {
        assert CanonicalOffset(i + 1) == o + 2;
        if o + 2 < 36 {
          assert IsHexDigit(s[o + 2]);
        }
      }
    }
  }

  /** Every key in the canonical form is accepted as a uuid. */
  lemma CanonicalIsUuid(s: string)
    requires CanonicalUuid(s)
    ensures UuidText(s)
  {
    CanonicalDigits(s, 0);
    assert IsHexDigit(s[0]);
  }

  /** One station visit of a vehicle; an absent `endTime` marks the station it is at. */
  datatype TimelineEntry = TimelineEntry(stationID: string, stationName: Option<string>, startTime: int, endTime: Option<int>)

  /** The tracked progress of one vehicle (table `production_status`). */
  datatype ProductionStatus = ProductionStatus(
    id: string, modelID: string, vehicleID: string, productionDate: CalDate,
    quality: Option<Quality>, remark: Option<string>, timeline: seq<TimelineEntry>)

  /** Only the last station visit may still be open. */
  predicate OnlyLastOpen(t: seq<TimelineEntry>) {
    forall i :: 0 <= i < |t| - 1 ==> t[i].endTime.Some?
  }

  ghost predicate ModelsOk(ms: seq<Model>) {
    forall i, j :: 0 <= i < j < |ms| ==> ms[i].modelId != ms[j].modelId
  }

  ghost predicate StationsOk(ss: seq<Station>) {
    forall i, j :: 0 <= i < j < |ss| ==> ss[i].id != ss[j].id && ss[i].code != ss[j].code
  }

  ghost predicate ProductionsOk(ps: seq<Production>) {
    forall i, j :: 0 <= i < j < |ps| ==> ps[i].id != ps[j].id
  }

  function StationIds(ss: seq<Station>): set<string> {
    set s | s in ss :: s.id
  }

  function ProductionIds(ps: seq<Production>): set<string> {
    set p | p in ps :: p.id
  }

  function LogIds(ls: seq<StationLog>): set<string> {
    set l | l in ls :: l.id
  }

  function MonthPlanIds(ms: seq<MonthPlan>): set<string> {
    set m | m in ms :: m.id
  }

  function DailyPlanIds(ds: seq<DailyPlan>): set<string> {
    set d | d in ds :: d.id
  }

  function StatusIds(ss: seq<ProductionStatus>): set<string> {
    set s | s in ss :: s.id
  }

  /** The station a log row refers to, if any, exists. */
  predicate StationRefOk(l: StationLog, ss: seq<Station>) {
    l.stationId.Some? ==> l.stationId.value in StationIds(ss)
  }

  ghost predicate LogsOk(ls: seq<StationLog>, ps: seq<Production>, ss: seq<Station>) {
    && (forall i, j :: 0 <= i < j < |ls| ==> ls[i].id != ls[j].id)
    && (forall i, j :: 0 <= i < j < |ls| && ls[i].stationId.Some? ==>
          ls[i].productionId != ls[j].productionId || ls[i].stationId != ls[j].stationId)
    && (forall i :: 0 <= i < |ls| ==> ls[i].productionId in ProductionIds(ps) && StationRefOk(ls[i], ss))
  }

  ghost predicate MonthPlansOk(ms: seq<MonthPlan>) {
    forall i, j :: 0 <= i < j < |ms| ==>
      ms[i].id != ms[j].id && (ms[i].model != ms[j].model || ms[i].planMonth != ms[j].planMonth)
  }

  /** A daily plan links to no month plan or to one that exists. */
  predicate MonthRefOk(d: DailyPlan, ms: seq<MonthPlan>) {
    d.monthPlanId.Some? ==> d.monthPlanId.value in MonthPlanIds(ms)
  }

  ghost predicate DailyPlansOk(ds: seq<DailyPlan>, ms: seq<MonthPlan>) {
    && (forall i, j :: 0 <= i < j < |ds| ==>
          ds[i].id != ds[j].id && (ds[i].model != ds[j].model || ds[i].workDate != ds[j].workDate))
    && (forall i :: 0 <= i < |ds| ==> MonthRefOk(ds[i], ms))
  }

  ghost predicate StatusesOk(ss: seq<ProductionStatus>) {
    && (forall i, j :: 0 <= i < j < |ss| ==> ss[i].id != ss[j].id)
    && (forall i :: 0 <= i < |ss| ==> OnlyLastOpen(ss[i].timeline))
  }

  /** Removes the row at index `i`. */
  function RemoveAt<T>(s: seq<T>, i: nat): (r: seq<T>)
    requires i < |s|
    ensures |r| == |s| - 1
    ensures forall k :: 0 <= k < i ==> r[k] == s[k]
    ensures forall k :: i <= k < |r| ==> r[k] == s[k + 1]
  {
    s[..i] + s[i + 1..]
  }

  class Db {
    var models: seq<Model>
    var stations: seq<Station>
    var productions: seq<Production>
    var logs: seq<StationLog>
    var monthPlans: seq<MonthPlan>
    var dailyPlans: seq<DailyPlan>
    var statuses: seq<ProductionStatus>

    ghost predicate Valid()
      reads this
    {
      && ModelsOk(models)
      && StationsOk(stations)
      && ProductionsOk(productions)
      && LogsOk(logs, productions, stations)
      && MonthPlansOk(monthPlans)
      && DailyPlansOk(dailyPlans, monthPlans)
      && StatusesOk(statuses)
    }

    /** An empty database. */
    constructor ()
      ensures Valid()
      ensures models == [] && stations == [] && productions == [] && logs == []
      ensures monthPlans == [] && dailyPlans == [] && statuses == []
    {
      models, stations, productions, logs := [], [], [], [];
      monthPlans, dailyPlans, statuses := [], [], [];
    }
  }
}
