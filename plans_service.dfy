/** Month and day production plans and the daily summary
    (BackEnd/src/production-plans/production-plans.service.ts). */
module ProductionPlanService {
  import opened Common
  import opened Ordering
  import opened Calendar
  import opened Database

  /** A month target for a model; `month` is the `YYYY-MM` the request carries. */
  datatype CreateMonthPlanDto = CreateMonthPlanDto(model: string, month: YearMonth, plannedMonth: int)

  /** A day's target and, optionally, its result. The service does not use `monthPlanId`. */
  datatype CreateDailyResultDto = CreateDailyResultDto(
    model: string, date: CalDate, plannedDay: int, actualDay: Option<int>, monthPlanId: string)

  datatype SummaryRow = SummaryRow(model: string, plannedDay: int, actualDay: int, plannedMonth: int, cumulative: int)

  datatype Totals = Totals(plannedDay: int, actualDay: int, plannedMonth: int, cumulative: int)

  datatype DailySummary = DailySummary(date: CalDate, rows: seq<SummaryRow>, total: Totals)

  predicate IsMonthKey(m: MonthPlan, model: string, planMonth: CalDate) {
    m.model == model && m.planMonth == planMonth
  }

  predicate IsDayKey(d: DailyPlan, model: string, date: CalDate) {
    d.model == model && d.workDate == date
  }

  function FindMonthPlan(ms: seq<MonthPlan>, model: string, planMonth: CalDate): (r: Option<nat>)
    ensures r.Some? ==> r.value < |ms| && IsMonthKey(ms[r.value], model, planMonth)
    ensures r.None? <==> forall k :: 0 <= k < |ms| ==> !IsMonthKey(ms[k], model, planMonth)
  {
    Find(ms, (m: MonthPlan) => IsMonthKey(m, model, planMonth))
  }

  function FindDailyPlan(ds: seq<DailyPlan>, model: string, date: CalDate): (r: Option<nat>)
    ensures r.Some? ==> r.value < |ds| && IsDayKey(ds[r.value], model, date)
    ensures r.None? <==> forall k :: 0 <= k < |ds| ==> !IsDayKey(ds[k], model, date)
  {
    Find(ds, (d: DailyPlan) => IsDayKey(d, model, date))
  }

  /** `m` is the one row of the table with its key. */
  ghost predicate OnlyMonthPlanOfKey(ms: seq<MonthPlan>, m: MonthPlan) {
    m in ms && forall k :: 0 <= k < |ms| && IsMonthKey(ms[k], m.model, m.planMonth) ==> ms[k] == m
  }

  ghost predicate OnlyDailyPlanOfKey(ds: seq<DailyPlan>, d: DailyPlan) {
    d in ds && forall k :: 0 <= k < |ds| && IsDayKey(ds[k], d.model, d.workDate) ==> ds[k] == d
  }

  function ModelOfMonth(m: MonthPlan): string {
    m.model
  }

  function ModelOfDay(d: DailyPlan): string {
    d.model
  }

  function ModelOfRow(r: SummaryRow): string {
    r.model
  }

  /* ---------- table bookkeeping ---------- */

  lemma MonthPlansAfterReplace(ms: seq<MonthPlan>, k: nat, m: MonthPlan)
    requires MonthPlansOk(ms) && k < |ms|
    requires m.id == ms[k].id && m.model == ms[k].model && m.planMonth == ms[k].planMonth
    ensures MonthPlansOk(ms[k := m]) && MonthPlanIds(ms[k := m]) == MonthPlanIds(ms)
    ensures OnlyMonthPlanOfKey(ms[k := m], m)
  {
    var r := ms[k := m];
    forall x | x in MonthPlanIds(ms) ensures x in MonthPlanIds(r) {
      var i :| 0 <= i < |ms| && ms[i].id == x;
      assert r[i].id == x;
    }
    forall x | x in MonthPlanIds(r) ensures x in MonthPlanIds(ms) {
      var i :| 0 <= i < |r| && r[i].id == x;
      assert ms[i].id == x;
    }
    assert r[k] == m;
  }

  lemma MonthPlansAfterAppend(ms: seq<MonthPlan>, m: MonthPlan)
    requires MonthPlansOk(ms) && m.id !in MonthPlanIds(ms)
    requires FindMonthPlan(ms, m.model, m.planMonth).None?
    ensures MonthPlansOk(ms + [m]) && MonthPlanIds(ms + [m]) == MonthPlanIds(ms) + {m.id}
    ensures OnlyMonthPlanOfKey(ms + [m], m)
  {
    var r := ms + [m];
    assert r[|ms|] == m;
    forall i | 0 <= i < |ms| ensures ms[i].id != m.id {
      assert ms[i] in ms;
    }
    forall x | x in MonthPlanIds(ms) ensures x in MonthPlanIds(r) {
      var q :| q in ms && q.id == x;
      assert q in r;
    }
  }

  lemma DailyPlansAfterReplace(ds: seq<DailyPlan>, ms: seq<MonthPlan>, k: nat, d: DailyPlan)
    requires DailyPlansOk(ds, ms) && k < |ds|
    requires d.id == ds[k].id && d.model == ds[k].model && d.workDate == ds[k].workDate
    requires d.monthPlanId == ds[k].monthPlanId
    ensures DailyPlansOk(ds[k := d], ms)
    ensures OnlyDailyPlanOfKey(ds[k := d], d)
  {
    var r := ds[k := d];
    assert r[k] == d;
    forall i | 0 <= i < |r| ensures MonthRefOk(r[i], ms) {
      assert MonthRefOk(ds[i], ms);
    }
  }

  lemma DailyPlansAfterAppend(ds: seq<DailyPlan>, ms: seq<MonthPlan>, d: DailyPlan)
    requires DailyPlansOk(ds, ms) && d.id !in DailyPlanIds(ds)
    requires FindDailyPlan(ds, d.model, d.workDate).None? && MonthRefOk(d, ms)
    ensures DailyPlansOk(ds + [d], ms)
    ensures OnlyDailyPlanOfKey(ds + [d], d)
  {
    var r := ds + [d];
    assert r[|ds|] == d;
    forall i | 0 <= i < |ds| ensures ds[i].id != d.id {
      assert ds[i] in ds;
    }
    forall i | 0 <= i < |r| ensures MonthRefOk(r[i], ms) {
      if i < |ds| { assert r[i] == ds[i]; }
    }
  }

  /** Daily plans keep their month references valid when month plans are only added. */
  lemma DailyRefsKept(ds: seq<DailyPlan>, ms: seq<MonthPlan>, ms2: seq<MonthPlan>)
    requires DailyPlansOk(ds, ms) && MonthPlanIds(ms) <= MonthPlanIds(ms2)
    ensures DailyPlansOk(ds, ms2)
  {
    forall i | 0 <= i < |ds| ensures MonthRefOk(ds[i], ms2) {
      assert MonthRefOk(ds[i], ms);
    }
  }

  /* ---------- month plans ---------- */

  /** `upsertMonthPlan`: keyed on (model, first day of the month). A month that is not a
      real one is refused by the database at the lookup. An existing row gets only its
      `plannedMonth` replaced; otherwise a row is inserted. Either way the key then has
      exactly one row, so upserting twice leaves one row. */
  method UpsertMonthPlan(db: Db, dto: CreateMonthPlanDto, newId: string) returns (r: Result<MonthPlan>)
    requires db.Valid() && UuidText(newId) && newId !in MonthPlanIds(db.monthPlans)
    modifies db`monthPlans
    ensures db.Valid()
    ensures r.Err? <==> !ValidDate(PlanMonthOf(dto.month))
    ensures r.Err? ==> r.error == DbError && db.monthPlans == old(db.monthPlans)
    ensures r.Ok? ==> var pm := PlanMonthOf(dto.month);
      match old(FindMonthPlan(db.monthPlans, dto.model, pm))
      case Some(k) =>
        r.value == old(db.monthPlans)[k].(plannedMonth := dto.plannedMonth) && db.monthPlans == old(db.monthPlans)[k := r.value]
      case None =>
        r.value == MonthPlan(newId, dto.model, pm, dto.plannedMonth, 0) && db.monthPlans == old(db.monthPlans) + [r.value]
    ensures r.Ok? ==>
      r.value.model == dto.model && r.value.planMonth == PlanMonthOf(dto.month) && r.value.plannedMonth == dto.plannedMonth
    ensures r.Ok? ==> OnlyMonthPlanOfKey(db.monthPlans, r.value)
  {
    var pm := PlanMonthOf(dto.month);
    if !ValidDate(pm) {
      return Err(DbError);
    }
    var existing := FindMonthPlan(db.monthPlans, dto.model, pm);
    var m: MonthPlan;
    if existing.Some? {
      var k := existing.value;
      m := db.monthPlans[k].(plannedMonth := dto.plannedMonth);
      MonthPlansAfterReplace(db.monthPlans, k, m);
      db.monthPlans := db.monthPlans[k := m];
    } else {
      m := MonthPlan(newId, dto.model, pm, dto.plannedMonth, 0);
      MonthPlansAfterAppend(db.monthPlans, m);
      DailyRefsKept(db.dailyPlans, db.monthPlans, db.monthPlans + [m]);
      db.monthPlans := db.monthPlans + [m];
    }
    r := Ok(m);
  }

  /** `getAllMonthPlans`: exactly the month plans of the month, ordered by model; a month
      that is not a real one is refused by the database. */
  function GetAllMonthPlans(db: Db, month: YearMonth): (r: Result<seq<MonthPlan>>)
    reads db
    ensures r.Err? <==> !ValidDate(PlanMonthOf(month))
    ensures r.Err? ==> r.error == DbError
    ensures r.Ok? ==>
      multiset(r.value) == multiset(Filter(db.monthPlans, (m: MonthPlan) => m.planMonth == PlanMonthOf(month)))
    ensures r.Ok? ==> forall m :: m in r.value <==> m in db.monthPlans && m.planMonth == PlanMonthOf(month)
    ensures r.Ok? ==> forall i, j :: 0 <= i < j < |r.value| ==> StrLe(r.value[i].model, r.value[j].model)
  {
    if !ValidDate(PlanMonthOf(month)) then Err(DbError)
    else
      var r := SortBy(StrKeyAsc(ModelOfMonth), Filter(db.monthPlans, (m: MonthPlan) => m.planMonth == PlanMonthOf(month)));
      SortedByStrAsc(ModelOfMonth, Filter(db.monthPlans, (m: MonthPlan) => m.planMonth == PlanMonthOf(month)));
      Ok(r)
  }

  /** The ids of the month plans with a key. */
  function MonthIdsOfKey(ms: seq<MonthPlan>, model: string, planMonth: CalDate): set<string> {
    set m | m in ms && IsMonthKey(m, model, planMonth) :: m.id
  }

  /** A daily plan the first delete of `deleteMonthPlan` removes: the model's, dated in the month. */
  predicate InDeletedMonth(d: DailyPlan, model: string, planMonth: CalDate) {
    d.model == model && MonthStart(d.workDate) == planMonth
  }

  /** A daily plan linked to one of the removed month plans, which the foreign key's cascade removes. */
  predicate LinkedTo(d: DailyPlan, gone: set<string>) {
    d.monthPlanId.Some? && d.monthPlanId.value in gone
  }

  /** The month plans `deleteMonthPlan` keeps: those without the key. */
  function KeepMonth(model: string, pm: CalDate): MonthPlan -> bool {
    (m: MonthPlan) => !IsMonthKey(m, model, pm)
  }

  /** The daily plans `deleteMonthPlan` keeps: neither in the deleted month nor linked to a
      removed month plan. */
  function KeepDay(model: string, pm: CalDate, gone: set<string>): DailyPlan -> bool {
    (d: DailyPlan) => !InDeletedMonth(d, model, pm) && !LinkedTo(d, gone)
  }

  /** What `deleteMonthPlan` leaves keeps the plan tables' keys, ids and month links valid. */
  lemma MonthDeleteKeepsTables(ds: seq<DailyPlan>, ms: seq<MonthPlan>, model: string, pm: CalDate)
    requires DailyPlansOk(ds, ms) && MonthPlansOk(ms)
    ensures var ms2 := Filter(ms, KeepMonth(model, pm));
      MonthPlansOk(ms2) && DailyPlansOk(Filter(ds, KeepDay(model, pm, MonthIdsOfKey(ms, model, pm))), ms2)
  {
    var gone := MonthIdsOfKey(ms, model, pm);
    var ms2 := Filter(ms, KeepMonth(model, pm));
    var ds2 := Filter(ds, KeepDay(model, pm, gone));
    FilterKeepsPairwise(ms, KeepMonth(model, pm),
      (a: MonthPlan, b: MonthPlan) => a.id != b.id && (a.model != b.model || a.planMonth != b.planMonth));
    FilterKeepsPairwise(ds, KeepDay(model, pm, gone),
      (a: DailyPlan, b: DailyPlan) => a.id != b.id && (a.model != b.model || a.workDate != b.workDate));
    forall i | 0 <= i < |ds2| ensures MonthRefOk(ds2[i], ms2) {
      var d := ds2[i];
      assert d in ds;
      var k :| 0 <= k < |ds| && ds[k] == d;
      assert MonthRefOk(ds[k], ms);
      if d.monthPlanId.Some? {
        var m :| m in ms && m.id == d.monthPlanId.value;
        assert m in ms2;
      }
    }
  }

  /** `deleteMonthPlan`: removes the model's daily plans dated in the month, then the month
      plan; the cascade also removes daily plans linked to it. Every other row stays, in order. */
  method DeleteMonthPlan(db: Db, model: string, month: YearMonth) returns (r: Outcome)
    requires db.Valid()
    modifies db`monthPlans, db`dailyPlans
    ensures db.Valid()
    ensures r.Fail? <==> !ValidDate(PlanMonthOf(month))
    ensures r.Fail? ==> r.error == DbError && db.monthPlans == old(db.monthPlans) && db.dailyPlans == old(db.dailyPlans)
    ensures r.Pass? ==> var pm := PlanMonthOf(month);
      && db.monthPlans == Filter(old(db.monthPlans), KeepMonth(model, pm))
      && db.dailyPlans == Filter(old(db.dailyPlans), KeepDay(model, pm, MonthIdsOfKey(old(db.monthPlans), model, pm)))
    ensures r.Pass? ==> var pm := PlanMonthOf(month);
      forall m :: m in db.monthPlans <==> m in old(db.monthPlans) && !IsMonthKey(m, model, pm)
    ensures r.Pass? ==> var pm := PlanMonthOf(month);
      var gone := MonthIdsOfKey(old(db.monthPlans), model, pm);
      forall d :: d in db.dailyPlans <==> d in old(db.dailyPlans) && !InDeletedMonth(d, model, pm) && !LinkedTo(d, gone)
  {
    var pm := PlanMonthOf(month);
    if !ValidDate(pm) {
      return Fail(DbError);
    }
    var gone := MonthIdsOfKey(db.monthPlans, model, pm);
    MonthDeleteKeepsTables(db.dailyPlans, db.monthPlans, model, pm);
    db.dailyPlans := Filter(db.dailyPlans, KeepDay(model, pm, gone));
    db.monthPlans := Filter(db.monthPlans, KeepMonth(model, pm));
    r := Pass;
  }

  /* ---------- daily plans ---------- */

  /** `upsertDailyResult`: keyed on (model, date). A date that is not a real one is refused
      by the database at the lookup. An existing row gets `plannedDay` replaced and
      `actualDay` replaced only when one is supplied; otherwise a row is inserted with
      `actualDay` the supplied value or 0, and no month link. */
  method UpsertDailyResult(db: Db, dto: CreateDailyResultDto, newId: string) returns (r: Result<DailyPlan>)
    requires db.Valid() && UuidText(newId) && newId !in DailyPlanIds(db.dailyPlans)
    modifies db`dailyPlans
    ensures db.Valid()
    ensures r.Err? <==> !ValidDate(dto.date)
    ensures r.Err? ==> r.error == DbError && db.dailyPlans == old(db.dailyPlans)
    ensures r.Ok? ==> match old(FindDailyPlan(db.dailyPlans, dto.model, dto.date))
      case Some(k) =>
        var d := old(db.dailyPlans)[k];
        r.value == d.(plannedDay := dto.plannedDay, actualDay := dto.actualDay.GetOr(d.actualDay))
        && db.dailyPlans == old(db.dailyPlans)[k := r.value]
      case None =>
        r.value == DailyPlan(newId, dto.model, dto.date, dto.plannedDay, dto.actualDay.GetOr(0), None)
        && db.dailyPlans == old(db.dailyPlans) + [r.value]
    ensures r.Ok? ==> r.value.model == dto.model && r.value.workDate == dto.date && r.value.plannedDay == dto.plannedDay
    ensures r.Ok? && dto.actualDay.Some? ==> r.value.actualDay == dto.actualDay.value
    ensures r.Ok? ==> OnlyDailyPlanOfKey(db.dailyPlans, r.value)
  {
    if !ValidDate(dto.date) {
      return Err(DbError);
    }
    var existing := FindDailyPlan(db.dailyPlans, dto.model, dto.date);
    var p: DailyPlan;
    if existing.Some? {
      var k := existing.value;
      var d := db.dailyPlans[k];
      p := d.(plannedDay := dto.plannedDay, actualDay := dto.actualDay.GetOr(d.actualDay));
      DailyPlansAfterReplace(db.dailyPlans, db.monthPlans, k, p);
      db.dailyPlans := db.dailyPlans[k := p];
    } else {
      p := DailyPlan(newId, dto.model, dto.date, dto.plannedDay, dto.actualDay.GetOr(0), None);
      DailyPlansAfterAppend(db.dailyPlans, db.monthPlans, p);
      db.dailyPlans := db.dailyPlans + [p];
    }
    r := Ok(p);
  }

  function OnDate(date: CalDate): DailyPlan -> bool {
    (d: DailyPlan) => d.workDate == date
  }

  /** `getAllDailyPlans`: exactly the daily plans of the date, ordered by model; a date that
      is not a real one is refused by the database. */
  function GetAllDailyPlans(db: Db, date: CalDate): (r: Result<seq<DailyPlan>>)
    reads db
    ensures r.Err? <==> !ValidDate(date)
    ensures r.Err? ==> r.error == DbError
    ensures r.Ok? ==> multiset(r.value) == multiset(Filter(db.dailyPlans, OnDate(date)))
    ensures r.Ok? ==> forall d :: d in r.value <==> d in db.dailyPlans && d.workDate == date
    ensures r.Ok? ==> forall i, j :: 0 <= i < j < |r.value| ==> StrLe(r.value[i].model, r.value[j].model)
  {
    if !ValidDate(date) then Err(DbError)
    else
      var r := SortBy(StrKeyAsc(ModelOfDay), Filter(db.dailyPlans, OnDate(date)));
      SortedByStrAsc(ModelOfDay, Filter(db.dailyPlans, OnDate(date)));
      Ok(r)
  }

  /** `deleteDailyPlan`: removes the row with the key, if any, and keeps every other row in
      order; a date that is not a real one is refused by the database. */
  method DeleteDailyPlan(db: Db, model: string, date: CalDate) returns (r: Outcome)
    requires db.Valid()
    modifies db`dailyPlans
    ensures db.Valid()
    ensures r.Fail? <==> !ValidDate(date)
    ensures r.Fail? ==> r.error == DbError && db.dailyPlans == old(db.dailyPlans)
    ensures r.Pass? ==> db.dailyPlans == Filter(old(db.dailyPlans), (d: DailyPlan) => !IsDayKey(d, model, date))
    ensures r.Pass? ==> forall d :: d in db.dailyPlans <==> d in old(db.dailyPlans) && !IsDayKey(d, model, date)
  {
    if !ValidDate(date) {
      return Fail(DbError);
    }
    var keep := (d: DailyPlan) => !IsDayKey(d, model, date);
    var ds := Filter(db.dailyPlans, keep);
    FilterKeepsPairwise(db.dailyPlans, keep,
      (a: DailyPlan, b: DailyPlan) => a.id != b.id && (a.model != b.model || a.workDate != b.workDate));
    forall i | 0 <= i < |ds| ensures MonthRefOk(ds[i], db.monthPlans) {
      assert ds[i] in db.dailyPlans;
      var k :| 0 <= k < |db.dailyPlans| && db.dailyPlans[k] == ds[i];
      assert MonthRefOk(db.dailyPlans[k], db.monthPlans);
    }
    db.dailyPlans := ds;
    r := Pass;
  }

  /* ---------- daily summary ---------- */

  /** The SQL window `r.work_date BETWEEN date_trunc('month', d.work_date) AND d.work_date`. */
  predicate InWindow(r: CalDate, d: CalDate) {
    DateLe(MonthStart(d), r) && DateLe(r, d)
  }

  /** `SUM(r.actual_day)` over the model's daily plans in the window ending at `date`. */
  function WindowSum(ds: seq<DailyPlan>, model: string, date: CalDate): int {
    if ds == [] then 0
    else (if ds[0].model == model && InWindow(ds[0].workDate, date) then ds[0].actualDay else 0)
         + WindowSum(ds[1..], model, date)
  }

  /** The join `m.model = d.model AND m.plan_month = date_trunc('month', d.work_date)`. */
  predicate MonthMatches(m: MonthPlan, d: DailyPlan) {
    m.model == d.model && m.planMonth == MonthStart(d.workDate)
  }

  /** The summary row of a daily plan joined with its month plan. */
  function RowOf(d: DailyPlan, m: MonthPlan, ds: seq<DailyPlan>): SummaryRow {
    SummaryRow(d.model, d.plannedDay, d.actualDay, m.plannedMonth, WindowSum(ds, d.model, d.workDate))
  }

  function RowsFor(d: DailyPlan, ms: seq<MonthPlan>, ds: seq<DailyPlan>): (r: seq<SummaryRow>)
    ensures forall x :: x in r <==> exists m :: m in ms && MonthMatches(m, d) && x == RowOf(d, m, ds)
    ensures MonthPlansOk(ms) ==> |r| <= 1
  {
    var matches := (m: MonthPlan) => MonthMatches(m, d);
    var mm := Filter(ms, matches);
    var r := seq(|mm|, i requires 0 <= i < |mm| => RowOf(d, mm[i], ds));
    assert MonthPlansOk(ms) ==> |mm| <= 1 by {
      if MonthPlansOk(ms) {
        FilterKeepsPairwise(ms, matches, (a: MonthPlan, b: MonthPlan) => a.model != b.model || a.planMonth != b.planMonth);
        FirstTwoRelated(mm, (a: MonthPlan, b: MonthPlan) => a.model != b.model || a.planMonth != b.planMonth);
      }
    }
    assert forall m :: m in ms && MonthMatches(m, d) ==> RowOf(d, m, ds) in r by {
      forall m | m in ms && MonthMatches(m, d) ensures RowOf(d, m, ds) in r {
        var i :| 0 <= i < |mm| && mm[i] == m;
        assert r[i] == RowOf(d, m, ds);
      }
    }
    assert forall x :: x in r ==> exists m :: m in ms && MonthMatches(m, d) && x == RowOf(d, m, ds) by {
      forall x | x in r ensures exists m :: m in ms && MonthMatches(m, d) && x == RowOf(d, m, ds) {
        var i :| 0 <= i < |r| && r[i] == x;
        assert mm[i] in mm;
      }
    }
    r
  }

  function JoinRows(dd: seq<DailyPlan>, ms: seq<MonthPlan>, ds: seq<DailyPlan>): (r: seq<SummaryRow>)
    ensures forall x :: x in r <==> exists d, m :: d in dd && m in ms && MonthMatches(m, d) && x == RowOf(d, m, ds)
  {
    if dd == [] then []
    else
      var r := RowsFor(dd[0], ms, ds) + JoinRows(dd[1..], ms, ds);
      assert forall d :: d in dd ==> d == dd[0] || d in dd[1..];
      r
  }

  /** The rows of `getDailySummary`: every daily plan of the date joined with its month plan,
      with the month's running total of results, ordered by model. */
  function SummaryRows(ds: seq<DailyPlan>, ms: seq<MonthPlan>, date: CalDate): (r: seq<SummaryRow>)
    ensures forall x :: x in r <==>
      exists d, m :: d in ds && d.workDate == date && m in ms && MonthMatches(m, d) && x == RowOf(d, m, ds)
    ensures forall i, j :: 0 <= i < j < |r| ==> StrLe(r[i].model, r[j].model)
  {
    var dd := Filter(ds, OnDate(date));
    var r := SortBy(StrKeyAsc(ModelOfRow), JoinRows(dd, ms, ds));
    SortedByStrAsc(ModelOfRow, JoinRows(dd, ms, ds));
    r
  }

  /** Daily plans with pairwise distinct models give rows with pairwise distinct models. */
  lemma {:induction false} JoinRowsDistinct(dd: seq<DailyPlan>, ms: seq<MonthPlan>, ds: seq<DailyPlan>)
    requires MonthPlansOk(ms)
    requires forall i, j :: 0 <= i < j < |dd| ==> dd[i].model != dd[j].model
    ensures forall i, j :: 0 <= i < j < |JoinRows(dd, ms, ds)| ==>
      JoinRows(dd, ms, ds)[i].model != JoinRows(dd, ms, ds)[j].model
  {
    if dd != [] {
      var head := RowsFor(dd[0], ms, ds);
      var tail := JoinRows(dd[1..], ms, ds);
      JoinRowsDistinct(dd[1..], ms, ds);
      forall x, y | x in head && y in tail ensures x.model != y.model {
        HeadRowApart(dd, ms, ds, x, y);
      }
      ConcatDistinct(head, tail);
      assert JoinRows(dd, ms, ds) == head + tail;
    }
  }

  /** At most one row in front of rows with distinct models, none of them sharing its model,
      keeps the models distinct. */
  lemma ConcatDistinct(head: seq<SummaryRow>, tail: seq<SummaryRow>)
    requires |head| <= 1
    requires forall i, j :: 0 <= i < j < |tail| ==> tail[i].model != tail[j].model
    requires forall x, y :: x in head && y in tail ==> x.model != y.model
    ensures forall i, j :: 0 <= i < j < |head + tail| ==> (head + tail)[i].model != (head + tail)[j].model
  {
    var r := head + tail;
    forall i, j | 0 <= i < j < |r| ensures r[i].model != r[j].model {
      if i >= |head| {
        assert r[i] == tail[i - |head|] && r[j] == tail[j - |head|];
      } else {
        assert r[i] in head && r[j] == tail[j - |head|] && r[j] in tail;
      }
    }
  }

  /** A row of the first daily plan and a row of the later ones have different models. */
  lemma HeadRowApart(dd: seq<DailyPlan>, ms: seq<MonthPlan>, ds: seq<DailyPlan>, x: SummaryRow, y: SummaryRow)
    requires dd != []
    requires forall i, j :: 0 <= i < j < |dd| ==> dd[i].model != dd[j].model
    requires x in RowsFor(dd[0], ms, ds) && y in JoinRows(dd[1..], ms, ds)
    ensures x.model != y.model
  {
    var d, m :| d in dd[1..] && m in ms && MonthMatches(m, d) && y == RowOf(d, m, ds);
    var k :| 0 <= k < |dd[1..]| && dd[1..][k] == d;
    assert dd[0].model != dd[k + 1].model;
  }

  /** With the plan tables' keys unique, the summary holds one row per model. */
  lemma SummaryModelsDistinct(ds: seq<DailyPlan>, ms: seq<MonthPlan>, date: CalDate)
    requires DayKeysUnique(ds) && MonthPlansOk(ms)
    ensures forall i, j :: 0 <= i < j < |SummaryRows(ds, ms, date)| ==>
      SummaryRows(ds, ms, date)[i].model != SummaryRows(ds, ms, date)[j].model
  {
    var dd := Filter(ds, OnDate(date));
    FilterKeepsPairwise(ds, OnDate(date), (a: DailyPlan, b: DailyPlan) => a.model != b.model || a.workDate != b.workDate);
    forall i, j | 0 <= i < j < |dd| ensures dd[i].model != dd[j].model {
      assert dd[i] in dd && dd[j] in dd;
    }
    JoinRowsDistinct(dd, ms, ds);
    var joined := JoinRows(dd, ms, ds);
    assert SummaryRows(ds, ms, date) == SortBy(StrKeyAsc(ModelOfRow), joined);
    DistinctKeysPermuted(joined, SummaryRows(ds, ms, date), ModelOfRow);
  }

  /** A model has a summary row exactly when it has a daily plan on the date and a month plan
      for that month. */
  lemma SummaryModels(ds: seq<DailyPlan>, ms: seq<MonthPlan>, date: CalDate, model: string)
    ensures (exists x :: x in SummaryRows(ds, ms, date) && x.model == model)
        <==> (exists d :: d in ds && IsDayKey(d, model, date))
             && (exists m :: m in ms && IsMonthKey(m, model, MonthStart(date)))
  {
    var r := SummaryRows(ds, ms, date);
    if (exists d :: d in ds && IsDayKey(d, model, date)) && (exists m :: m in ms && IsMonthKey(m, model, MonthStart(date))) {
      var d :| d in ds && IsDayKey(d, model, date);
      var m :| m in ms && IsMonthKey(m, model, MonthStart(date));
      assert MonthMatches(m, d);
      assert RowOf(d, m, ds) in r;
    }
  }

  /* The cumulative column as a day-by-day running total. */

  /** The result recorded for one day: the day's plan's `actualDay`, or 0 without a plan. */
  function ActualOn(ds: seq<DailyPlan>, model: string, date: CalDate): int {
    match FindDailyPlan(ds, model, date)
    case None => 0
    case Some(k) => ds[k].actualDay
  }

  /** The month's results from day 1 through day `n`, added day by day. */
  function RunningSum(ds: seq<DailyPlan>, model: string, year: int, month: int, n: int): int
    decreases n
  {
    if n <= 0 then 0 else RunningSum(ds, model, year, month, n - 1) + ActualOn(ds, model, CalDate(year, month, n))
  }

  /** Every plan's `actualDay` on a day, added up. */
  function MatchSum(ds: seq<DailyPlan>, model: string, date: CalDate): int {
    if ds == [] then 0
    else (if IsDayKey(ds[0], model, date) then ds[0].actualDay else 0) + MatchSum(ds[1..], model, date)
  }

  function MatchRunningSum(ds: seq<DailyPlan>, model: string, year: int, month: int, n: int): int
    decreases n
  {
    if n <= 0 then 0 else MatchRunningSum(ds, model, year, month, n - 1) + MatchSum(ds, model, CalDate(year, month, n))
  }

  /** At most one plan per (model, date), the unique constraint of the daily table. */
  ghost predicate DayKeysUnique(ds: seq<DailyPlan>) {
    forall i, j :: 0 <= i < j < |ds| ==> ds[i].model != ds[j].model || ds[i].workDate != ds[j].workDate
  }

  lemma {:induction false} MatchSumNone(ds: seq<DailyPlan>, model: string, date: CalDate)
    requires forall k :: 0 <= k < |ds| ==> !IsDayKey(ds[k], model, date)
    ensures MatchSum(ds, model, date) == 0
  {
    if ds != [] {
      MatchSumNone(ds[1..], model, date);
    }
  }

  lemma {:induction false} ActualOnIsMatchSum(ds: seq<DailyPlan>, model: string, date: CalDate)
    requires DayKeysUnique(ds)
    ensures ActualOn(ds, model, date) == MatchSum(ds, model, date)
  {
    if ds != [] {
      if IsDayKey(ds[0], model, date) {
        MatchSumNone(ds[1..], model, date);
      } else {
        ActualOnIsMatchSum(ds[1..], model, date);
        var f := FindDailyPlan(ds[1..], model, date);
        if f.Some? {
          assert ds[1..][f.value] == ds[f.value + 1];
        }
      }
    }
  }

  lemma {:induction false} RunningSumIsMatchRunningSum(ds: seq<DailyPlan>, model: string, year: int, month: int, n: int)
    requires DayKeysUnique(ds)
    ensures RunningSum(ds, model, year, month, n) == MatchRunningSum(ds, model, year, month, n)
    decreases n
  {
    if n > 0 {
      RunningSumIsMatchRunningSum(ds, model, year, month, n - 1);
      ActualOnIsMatchSum(ds, model, CalDate(year, month, n));
    }
  }

  /** The first plan's share of the running total through day `n`. */
  lemma {:induction false} MatchRunningSumSplit(ds: seq<DailyPlan>, model: string, year: int, month: int, n: int)
    requires ds != []
    ensures MatchRunningSum(ds, model, year, month, n)
         == (if ds[0].model == model && ds[0].workDate.year == year && ds[0].workDate.month == month
                && 1 <= ds[0].workDate.day <= n then ds[0].actualDay else 0)
            + MatchRunningSum(ds[1..], model, year, month, n)
    decreases n
  {
    if n > 0 {
      MatchRunningSumSplit(ds, model, year, month, n - 1);
    }
  }

  lemma {:induction false} MatchRunningSumEmpty(model: string, year: int, month: int, n: int)
    ensures MatchRunningSum([], model, year, month, n) == 0
    decreases n
  {
    if n > 0 {
      MatchRunningSumEmpty(model, year, month, n - 1);
    }
  }

  lemma {:induction false} WindowSumIsMatchRunningSum(ds: seq<DailyPlan>, model: string, date: CalDate)
    ensures WindowSum(ds, model, date) == MatchRunningSum(ds, model, date.year, date.month, date.day)
  {
    if ds == [] {
      MatchRunningSumEmpty(model, date.year, date.month, date.day);
    } else {
      WindowSumIsMatchRunningSum(ds[1..], model, date);
      MatchRunningSumSplit(ds, model, date.year, date.month, date.day);
      BetweenMonthStartAnd(ds[0].workDate, date);
    }
  }

  /** A summary row's cumulative, the SQL window sum, is the day-by-day running total of the
      model's results from day 1 of the month through the date. */
  lemma CumulativeIsRunningTotal(ds: seq<DailyPlan>, model: string, date: CalDate)
    requires DayKeysUnique(ds)
    ensures WindowSum(ds, model, date) == RunningSum(ds, model, date.year, date.month, date.day)
  {
    WindowSumIsMatchRunningSum(ds, model, date);
    RunningSumIsMatchRunningSum(ds, model, date.year, date.month, date.day);
  }

  /* ---------- totals ---------- */

  function PlannedDayOf(r: SummaryRow): int { r.plannedDay }
  function ActualDayOf(r: SummaryRow): int { r.actualDay }
  function PlannedMonthOf(r: SummaryRow): int { r.plannedMonth }
  function CumulativeOf(r: SummaryRow): int { r.cumulative }

  /** The `reduce` of `getDailySummary`: each total is the sum of its column over the rows,
      all zero for no rows. */
  method SumTotals(rows: seq<SummaryRow>) returns (t: Totals)
    ensures t.plannedDay == SumBy(rows, PlannedDayOf) && t.actualDay == SumBy(rows, ActualDayOf)
    ensures t.plannedMonth == SumBy(rows, PlannedMonthOf) && t.cumulative == SumBy(rows, CumulativeOf)
    ensures rows == [] ==> t == Totals(0, 0, 0, 0)
  {
    t := Totals(0, 0, 0, 0);
    for i := 0 to |rows|
      invariant t.plannedDay == SumBy(rows[..i], PlannedDayOf) && t.actualDay == SumBy(rows[..i], ActualDayOf)
      invariant t.plannedMonth == SumBy(rows[..i], PlannedMonthOf) && t.cumulative == SumBy(rows[..i], CumulativeOf)
    {
      assert rows[..i + 1][..i] == rows[..i];
      var r := rows[i];
      t := Totals(t.plannedDay + r.plannedDay, t.actualDay + r.actualDay,
                  t.plannedMonth + r.plannedMonth, t.cumulative + r.cumulative);
    }
    assert rows[..|rows|] == rows;
  }

  /** The totals of two row lists put together are the sums of their totals. */
  lemma TotalsSplit(a: seq<SummaryRow>, b: seq<SummaryRow>)
    ensures SumBy(a + b, PlannedDayOf) == SumBy(a, PlannedDayOf) + SumBy(b, PlannedDayOf)
    ensures SumBy(a + b, ActualDayOf) == SumBy(a, ActualDayOf) + SumBy(b, ActualDayOf)
    ensures SumBy(a + b, PlannedMonthOf) == SumBy(a, PlannedMonthOf) + SumBy(b, PlannedMonthOf)
    ensures SumBy(a + b, CumulativeOf) == SumBy(a, CumulativeOf) + SumBy(b, CumulativeOf)
  {
    SumByAppend(a, b, PlannedDayOf);
    SumByAppend(a, b, ActualDayOf);
    SumByAppend(a, b, PlannedMonthOf);
    SumByAppend(a, b, CumulativeOf);
  }

  /** `getDailySummary`: the date, its summary rows and their totals; a date that is not a
      real one is refused by the database. */
  method GetDailySummary(db: Db, date: CalDate) returns (r: Result<DailySummary>)
    ensures r.Err? <==> !ValidDate(date)
    ensures r.Err? ==> r.error == DbError
    ensures r.Ok? ==> r.value.date == date && r.value.rows == SummaryRows(db.dailyPlans, db.monthPlans, date)
    ensures r.Ok? ==> var s := r.value;
      s.total.plannedDay == SumBy(s.rows, PlannedDayOf) && s.total.actualDay == SumBy(s.rows, ActualDayOf)
    ensures r.Ok? ==> var s := r.value;
      s.total.plannedMonth == SumBy(s.rows, PlannedMonthOf) && s.total.cumulative == SumBy(s.rows, CumulativeOf)
  {
    if !ValidDate(date) {
      return Err(DbError);
    }
    var rows := SummaryRows(db.dailyPlans, db.monthPlans, date);
    var total := SumTotals(rows);
    r := Ok(DailySummary(date, rows, total));
  }
}
